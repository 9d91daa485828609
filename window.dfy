/** The two sliding windows the scripts keep: a bounded deque (Python's `deque(maxlen=...)`,
    Rust's `BoundedVecDeque`), updated in place, and the NumPy "drop the head, append the new
    frame" buffer `np.append(q[1:hi], [frame], axis=0)`, which builds a new array each push. */
module Window {
  import opened Samples

  /** The last `c` elements of `s` (all of `s` when it is shorter). */
  function Keep<T>(s: seq<T>, c: nat): (r: seq<T>)
    ensures |r| == Min(|s|, c)
  {
    if |s| <= c then s else s[|s| - c..]
  }

  /** Element t of the kept window is element |s| - |Keep(s, c)| + t of the history. */
  lemma KeepAt<T>(s: seq<T>, c: nat, t: nat)
    requires t < |Keep(s, c)|
    ensures Keep(s, c)[t] == s[|s| - |Keep(s, c)| + t]
  {
  }

  /** Appending to a window already cut to its last `c` elements and cutting again keeps
      the same elements as appending to the whole history. */
  lemma KeepAppend<T>(s: seq<T>, x: T, c: nat)
    ensures Keep(Keep(s, c) + [x], c) == Keep(s + [x], c)
  {
    var a, b := Keep(Keep(s, c) + [x], c), Keep(s + [x], c);
    assert |a| == |b|;
    forall t | 0 <= t < |a| ensures a[t] == b[t] {
      KeepAt(Keep(s, c) + [x], c, t);
      KeepAt(s + [x], c, t);
      if t < |a| - 1 {
        KeepAt(s, c, |Keep(s, c)| + 1 - |a| + t);
      }
    }
  }

  /** Once `t` alone has at least `c` elements, whatever came before it is gone. */
  lemma KeepSuffix<T>(s: seq<T>, t: seq<T>, c: nat)
    requires c <= |t|
    ensures Keep(s + t, c) == Keep(t, c)
  {
    assert (s + t)[|s + t| - c..] == t[|t| - c..];
  }

  /** Python's `s[lo:hi]` for non-negative bounds: both clamp to the length, and an
      empty range gives the empty slice. */
  function PySlice<T>(s: seq<T>, lo: nat, hi: nat): (r: seq<T>)
    ensures |r| == if Min(lo, |s|) < Min(hi, |s|) then Min(hi, |s|) - Min(lo, |s|) else 0
  {
    var h := Min(hi, |s|);
    var l := Min(lo, h);
    s[l..h]
  }

  /** One push into the NumPy buffer: `np.append(q[1:hi], [x], axis=0)`. */
  function ShiftAppend<T>(q: seq<T>, hi: nat, x: T): (r: seq<T>)
    ensures |r| > 0 && r[|r| - 1] == x
  {
    PySlice(q, 1, hi) + [x]
  }

  /** Once the buffer has exactly `hi` frames, a push drops the oldest and appends the new
      one, so the buffer stays at `hi` frames: a bounded FIFO of capacity `hi`. */
  lemma ShiftAppendFull<T>(q: seq<T>, hi: nat, x: T)
    requires 1 <= hi == |q|
    ensures ShiftAppend(q, hi, x) == Keep(q + [x], hi)
    ensures |ShiftAppend(q, hi, x)| == hi
  {
    assert PySlice(q, 1, hi) == q[1..];
    assert (q + [x])[1..] == q[1..] + [x];
  }

  /** The first push into a buffer of `hi` or more slots keeps slots 1..hi-1 and the new
      frame: for hi == |q| that drops only slot 0, for a smaller hi it also drops the tail. */
  lemma ShiftAppendFirst<T>(q: seq<T>, hi: nat, x: T)
    requires 1 <= hi <= |q|
    ensures ShiftAppend(q, hi, x) == q[1..hi] + [x]
    ensures ShiftAppend(q, hi, x) == Keep(q[1..hi] + [x], hi)
  {
  }

  /** A FIFO of at most `maxlen` items whose `PushBack` evicts the front item when full:
      `collections.deque(maxlen=...)` and `bounded_vec_deque::BoundedVecDeque`. */
  class BoundedDeque<T> {
    const maxlen: nat
    var items: seq<T>

    ghost predicate Valid()
      reads this
    {
      |items| <= maxlen
    }

    constructor (maxlen: nat)
      ensures Valid() && this.maxlen == maxlen && items == []
    {
      this.maxlen := maxlen;
      items := [];
    }

    /** `deque.append(x)` / `push_back(x)`: the new item goes to the back and, when the
        deque was full, the front item is evicted; with maxlen 0 nothing is kept. */
    method PushBack(x: T)
      requires Valid()
      modifies this
      ensures Valid()
      ensures items == Keep(old(items) + [x], maxlen)
    {
      if |items| < maxlen {
        items := items + [x];
      } else if maxlen > 0 {
        items := items[1..] + [x];
      }
    }

    /** The deque's contents, front to back; a value, so later pushes cannot reach it
        (Rust's `to_owned()`, or Python's blend finishing before the next push). */
    function Snapshot(): (s: seq<T>)
      reads this
      requires Valid()
      ensures |s| <= maxlen
    {
      items
    }
  }
}
