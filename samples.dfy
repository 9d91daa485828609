/** Frames, samples, errors, and the exact integer arithmetic behind every blend variant.
    A frame is flattened to its sequence of unsigned 8-bit samples; its length plays the
    role of the array's shape. */
module Samples {

  type Frame = seq<int>

  /** A value an unsigned 8-bit pixel sample can hold. */
  predicate IsSample(v: int) { 0 <= v < 256 }

  /** A frame of exactly `w` samples, each in 0..255. */
  predicate IsFrame(f: Frame, w: nat) {
    |f| == w && forall p :: 0 <= p < w ==> IsSample(f[p])
  }

  /** Every frame of `fs` has `w` samples in 0..255 (a numpy array of frames has one shape). */
  predicate AllFrames(fs: seq<Frame>, w: nat) {
    forall j :: 0 <= j < |fs| ==> IsFrame(fs[j], w)
  }

  /** Every frame of `fs` holds samples in 0..255, whatever its length. */
  predicate AllSamples(fs: seq<Frame>) {
    forall j :: 0 <= j < |fs| ==> IsFrame(fs[j], |fs[j]|)
  }

  function Min(a: int, b: int): int { if a <= b then a else b }

  /** The failures the scripts can run into: Python's IndexError (and a Rust index panic),
      Python's ZeroDivisionError, and a Rust panic on an accumulator/frame shape mismatch. */
  datatype Error = IndexError | ZeroDivisionError | ShapeMismatch

  datatype Result<T> = Ok(value: T) | Err(error: Error)

  /** The per-position sum of sample `p` over the frames of `fs` that have `w` samples,
      in push order; a frame of any other length contributes nothing. */
  function ColumnSum(fs: seq<Frame>, w: nat, p: nat): int
    requires p < w
    decreases |fs|
  {
    if fs == [] then 0
    else
      var f := fs[|fs| - 1];
      ColumnSum(fs[..|fs| - 1], w, p) + (if |f| == w then f[p] else 0)
  }

  /** When every frame has `w` samples and sample `p` lies in lo..hi in each of them,
      the column sum lies between |fs| * lo and |fs| * hi. */
  lemma {:induction false} ColumnSumBetween(fs: seq<Frame>, w: nat, p: nat, lo: int, hi: int)
    requires p < w
    requires forall j :: 0 <= j < |fs| ==> |fs[j]| == w && lo <= fs[j][p] <= hi
    ensures |fs| * lo <= ColumnSum(fs, w, p) <= |fs| * hi
  {
    if fs != [] {
      var n := |fs| - 1;
      ColumnSumBetween(fs[..n], w, p, lo, hi);
      assert |fs| * lo == n * lo + lo && |fs| * hi == n * hi + hi;
    }
  }

  /** Whatever the frames' lengths, a column sum of 8-bit samples lies in 0..255 * |fs|:
      skipped frames only make it smaller. */
  lemma {:induction false} ColumnSumInRange(fs: seq<Frame>, w: nat, p: nat)
    requires p < w
    requires AllSamples(fs)
    ensures 0 <= ColumnSum(fs, w, p) <= 255 * |fs|
  {
    if fs != [] {
      var n := |fs| - 1;
      assert AllSamples(fs[..n]) by {
        forall j | 0 <= j < n ensures IsFrame(fs[..n][j], |fs[..n][j]|) {
          assert fs[..n][j] == fs[j];
        }
      }
      ColumnSumInRange(fs[..n], w, p);
      assert IsFrame(fs[n], |fs[n]|);
    }
  }

  /** A frame of another length appended to the window leaves every column sum as it was. */
  lemma ColumnSumSkips(fs: seq<Frame>, bad: Frame, w: nat, p: nat)
    requires p < w && |bad| != w
    ensures ColumnSum(fs + [bad], w, p) == ColumnSum(fs, w, p)
  {
    assert (fs + [bad])[..|fs|] == fs;
  }

  /** `numpy.rint(s / n)` for an exact quotient: the nearest integer, ties to the even one. */
  function RoundHalfEven(s: int, n: int): int
    requires n > 0
  {
    var q, r := s / n, s % n;
    if 2 * r < n then q
    else if 2 * r > n then q + 1
    else if q % 2 == 0 then q else q + 1
  }

  /** The rounded quotient is within half a step of s / n, and on a tie it is even. */
  lemma RoundHalfEvenNearest(s: int, n: int)
    requires n > 0
    ensures var x := RoundHalfEven(s, n); -n <= 2 * (n * x - s) <= n
    ensures var x := RoundHalfEven(s, n); (2 * (n * x - s) == n || 2 * (n * x - s) == -n) ==> x % 2 == 0
  {
    var q, r := s / n, s % n;
    assert s == n * q + r;
    assert n * (q + 1) - s == n - r;
  }

  /** Those two facts pin the rounded quotient down: no other integer has them. */
  lemma RoundHalfEvenUnique(s: int, n: int, x: int)
    requires n > 0
    requires -n <= 2 * (n * x - s) <= n
    requires (2 * (n * x - s) == n || 2 * (n * x - s) == -n) ==> x % 2 == 0
    ensures x == RoundHalfEven(s, n)
  {
    var q, r := s / n, s % n;
    assert s == n * q + r;
    var d := x - q;
    assert n * x - s == n * d - r;
    MulMonotone(n, 2, d);
    MulMonotone(n, d, -1);
    if d == 0 {
      assert n * x - s == -r;
    } else {
      assert d == 1 && n * x - s == n - r;
    }
  }

  lemma MulMonotone(n: int, a: int, b: int)
    requires n > 0
    ensures a <= b ==> n * a <= n * b
  {
    assert n * b - n * a == n * (b - a);
  }

  /** If n * lo <= s <= n * hi then the rounded quotient lies in lo..hi. */
  lemma RoundHalfEvenBetween(s: int, n: int, lo: int, hi: int)
    requires n > 0 && n * lo <= s <= n * hi
    ensures lo <= RoundHalfEven(s, n) <= hi
  {
    var x := RoundHalfEven(s, n);
    RoundHalfEvenNearest(s, n);
    MulMonotone(n, x, lo - 1);
    MulMonotone(n, hi + 1, x);
    assert n * (lo - 1) == n * lo - n && n * (hi + 1) == n * hi + n;
  }

  /** If n * lo <= s <= n * hi then the floor quotient s / n lies in lo..hi. */
  lemma FloorBetween(s: int, n: int, lo: int, hi: int)
    requires n > 0 && n * lo <= s <= n * hi
    ensures lo <= s / n <= hi
  {
    var q, r := s / n, s % n;
    assert s == n * q + r;
    MulMonotone(n, q, lo - 1);
    MulMonotone(n, hi + 1, q);
  }

  /** Adding after a wrap-around wraps the same as adding first: 8-bit accumulation
      equals the exact sum reduced mod 256. */
  lemma ModAdd(a: int, b: int)
    ensures (a % 256 + b) % 256 == (a + b) % 256
  {
    var k := a / 256;
    assert a == 256 * k + a % 256;
    ModShift(a % 256 + b, k);
  }

  lemma ModShift(x: int, k: int)
    ensures (x + 256 * k) % 256 == x % 256
  {
    var q, r := x / 256, x % 256;
    assert x + 256 * k == 256 * (q + k) + r;
  }

  /** A quotient of an 8-bit value by d is at most 255 / d. */
  lemma ByteQuotientAtMost(v: int, d: int)
    requires 0 <= v < 256 && d > 0
    ensures 0 <= v / d <= 255 / d
  {
    var q, r := v / d, v % d;
    var Q, R := 255 / d, 255 % d;
    assert v == d * q + r && 255 == d * Q + R;
    MulMonotone(d, Q + 1, q);
  }

  /** A non-negative number's remainder is below the modulus and no larger than the number. */
  lemma ModBelow(x: int, m: int)
    requires x >= 0 && m > 0
    ensures 0 <= x % m < m && x % m <= x
  {
    var q := x / m;
    assert x == m * q + x % m;
    MulMonotone(m, 0, q);
  }

  /** (m * j + t) mod m is t for a residue t: reads taken mod m cycle through the same
      indices in every group of m. */
  lemma CycleIndex(m: nat, j: nat, t: nat)
    requires t < m
    ensures (m * j + t) % m == t
  {
    var q, r := (m * j + t) / m, (m * j + t) % m;
    assert m * j + t == m * q + r;
    assert m * (j - q) == r - t;
    MulMonotone(m, 1, j - q);
    MulMonotone(m, j - q, -1);
  }
}
