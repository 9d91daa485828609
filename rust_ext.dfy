/** `rust_ext/src/lib.rs`: `blend_frames` pushes `frames[i % 10]` into a
    `BoundedVecDeque::new(10)` and, whenever the 0-based iteration `i` is a multiple of 10,
    blends a copy of the deque with `average_deque`, which adds the frames into a zeroed
    1080x1920x3 u8 array (wrapping) and divides by a fixed 10. */
module RustExt {
  import opened Samples
  import opened Window
  import opened Blend
  import opened Runs

  /** The accumulator's hard-coded shape, 1080 x 1920 x 3, flattened. */
  const FrameLen: nat := 1080 * 1920 * 3
  /** `BoundedVecDeque::new(10)`, `i % 10` and `n_frames_u8 = 10`. */
  const Capacity: nat := 10

  /** `Array3::zeros((1080, 1920, 3))`. */
  function Zeros(): (z: Frame)
    ensures IsFrame(z, FrameLen)
  {
    seq(FrameLen, _ => 0)
  }

  /** `average_deque`: every frame is added into the zeroed u8 accumulator, wrapping mod
      256, and the total is divided by 10 whatever the deque's length; a frame of another
      shape makes `+=` panic. No output sample exceeds 25. */
  method AverageDeque(deque: seq<Frame>) returns (r: Result<Frame>)
    ensures r.Err? <==> exists j :: 0 <= j < |deque| && |deque[j]| != FrameLen
    ensures r.Err? ==> r.error == ShapeMismatch
    ensures r.Ok? ==> r.value == WrappedQuotient(deque, FrameLen, Zeros(), Capacity)
    ensures r.Ok? ==> forall p :: 0 <= p < FrameLen ==> 0 <= r.value[p] <= 25
  {
    var total := AccumulateWrapping(deque, FrameLen, Zeros());
    if total.Err? {
      return Err(ShapeMismatch);
    }
    var sums := total.value;
    var blended := seq(FrameLen, p requires 0 <= p < FrameLen => sums[p] / Capacity);
    forall p | 0 <= p < FrameLen ensures 0 <= blended[p] <= 25 {
      WrappedQuotientAtMost(deque, FrameLen, Zeros(), Capacity, p);
    }
    r := Ok(blended);
  }

  /** With one frame in the deque the fixed divisor still is 10: the first trigger yields
      each sample of frames[0] divided by 10, not the frame itself. */
  lemma AverageOfOneFrame(f: Frame)
    requires IsFrame(f, FrameLen)
    ensures WrappedQuotient([f], FrameLen, Zeros(), Capacity) == seq(FrameLen, p requires 0 <= p < FrameLen => f[p] / 10)
  {
    forall p | 0 <= p < FrameLen
      ensures WrappedQuotient([f], FrameLen, Zeros(), Capacity)[p] == f[p] / 10
    {
      assert [f][..0] == [];
      assert ColumnSum([f], FrameLen, p) == f[p];
    }
  }

  /** Ten frames of 255 overflow the u8 accumulator: 2550 wraps to 246, so the blend is 24,
      not 255. */
  lemma AverageOverflows(fs: seq<Frame>, p: nat)
    requires |fs| == 10 && p < FrameLen
    requires forall j :: 0 <= j < 10 ==> |fs[j]| == FrameLen && fs[j][p] == 255
    ensures WrappedQuotient(fs, FrameLen, Zeros(), Capacity)[p] == 24
  {
    ColumnSumBetween(fs, FrameLen, p, 255, 255);
  }

  /** The deque after iteration i of a completed run: the last 10 of the first i + 1 pushed
      frames. The j-th trigger fires at i = 10 * j. */
  function RustWindows(frames: seq<Frame>, k: nat): (ws: seq<seq<Frame>>)
    ensures |ws| == k
  {
    seq(k, j requires 0 <= j < k => Keep(Pushed(frames, Capacity, Capacity * j + 1), Capacity))
  }

  lemma RustWindowsStep(frames: seq<Frame>, k: nat)
    ensures RustWindows(frames, k + 1) == RustWindows(frames, k) + [Keep(Pushed(frames, Capacity, Capacity * k + 1), Capacity)]
  {
  }

  /** Iteration i is a trigger exactly when i % 10 == 0, so ceil((i + 1) / 10) triggers have
      fired after it, and a trigger at i is trigger number ceil(i / 10). */
  lemma RustTriggerStep(i: nat)
    ensures (i + 10) / 10 == (i + 9) / 10 + (if i % 10 == 0 then 1 else 0)
    ensures i % 10 == 0 ==> i == Capacity * ((i + 9) / 10)
  {
  }

  /** The windows in closed form: the first trigger sees only frames[0]; every later one sees
      frames 1..9 followed by frame 0, because iteration 10 * j pushes frames[0] again. */
  lemma RustWindowAt(frames: seq<Frame>, k: nat, j: nat)
    requires j < k && frames != [] && (j > 0 ==> |frames| >= Capacity)
    ensures RustWindows(frames, k)[j] == if j == 0 then [frames[0]] else frames[1..Capacity] + [frames[0]]
  {
    if j == 0 {
      assert Pushed(frames, Capacity, 1) == [frames[0]];
    } else {
      var n := Capacity * j + 1;
      KeepPushed(frames, Capacity, n, Capacity);
      var window, expected := RustWindows(frames, k)[j], frames[1..Capacity] + [frames[0]];
      forall t | 0 <= t < Capacity ensures window[t] == expected[t] {
        if t < 9 {
          assert n - Capacity + t == Capacity * (j - 1) + (t + 1);
          CycleIndex(Capacity, j - 1, t + 1);
        } else {
          assert n - Capacity + t == Capacity * j + 0;
          CycleIndex(Capacity, j, 0);
        }
      }
    }
  }

  /** Each recorded blend is `average_deque` of its window. */
  predicate RustBlendsMatch(windows: seq<seq<Frame>>, blends: seq<Frame>) {
    |blends| == |windows| &&
    forall j :: 0 <= j < |windows| ==> blends[j] == WrappedQuotient(windows[j], FrameLen, Zeros(), Capacity)
  }

  /** `blend_frames`: iteration i indexes `frames[i % 10]` (a panic when that frame does not
      exist), pushes it, and blends a copy of the deque when i % 10 == 0, so ceil(max_iters
      / 10) times. The first blend already panics when the frames do not have the hard-coded
      shape. */
  method BlendFrames(frames: seq<Frame>, w: nat, maxIters: nat) returns (r: Result<Trace>)
    requires AllFrames(frames, w)
    ensures r.Err? <==> maxIters > 0 && (frames == [] || w != FrameLen || |frames| < Min(maxIters, Capacity))
    ensures r.Err? ==> r.error == (if frames != [] && w != FrameLen then ShapeMismatch else IndexError)
    ensures r.Ok? ==> r.value.windows == RustWindows(frames, (maxIters + 9) / 10)
    ensures r.Ok? ==> RustBlendsMatch(r.value.windows, r.value.blends)
    ensures r.Ok? && maxIters > 0 ==>
      r.value.windows[0] == [frames[0]] &&
      r.value.blends[0] == seq(FrameLen, p requires 0 <= p < FrameLen => frames[0][p] / 10)
    ensures r.Ok? ==> forall j :: 1 <= j < |r.value.windows| ==>
      |frames| >= Capacity && r.value.windows[j] == frames[1..Capacity] + [frames[0]]
  {
    var deque := new BoundedDeque<Frame>(Capacity);
    var windows: seq<seq<Frame>> := [];
    var blends: seq<Frame> := [];
    for i := 0 to maxIters
      invariant i > 0 ==> ReadsInRange(frames, Capacity, i) && frames != [] && w == FrameLen
      invariant deque.Valid() && deque.maxlen == Capacity
      invariant deque.items == Keep(Pushed(frames, Capacity, i), Capacity)
      invariant windows == RustWindows(frames, (i + 9) / 10)
      invariant RustBlendsMatch(windows, blends)
    {
      ReadsStep(frames, Capacity, i);
      if i % Capacity >= |frames| {
        return Err(IndexError);
      }
      var frame := frames[i % Capacity];
      DequeStep(frames, Capacity, i, Capacity);
      deque.PushBack(frame);
      RustTriggerStep(i);
      RustWindowsStep(frames, (i + 9) / 10);
      if i % Capacity == 0 {
        var window := deque.Snapshot();
        KeptFrames(frames, w, Capacity, i + 1, Capacity);
        assert window != [] && |window[0]| == w;
        var blended := AverageDeque(window);
        if blended.Err? {
          return Err(ShapeMismatch);
        }
        windows := windows + [window];
        blends := blends + [blended.value];
      }
    }
    r := Ok(Trace(windows, blends));
    if maxIters > 0 {
      RustWindowAt(frames, |windows|, 0);
      AverageOfOneFrame(frames[0]);
    }
    forall j | 1 <= j < |windows| ensures |frames| >= Capacity && windows[j] == frames[1..Capacity] + [frames[0]] {
      RustWindowAt(frames, |windows|, j);
    }
  }
}
