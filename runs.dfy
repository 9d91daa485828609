/** The Python driver loops shared by the three scripts. Each runs `max_iters` iterations;
    iteration i reads `frames[i % m]` (m is 10 in one script and `N_FRAMES` in the others),
    bumps `input_frame_idx` to i + 1, pushes the frame into the window, and blends when
    `input_frame_idx % MAX_DEQUE_LEN == 0`, i.e. after pushes 10, 20, 30, ...
    The blended frames are discarded by the scripts; the model returns them, with the window
    each was computed from, in trigger order, so their properties can be stated. */
module Runs {
  import opened Samples
  import opened Window
  import opened Blend

  const MaxDequeLen: nat := 10

  /** What a run computed: the window snapshot at each trigger and its blend, in trigger order. */
  datatype Trace = Trace(windows: seq<seq<Frame>>, blends: seq<Frame>)

  /** The first n iterations can read their frames: m is not zero and every index i % m
      with i < n is below the frame count. */
  predicate ReadsInRange(frames: seq<Frame>, m: nat, n: nat) {
    m > 0 && Min(n, m) <= |frames|
  }

  /** The frame iteration i reads, `frames[i % m]`; the empty frame stands in where that
      read fails, which no completed run reaches. */
  function FrameAt(frames: seq<Frame>, m: nat, i: nat): Frame {
    if m > 0 && i % m < |frames| then frames[i % m] else []
  }

  /** The frames pushed by the first n iterations, in push order. */
  function Pushed(frames: seq<Frame>, m: nat, n: nat): (s: seq<Frame>)
    ensures |s| == n
  {
    seq(n, i requires 0 <= i < n => FrameAt(frames, m, i))
  }

  /** One more iteration pushes one more frame. */
  lemma PushedStep(frames: seq<Frame>, m: nat, n: nat)
    requires m > 0 && n % m < |frames|
    ensures Pushed(frames, m, n + 1) == Pushed(frames, m, n) + [frames[n % m]]
  {
  }

  /** Iteration `n` can read its frame exactly when the first n + 1 iterations all can. */
  lemma ReadsStep(frames: seq<Frame>, m: nat, n: nat)
    requires m > 0 && (n > 0 ==> ReadsInRange(frames, m, n))
    ensures n % m < |frames| <==> ReadsInRange(frames, m, n + 1)
  {
  }

  /** One push into a bounded deque: cutting the window of n pushes plus push n to its last
      c frames gives the window of n + 1 pushes. */
  lemma DequeStep(frames: seq<Frame>, m: nat, n: nat, c: nat)
    requires m > 0 && n % m < |frames|
    ensures Keep(Keep(Pushed(frames, m, n), c) + [frames[n % m]], c) == Keep(Pushed(frames, m, n + 1), c)
  {
    PushedStep(frames, m, n);
    KeepAppend(Pushed(frames, m, n), frames[n % m], c);
  }

  /** Push n + 1 is a trigger exactly when it completes another group of MAX_DEQUE_LEN
      pushes, and then it is push MAX_DEQUE_LEN * (n / MAX_DEQUE_LEN + 1). */
  lemma TriggerStep(n: nat)
    ensures (n + 1) / MaxDequeLen == n / MaxDequeLen + (if (n + 1) % MaxDequeLen == 0 then 1 else 0)
    ensures (n + 1) % MaxDequeLen == 0 ==> n + 1 == MaxDequeLen * (n / MaxDequeLen + 1)
  {
  }

  /** No more triggers fit in fewer pushes. */
  lemma TriggersMonotone(n: nat, maxIters: nat)
    requires n <= maxIters
    ensures n / MaxDequeLen <= maxIters / MaxDequeLen
  {
  }

  /** The last c of n pushed frames, in push order: the frames read by iterations n-c..n-1. */
  lemma KeepPushed(frames: seq<Frame>, m: nat, n: nat, c: nat)
    requires ReadsInRange(frames, m, n) && c <= n
    ensures Keep(Pushed(frames, m, n), c) == seq(c, t requires 0 <= t < c => frames[(n - c + t) % m])
  {
    var a, b := Keep(Pushed(frames, m, n), c), seq(c, t requires 0 <= t < c => frames[(n - c + t) % m]);
    forall t | 0 <= t < c ensures a[t] == b[t] {
      KeepAt(Pushed(frames, m, n), c, t);
      ModBelow(n - c + t, m);
    }
  }

  /** Frames pushed from a readable source are frames of the source's shape, and so are the
      last c of them. */
  lemma KeptFrames(frames: seq<Frame>, w: nat, m: nat, n: nat, c: nat)
    requires AllFrames(frames, w) && ReadsInRange(frames, m, n)
    ensures AllFrames(Keep(Pushed(frames, m, n), c), w)
  {
    var s := Pushed(frames, m, n);
    forall t | 0 <= t < |Keep(s, c)| ensures IsFrame(Keep(s, c)[t], w) {
      KeepAt(s, c, t);
      ModBelow(|s| - |Keep(s, c)| + t, m);
    }
  }

  /** The windows a run has blended after k triggers: the j-th is the last c frames of the
      first MAX_DEQUE_LEN * (j + 1) pushes. */
  function TriggerWindows(frames: seq<Frame>, m: nat, c: nat, k: nat): (ws: seq<seq<Frame>>)
    ensures |ws| == k
  {
    seq(k, j requires 0 <= j < k => Keep(Pushed(frames, m, MaxDequeLen * (j + 1)), c))
  }

  lemma TriggerWindowsStep(frames: seq<Frame>, m: nat, c: nat, k: nat)
    ensures TriggerWindows(frames, m, c, k + 1)
         == TriggerWindows(frames, m, c, k) + [Keep(Pushed(frames, m, MaxDequeLen * (k + 1)), c)]
  {
  }

  /** In closed form, the j-th trigger window holds the frames read by iterations
      10 * (j + 1) - c .. 10 * (j + 1) - 1, in that order. */
  lemma TriggerWindowAt(frames: seq<Frame>, m: nat, c: nat, k: nat, j: nat)
    requires j < k && c <= MaxDequeLen && ReadsInRange(frames, m, MaxDequeLen * k)
    ensures TriggerWindows(frames, m, c, k)[j]
         == seq(c, t requires 0 <= t < c => frames[(MaxDequeLen * (j + 1) - c + t) % m])
  {
    var n := MaxDequeLen * (j + 1);
    MulMonotone(MaxDequeLen, j + 1, k);
    assert ReadsInRange(frames, m, n);
    assert TriggerWindows(frames, m, c, k)[j] == Keep(Pushed(frames, m, n), c);
    KeepPushed(frames, m, n, c);
  }

  /** Each recorded blend is the rounded mean of its non-empty window. */
  predicate DequeBlendsMatch(windows: seq<seq<Frame>>, blends: seq<Frame>) {
    |blends| == |windows| &&
    forall j :: 0 <= j < |windows| ==> windows[j] != [] && blends[j] == RoundedMean(windows[j])
  }

  /** The trigger step of a deque loop: blend the full deque and record its snapshot as
      the next window. */
  method DequeTriggerBlend(frames: seq<Frame>, m: nat, n: nat, window: seq<Frame>,
                           windows: seq<seq<Frame>>, blends: seq<Frame>)
    returns (windows': seq<seq<Frame>>, blends': seq<Frame>)
    requires 0 < n && n % MaxDequeLen == 0
    requires window == Keep(Pushed(frames, m, n), MaxDequeLen)
    requires windows == TriggerWindows(frames, m, MaxDequeLen, n / MaxDequeLen - 1)
    requires DequeBlendsMatch(windows, blends)
    ensures windows' == TriggerWindows(frames, m, MaxDequeLen, n / MaxDequeLen)
    ensures DequeBlendsMatch(windows', blends')
  {
    TriggerWindowsStep(frames, m, MaxDequeLen, n / MaxDequeLen - 1);
    assert n == MaxDequeLen * (n / MaxDequeLen - 1 + 1);
    var blended := BlendFrameAlgorithm(window);
    windows' := windows + [window];
    blends' := blends + [blended.value];
  }

  /** The deque loops (`deque_blend_frames` and its thread- and process-pool twins): a
      `deque(maxlen=MAX_DEQUE_LEN)` and `blend_frame_algorithm` at every trigger. At the
      j-th trigger the deque holds the last 10 of the first 10 * (j + 1) pushed frames, in
      push order, and the blend is their rounded mean. */
  method DequeRun(frames: seq<Frame>, w: nat, m: nat, maxIters: nat) returns (r: Result<Trace>)
    requires AllFrames(frames, w)
    ensures r.Err? <==> maxIters > 0 && !ReadsInRange(frames, m, maxIters)
    ensures r.Err? ==> r.error == (if m == 0 then ZeroDivisionError else IndexError)
    ensures r.Ok? ==> r.value.windows == TriggerWindows(frames, m, MaxDequeLen, maxIters / MaxDequeLen)
    ensures r.Ok? ==> DequeBlendsMatch(r.value.windows, r.value.blends)
  {
    var q := new BoundedDeque<Frame>(MaxDequeLen);
    var windows: seq<seq<Frame>> := [];
    var blends: seq<Frame> := [];
    var inputFrameIdx: nat := 0;
    while inputFrameIdx < maxIters
      invariant inputFrameIdx <= maxIters
      invariant inputFrameIdx > 0 ==> ReadsInRange(frames, m, inputFrameIdx)
      invariant q.Valid() && q.maxlen == MaxDequeLen
      invariant q.items == Keep(Pushed(frames, m, inputFrameIdx), MaxDequeLen)
      invariant windows == TriggerWindows(frames, m, MaxDequeLen, inputFrameIdx / MaxDequeLen)
      invariant DequeBlendsMatch(windows, blends)
    {
      if m == 0 {
        return Err(ZeroDivisionError);
      }
      ReadsStep(frames, m, inputFrameIdx);
      if inputFrameIdx % m >= |frames| {
        return Err(IndexError);
      }
      var frame := frames[inputFrameIdx % m];
      DequeStep(frames, m, inputFrameIdx, MaxDequeLen);
      TriggerStep(inputFrameIdx);
      inputFrameIdx := inputFrameIdx + 1;
      q.PushBack(frame);
      if inputFrameIdx % MaxDequeLen == 0 {
        windows, blends := DequeTriggerBlend(frames, m, inputFrameIdx, q.Snapshot(), windows, blends);
      }
    }
    return Ok(Trace(windows, blends));
  }

  /** How the NumPy shift-buffer loops blend at a trigger: `np.average(...).astype(np.uint8)`
      or the uint8 accumulation loop. */
  datatype Averaging = NumpyAverage | Uint8Loop

  /** The blend a shift-buffer loop computes for a window, the j-th trigger's loop starting
      from the uninitialised contents `scratch[j]`. */
  function ShiftBlend(averaging: Averaging, window: seq<Frame>, w: nat, scratch: seq<Frame>, j: nat): (b: Frame)
    requires window != [] && (averaging == Uint8Loop ==> j < |scratch| && |scratch[j]| == w)
    ensures |b| == w
  {
    match averaging
    case NumpyAverage => TruncatedMean(window, w)
    case Uint8Loop => WrappedQuotient(window, w, scratch[j], |window|)
  }

  /** The blend at the j-th trigger of a shift-buffer loop. */
  method BlendWindow(averaging: Averaging, window: seq<Frame>, w: nat, scratch: seq<Frame>, j: nat)
    returns (blended: Frame)
    requires window != [] && AllFrames(window, w)
    requires averaging == Uint8Loop ==> j < |scratch| && IsFrame(scratch[j], w)
    ensures blended == ShiftBlend(averaging, window, w, scratch, j)
  {
    match averaging
    case NumpyAverage =>
      blended := TruncatedMean(window, w);
    case Uint8Loop =>
      blended := LoopBlend(window, w, scratch[j]);
  }

  /** Each recorded blend is the chosen average of its non-empty window, the j-th starting
      from `scratch[j]` when it is the uint8 loop. */
  predicate ShiftBlendsMatch(averaging: Averaging, windows: seq<seq<Frame>>, blends: seq<Frame>, w: nat,
                             scratch: seq<Frame>)
  {
    |blends| == |windows| &&
    forall j :: 0 <= j < |windows| ==>
      windows[j] != [] && (averaging == Uint8Loop ==> j < |scratch| && |scratch[j]| == w) &&
      blends[j] == ShiftBlend(averaging, windows[j], w, scratch, j)
  }

  /** Recording one more window with its blend keeps every blend matched. */
  lemma ShiftBlendsMatchAppend(averaging: Averaging, windows: seq<seq<Frame>>, blends: seq<Frame>, w: nat,
                               scratch: seq<Frame>, window: seq<Frame>, blended: Frame)
    requires ShiftBlendsMatch(averaging, windows, blends, w, scratch)
    requires window != [] && (averaging == Uint8Loop ==> |windows| < |scratch| && |scratch[|windows|]| == w)
    requires blended == ShiftBlend(averaging, window, w, scratch, |windows|)
    ensures ShiftBlendsMatch(averaging, windows + [window], blends + [blended], w, scratch)
  {
  }

  /** The NumPy buffer after n pushes: `init` before the first push, and afterwards the
      last `hi` of its slots 1..hi-1 followed by the pushed frames. */
  function ShiftBuffer(init: seq<Frame>, hi: nat, frames: seq<Frame>, m: nat, n: nat): seq<Frame>
    requires 1 <= hi <= |init|
  {
    if n == 0 then init else Keep(init[1..hi] + Pushed(frames, m, n), hi)
  }

  /** Push n rebinds the buffer to `np.append(q[1:hi], [frame])`, which is the buffer after
      n + 1 pushes. */
  lemma ShiftStep(init: seq<Frame>, hi: nat, frames: seq<Frame>, m: nat, n: nat)
    requires 1 <= hi <= |init| && m > 0 && n % m < |frames|
    ensures ShiftAppend(ShiftBuffer(init, hi, frames, m, n), hi, frames[n % m])
         == ShiftBuffer(init, hi, frames, m, n + 1)
  {
    var x := frames[n % m];
    PushedStep(frames, m, n);
    if n == 0 {
      ShiftAppendFirst(init, hi, x);
      assert Pushed(frames, m, 1) == [x];
    } else {
      var s := init[1..hi] + Pushed(frames, m, n);
      ShiftAppendFull(Keep(s, hi), hi, x);
      KeepAppend(s, x, hi);
      assert s + [x] == init[1..hi] + Pushed(frames, m, n + 1);
    }
  }

  /** From push `hi` on, none of the uninitialised slots is left: the buffer is the last
      `hi` pushed frames. */
  lemma ShiftBufferFilled(init: seq<Frame>, hi: nat, frames: seq<Frame>, m: nat, n: nat)
    requires 1 <= hi <= |init| && hi <= n
    ensures ShiftBuffer(init, hi, frames, m, n) == Keep(Pushed(frames, m, n), hi)
  {
    KeepSuffix(init[1..hi], Pushed(frames, m, n), hi);
  }

  /** At a trigger the buffer is full of pushed frames: the last `hi` of them. */
  lemma ShiftTrigger(init: seq<Frame>, hi: nat, frames: seq<Frame>, w: nat, m: nat, n: nat, maxIters: nat)
    requires 1 <= hi <= MaxDequeLen == |init|
    requires AllFrames(frames, w) && ReadsInRange(frames, m, n)
    requires 0 < n <= maxIters && n % MaxDequeLen == 0
    ensures 1 <= n / MaxDequeLen <= maxIters / MaxDequeLen
    ensures n == MaxDequeLen * (n / MaxDequeLen - 1 + 1)
    ensures ShiftBuffer(init, hi, frames, m, n) == Keep(Pushed(frames, m, n), hi)
    ensures ShiftBuffer(init, hi, frames, m, n) != []
    ensures AllFrames(ShiftBuffer(init, hi, frames, m, n), w)
  {
    TriggersMonotone(n, maxIters);
    ShiftBufferFilled(init, hi, frames, m, n);
    KeptFrames(frames, w, m, n, hi);
  }

  /** The trigger step of a shift-buffer loop: blend the full buffer and record it as the
      next window. */
  method ShiftTriggerBlend(frames: seq<Frame>, w: nat, init: seq<Frame>, hi: nat, m: nat, n: nat, maxIters: nat,
                           averaging: Averaging, scratch: seq<Frame>,
                           q: seq<Frame>, windows: seq<seq<Frame>>, blends: seq<Frame>)
    returns (windows': seq<seq<Frame>>, blends': seq<Frame>)
    requires 1 <= hi <= MaxDequeLen == |init|
    requires AllFrames(frames, w) && ReadsInRange(frames, m, n)
    requires 0 < n <= maxIters && n % MaxDequeLen == 0
    requires averaging == Uint8Loop ==> AllFrames(scratch, w) && |scratch| >= maxIters / MaxDequeLen
    requires q == ShiftBuffer(init, hi, frames, m, n)
    requires windows == TriggerWindows(frames, m, hi, n / MaxDequeLen - 1)
    requires ShiftBlendsMatch(averaging, windows, blends, w, scratch)
    ensures windows' == TriggerWindows(frames, m, hi, n / MaxDequeLen)
    ensures ShiftBlendsMatch(averaging, windows', blends', w, scratch)
  {
    var j := |windows|;
    ShiftTrigger(init, hi, frames, w, m, n, maxIters);
    assert j == n / MaxDequeLen - 1;
    TriggerWindowsStep(frames, m, hi, j);
    if averaging == Uint8Loop {
      assert IsFrame(scratch[j], w);
    }
    var blended := BlendWindow(averaging, q, w, scratch, j);
    ShiftBlendsMatchAppend(averaging, windows, blends, w, scratch, q, blended);
    windows' := windows + [q];
    blends' := blends + [blended];
  }

  /** The NumPy shift-buffer loops (`numpy_blend_frames`, `numpy_blend_frames_loop` and the
      Numba copies): the buffer starts as `init`, the ten uninitialised frames of `np.empty`,
      and each push rebinds it to `np.append(q[1:hi], [frame], axis=0)`. At every trigger it
      holds exactly the last `hi` pushed frames, no uninitialised slot left, and the blend is
      the chosen average of them. */
  method ShiftRun(frames: seq<Frame>, w: nat, init: seq<Frame>, hi: nat, m: nat, maxIters: nat,
                  averaging: Averaging, scratch: seq<Frame>)
    returns (r: Result<Trace>)
    requires AllFrames(frames, w) && AllFrames(init, w) && |init| == MaxDequeLen
    requires 1 <= hi <= MaxDequeLen
    requires AllFrames(scratch, w) && (averaging == Uint8Loop ==> |scratch| >= maxIters / MaxDequeLen)
    ensures r.Err? <==> maxIters > 0 && !ReadsInRange(frames, m, maxIters)
    ensures r.Err? ==> r.error == (if m == 0 then ZeroDivisionError else IndexError)
    ensures r.Ok? ==> r.value.windows == TriggerWindows(frames, m, hi, maxIters / MaxDequeLen)
    ensures r.Ok? ==> ShiftBlendsMatch(averaging, r.value.windows, r.value.blends, w, scratch)
  {
    var q := init;
    var windows: seq<seq<Frame>> := [];
    var blends: seq<Frame> := [];
    var inputFrameIdx: nat := 0;
    while inputFrameIdx < maxIters
      invariant inputFrameIdx <= maxIters
      invariant inputFrameIdx > 0 ==> ReadsInRange(frames, m, inputFrameIdx)
      invariant q == ShiftBuffer(init, hi, frames, m, inputFrameIdx)
      invariant windows == TriggerWindows(frames, m, hi, inputFrameIdx / MaxDequeLen)
      invariant ShiftBlendsMatch(averaging, windows, blends, w, scratch)
    {
      if m == 0 {
        return Err(ZeroDivisionError);
      }
      ReadsStep(frames, m, inputFrameIdx);
      if inputFrameIdx % m >= |frames| {
        return Err(IndexError);
      }
      var frame := frames[inputFrameIdx % m];
      ShiftStep(init, hi, frames, m, inputFrameIdx);
      TriggerStep(inputFrameIdx);
      q := ShiftAppend(q, hi, frame);
      inputFrameIdx := inputFrameIdx + 1;
      if inputFrameIdx % MaxDequeLen == 0 {
        windows, blends := ShiftTriggerBlend(frames, w, init, hi, m, inputFrameIdx, maxIters, averaging, scratch,
                                             q, windows, blends);
      }
    }
    return Ok(Trace(windows, blends));
  }
}
