/** `benchmarks-pypy.py`, and the loops `benchmarks-numba.py` copies from it verbatim: a
    hundred iterations over `frames[i % N_FRAMES]`, blended whenever the push count is a
    multiple of MAX_DEQUE_LEN = 10, so exactly ten triggers per run. The NumPy buffers
    slice `[1:MAX_DEQUE_LEN - 1]` and so keep only nine frames. */
module Pypy {
  import opened Samples
  import opened Blend
  import opened Runs

  const MaxIters: nat := 100
  /** Nine slots: `np.append(q[1:MAX_DEQUE_LEN - 1], [frame])` keeps eight and adds one. */
  const ShiftSlots: nat := MaxDequeLen - 1

  /** The j-th trigger window of a run reading `frames[i % N_FRAMES]` and keeping the last c
      pushes: the frames read by iterations 10 * j + 10 - c .. 10 * j + 9. */
  function ModWindow(frames: seq<Frame>, c: nat, j: nat): (window: seq<Frame>)
    requires frames != [] && c <= MaxDequeLen
    ensures |window| == c
  {
    seq(c, t requires 0 <= t < c => frames[(MaxDequeLen * j + MaxDequeLen - c + t) % |frames|])
  }

  /** The ten windows of a 100-iteration run, in closed form. */
  lemma ModWindows(frames: seq<Frame>, c: nat)
    requires frames != [] && c <= MaxDequeLen
    ensures TriggerWindows(frames, |frames|, c, MaxIters / MaxDequeLen)
         == seq(10, j requires 0 <= j < 10 => ModWindow(frames, c, j))
  {
    forall j | 0 <= j < 10
      ensures TriggerWindows(frames, |frames|, c, MaxIters / MaxDequeLen)[j] == ModWindow(frames, c, j)
    {
      TriggerWindowAt(frames, |frames|, c, MaxIters / MaxDequeLen, j);
    }
  }

  /** `numpy_blend_frames`: each of the ten triggers averages the last nine pushed frames,
      dividing by 9 and truncating; with no frames, `input_frame_idx % N_FRAMES` raises
      ZeroDivisionError on the first iteration. */
  method NumpyBlendFrames(frames: seq<Frame>, w: nat, init: seq<Frame>) returns (r: Result<Trace>)
    requires AllFrames(frames, w) && AllFrames(init, w) && |init| == MaxDequeLen
    ensures r.Err? <==> frames == []
    ensures r.Err? ==> r.error == ZeroDivisionError
    ensures r.Ok? ==> frames != [] && r.value.windows == seq(10, j requires 0 <= j < 10 => ModWindow(frames, ShiftSlots, j))
    ensures r.Ok? ==> r.value.blends == seq(10, j requires 0 <= j < 10 => TruncatedMean(ModWindow(frames, ShiftSlots, j), w))
  {
    r := ShiftRun(frames, w, init, ShiftSlots, |frames|, MaxIters, NumpyAverage, []);
    if r.Ok? {
      ModWindows(frames, ShiftSlots);
    }
  }

  /** `numpy_blend_frames_loop` (and the four `numba_blend_frames_*` copies): at the j-th
      trigger a uint8 accumulator starting from the uninitialised `scratch[j]` adds the nine
      buffered frames, wrapping mod 256, and is divided by 9 and truncated, so no blended
      sample exceeds 28. */
  method NumpyBlendFramesLoop(frames: seq<Frame>, w: nat, init: seq<Frame>, scratch: seq<Frame>)
    returns (r: Result<Trace>)
    requires AllFrames(frames, w) && AllFrames(init, w) && |init| == MaxDequeLen
    requires AllFrames(scratch, w) && |scratch| >= 10
    ensures r.Err? <==> frames == []
    ensures r.Err? ==> r.error == ZeroDivisionError
    ensures r.Ok? ==> frames != [] && r.value.windows == seq(10, j requires 0 <= j < 10 => ModWindow(frames, ShiftSlots, j))
    ensures r.Ok? ==>
      r.value.blends == seq(10, j requires 0 <= j < 10 => WrappedQuotient(ModWindow(frames, ShiftSlots, j), w, scratch[j], 9))
    ensures r.Ok? ==> forall j, p :: 0 <= j < 10 && 0 <= p < w ==> 0 <= r.value.blends[j][p] <= 28
  {
    r := ShiftRun(frames, w, init, ShiftSlots, |frames|, MaxIters, Uint8Loop, scratch);
    if r.Ok? {
      ModWindows(frames, ShiftSlots);
      forall j, p | 0 <= j < 10 && 0 <= p < w ensures 0 <= r.value.blends[j][p] <= 28 {
        WrappedQuotientAtMost(r.value.windows[j], w, scratch[j], 9, p);
      }
    }
  }

  /** `deque_blend_frames`: the j-th trigger blends frames (10 * j + t) mod N_FRAMES for
      t = 0..9, in that order, by `blend_frame_algorithm`. */
  method DequeBlendFrames(frames: seq<Frame>, w: nat) returns (r: Result<Trace>)
    requires AllFrames(frames, w)
    ensures r.Err? <==> frames == []
    ensures r.Err? ==> r.error == ZeroDivisionError
    ensures r.Ok? ==> frames != [] && r.value.windows == seq(10, j requires 0 <= j < 10 => ModWindow(frames, MaxDequeLen, j))
    ensures r.Ok? ==> r.value.blends == seq(10, j requires 0 <= j < 10 => RoundedMean(ModWindow(frames, MaxDequeLen, j)))
  {
    r := DequeRun(frames, w, |frames|, MaxIters);
    if r.Ok? {
      ModWindows(frames, MaxDequeLen);
    }
  }

  /** `deque_blend_frames_multithreading` and `deque_blend_frames_multiprocessing`: one
      result per trigger, in submission order. */
  method DequeBlendFramesPooled(frames: seq<Frame>, w: nat) returns (results: Result<seq<Frame>>)
    requires AllFrames(frames, w)
    ensures results.Err? <==> frames == []
    ensures results.Err? ==> results.error == ZeroDivisionError
    ensures results.Ok? ==>
      frames != [] && results.value == seq(10, j requires 0 <= j < 10 => RoundedMean(ModWindow(frames, MaxDequeLen, j)))
  {
    var r := DequeBlendFrames(frames, w);
    if r.Err? {
      return Err(r.error);
    }
    results := Ok(r.value.blends);
  }

  /** `np.append(q[1:MAX_DEQUE_LEN - 1], [frame])` on the ten-slot `np.empty` buffer: after
      its first push the buffer holds nine frames, and keeps nine after every later push. */
  lemma ShiftBufferStaysNine(init: seq<Frame>, frames: seq<Frame>, m: nat, n: nat)
    requires |init| == MaxDequeLen && n >= 1
    ensures |ShiftBuffer(init, ShiftSlots, frames, m, n)| == ShiftSlots
  {
  }

  /** `benchmark_numpy_average_loop`: a uint8 accumulator starting from the uninitialised
      `start` adds every frame, wrapping mod 256, and is divided by the frame count and
      truncated; with no frames, `frames[0]` raises IndexError. */
  method BenchmarkNumpyAverageLoop(frames: seq<Frame>, w: nat, start: Frame) returns (r: Result<Frame>)
    requires AllFrames(frames, w) && IsFrame(start, w)
    ensures r.Err? <==> frames == []
    ensures r.Err? ==> r.error == IndexError
    ensures r.Ok? ==> r.value == WrappedQuotient(frames, w, start, |frames|)
    ensures r.Ok? ==> forall p :: 0 <= p < w ==> 0 <= r.value[p] <= 255 / |frames|
  {
    if frames == [] {
      return Err(IndexError);
    }
    var blended := LoopBlend(frames, w, start);
    forall p | 0 <= p < w ensures 0 <= blended[p] <= 255 / |frames| {
      WrappedQuotientAtMost(frames, w, start, |frames|, p);
    }
    r := Ok(blended);
  }
}
