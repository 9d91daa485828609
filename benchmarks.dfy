/** `benchmarks.py`: a thousand iterations over `frames[i % 10]`, blended every tenth push,
    through a `deque(maxlen=10)` and `blend_frame_algorithm`, or through the ten-slot NumPy
    shift buffer and `np.average(...).astype(np.uint8)`. Since the index is taken mod 10,
    every window these loops blend is the first ten frames. */
module Benchmarks {
  import opened Samples
  import opened Window
  import opened Blend
  import opened Runs

  const MaxIters: nat := 1000
  /** The fixed modulus `input_frame_idx % 10` and the buffer slice `[1:10]`. */
  const Slots: nat := 10

  /** With indices taken mod 10, the j-th trigger window of any run is frames 0..9. */
  lemma WindowIsFirstTen(frames: seq<Frame>, k: nat, j: nat)
    requires j < k && |frames| >= Slots
    ensures TriggerWindows(frames, Slots, Slots, k)[j] == frames[..Slots]
  {
    TriggerWindowAt(frames, Slots, Slots, k, j);
    var window := TriggerWindows(frames, Slots, Slots, k)[j];
    forall t | 0 <= t < Slots ensures window[t] == frames[t] {
      assert MaxDequeLen * (j + 1) - Slots + t == Slots * j + t;
      CycleIndex(Slots, j, t);
    }
  }

  /** All 100 trigger windows of a 1000-iteration run are frames 0..9. */
  lemma AllWindowsFirstTen(frames: seq<Frame>)
    requires |frames| >= Slots
    ensures TriggerWindows(frames, Slots, Slots, MaxIters / MaxDequeLen) == seq(100, _ => frames[..Slots])
  {
    forall j | 0 <= j < 100
      ensures TriggerWindows(frames, Slots, Slots, MaxIters / MaxDequeLen)[j] == frames[..Slots]
    {
      WindowIsFirstTen(frames, MaxIters / MaxDequeLen, j);
    }
  }

  /** The module-level fill of `frames_dq`: every loaded frame is appended to a
      `deque(maxlen=10)`, which ends up holding the last min(N, 10) frames in load order. */
  method FillFramesDq(frames: seq<Frame>) returns (framesDq: seq<Frame>)
    ensures |framesDq| == Min(|frames|, 10)
    ensures framesDq == frames[|frames| - |framesDq|..]
  {
    var dq := new BoundedDeque<Frame>(10);
    for i := 0 to |frames|
      invariant dq.Valid() && dq.maxlen == 10
      invariant dq.items == Keep(frames[..i], 10)
    {
      KeepAppend(frames[..i], frames[i], 10);
      assert frames[..i] + [frames[i]] == frames[..i + 1];
      dq.PushBack(frames[i]);
    }
    assert frames[..|frames|] == frames;
    framesDq := dq.Snapshot();
  }

  /** `deque_blend_frames`: with ten or more frames, all 100 triggers blend frames 0..9 by
      `blend_frame_algorithm`; with fewer, `frames[input_frame_idx % 10]` raises IndexError
      on the first missing index. */
  method DequeBlendFrames(frames: seq<Frame>, w: nat) returns (r: Result<Trace>)
    requires AllFrames(frames, w)
    ensures r.Err? <==> |frames| < Slots
    ensures r.Err? ==> r.error == IndexError
    ensures r.Ok? ==> r.value.windows == seq(100, _ => frames[..Slots])
    ensures r.Ok? ==> r.value.blends == seq(100, _ => RoundedMean(frames[..Slots]))
  {
    r := DequeRun(frames, w, Slots, MaxIters);
    if r.Ok? {
      AllWindowsFirstTen(frames);
    }
  }

  /** `deque_blend_frames_multithreading` and `deque_blend_frames_multiprocessing`: each
      `with` block waits for its pool before the next push, so every submitted blend sees
      the window of its trigger, and `results` lists the blends in submission order. */
  method DequeBlendFramesPooled(frames: seq<Frame>, w: nat) returns (results: Result<seq<Frame>>)
    requires AllFrames(frames, w)
    ensures results.Err? <==> |frames| < Slots
    ensures results.Err? ==> results.error == IndexError
    ensures results.Ok? ==> results.value == seq(100, _ => RoundedMean(frames[..Slots]))
  {
    var r := DequeRun(frames, w, Slots, MaxIters);
    if r.Err? {
      return Err(r.error);
    }
    AllWindowsFirstTen(frames);
    results := Ok(r.value.blends);
  }

  /** `numpy_blend_frames`: the ten-slot buffer starts as the uninitialised `init`; from the
      tenth push on it holds only pushed frames, so all 100 triggers average frames 0..9 and
      truncate (`astype` without `rint`). */
  method NumpyBlendFrames(frames: seq<Frame>, w: nat, init: seq<Frame>) returns (r: Result<Trace>)
    requires AllFrames(frames, w) && AllFrames(init, w) && |init| == Slots
    ensures r.Err? <==> |frames| < Slots
    ensures r.Err? ==> r.error == IndexError
    ensures r.Ok? ==> r.value.windows == seq(100, _ => frames[..Slots])
    ensures r.Ok? ==> r.value.blends == seq(100, _ => TruncatedMean(frames[..Slots], w))
  {
    r := ShiftRun(frames, w, init, Slots, Slots, MaxIters, NumpyAverage, []);
    if r.Ok? {
      AllWindowsFirstTen(frames);
    }
  }

  /** After its first push the ten-slot buffer always has ten frames. */
  lemma ShiftBufferStaysFull(init: seq<Frame>, frames: seq<Frame>, n: nat)
    requires |init| == Slots && n >= 1
    ensures |ShiftBuffer(init, Slots, frames, Slots, n)| == Slots
  {
  }
}
