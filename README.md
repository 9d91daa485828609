# Sliding-window frame blender

This project models the frame blender that the benchmark scripts implement several times:

- `benchmarks.py`;
- `benchmarks-pypy.py`;
- `benchmarks-numba.py`, whose functions are verbatim copies of the pypy script's NumPy loops;
- the Rust extension `rust_ext/src/lib.rs`.

Every variant reads frames in a fixed cycle and pushes each one into a bounded window. At a fixed cadence it blends the window into one frame. The variants differ as follows:

- **Window**: a `deque(maxlen=10)`, a `BoundedVecDeque::new(10)`, or a NumPy buffer rebuilt by `np.append(q[1:hi], [frame])`. The buffer keeps 10 frames when `hi` is 10 and only 9 when `hi` is `MAX_DEQUE_LEN - 1`.
- **Trigger**: Python blends after the push count becomes a multiple of 10. Rust blends when the 0-based iteration is a multiple of 10.
- **Blend**:
  - a float sum divided by the window length and rounded half to even (`blend_frame_algorithm`);
  - a float mean truncated by `astype(np.uint8)` (`np.average`);
  - a uint8 accumulator that wraps mod 256 from uninitialised contents, divided by the window length and truncated (the "loop" variants);
  - a zeroed u8 accumulator divided by a fixed 10 (Rust `average_deque`).

A frame is flattened to a `seq<int>` of samples in 0..255, and its length stands for its shape. Float arithmetic is modelled exactly in integers:

- a float64 sum of 8-bit samples is an exact integer, since it stays far below 2^53 for any number of frames the scripts load;
- `np.rint(s / n)` is integer round-half-to-even;
- `astype(np.uint8)` of a non-negative mean is floor division.

The uninitialised contents of `np.empty` and `np.empty_like` are parameters whose samples lie in 0..255. The drivers return the trace of every window snapshot and its blend, in trigger order. The scripts compute these blends and then discard them.

Modules:

- `Samples` (`samples.dfy`): frames, errors, column sums and the rounding arithmetic.
- `Window` (`window.dfy`): the window helpers and the `BoundedDeque` class:
  - `Keep` (the last c elements) and Python slicing;
  - the NumPy shift append;
  - `BoundedDeque`, a class whose `PushBack` updates the deque in place.
- `Blend` (`blend.dfy`): the three Python blends. `blend_frame_algorithm` and the uint8 loop are methods with loops, proved against `RoundedMean` and `WrappedQuotient`; `np.average` is the function `TruncatedMean`.
- `Runs` (`runs.dfy`): the two Python driver loops (deque and shift buffer), proved against `TriggerWindows`.
- `Benchmarks` (`benchmarks.dfy`): the `benchmarks.py` entry points. Frames are read mod 10 and `MAX_ITERS` is 1000.
- `Pypy` (`benchmarks_pypy.dfy`): the `benchmarks-pypy.py` entry points, which read frames mod `N_FRAMES` with `MAX_ITERS` = 100. The same members model `benchmarks-numba.py`.
- `RustExt` (`rust_ext.dfy`): `average_deque` and `blend_frames`.

`blend_frame_algorithm` rounds with `np.rint`, half to even, not half away from zero; `Blend.RoundedMeanTiesToEven` pins this down: 253 and 0 blend to 126, not 127.

## Model

| member | source | states |
|---|---|---|
| Samples.ColumnSumBetween | benchmarks.py:41-45 | if sample p of every frame lies in lo..hi, the accumulated column sum lies between \|fs\|*lo and \|fs\|*hi |
| Samples.ColumnSumInRange | benchmarks.py:40-45 | the float accumulator starts at zero and never wraps: a column sum of 8-bit samples lies in 0..255*\|fs\| |
| Samples.ColumnSumSkips | benchmarks.py:42-45 | a frame whose `+=` raises (another shape) leaves every column sum unchanged |
| Samples.RoundHalfEvenNearest | benchmarks.py:46-47 | `np.rint(s / n)` is within half a step of s / n, and even on a tie |
| Samples.RoundHalfEvenUnique | benchmarks.py:46-47 | any integer nearest to s / n that is even on a tie is the rounded value, which pins down `np.rint` |
| Samples.RoundHalfEvenBetween | benchmarks.py:46-47 | a rounded mean of values in lo..hi lies in lo..hi |
| Samples.FloorBetween | benchmarks.py:77 | a truncated (`astype(np.uint8)`) mean of values in lo..hi lies in lo..hi |
| Samples.ModAdd | benchmarks-pypy.py:104-105 | adding into a uint8 accumulator after it has wrapped gives the exact sum reduced mod 256 |
| Samples.ByteQuotientAtMost | benchmarks-pypy.py:106 | a truncated quotient of a uint8 value by d is at most 255 / d |
| Samples.CycleIndex | benchmarks.py:71 | reads taken mod m see index t at iteration m*j + t, in every group of m |
| Window.Keep | benchmarks.py:82 | a window of capacity c after a history s has min(\|s\|, c) frames |
| Window.KeepAt | benchmarks.py:89 | those frames are the most recent ones, in push order |
| Window.KeepAppend | benchmarks.py:89 | appending to a full window and evicting the oldest keeps the same frames as cutting the whole history |
| Window.KeepSuffix | benchmarks.py:75 | once c frames have been pushed, nothing from before them is left in a window of capacity c |
| Window.PySlice | benchmarks.py:75 | Python's `q[lo:hi]` clamps both bounds to the length and yields the empty slice for an empty range |
| Window.ShiftAppend | benchmarks.py:75 | `np.append(q[1:hi], [x])` ends with the new frame x |
| Window.ShiftAppendFull | benchmarks.py:75 | on a buffer of exactly hi frames the shift append is a bounded FIFO push of capacity hi and keeps hi frames |
| Window.ShiftAppendFirst | benchmarks-pypy.py:85-87 | the first push into the 10-slot `np.empty` buffer keeps slots 1..hi-1 and the new frame, so with hi = 9 the buffer drops to 9 frames |
| Window.BoundedDeque.constructor | benchmarks.py:82 | `deque(maxlen=10)` starts empty with the given capacity |
| Window.BoundedDeque.PushBack | benchmarks.py:89 | `append` (and Rust's `push_back`, rust_ext/src/lib.rs line 29) adds at the back and evicts the front when full: the new contents are the last maxlen of the old contents plus x |
| Window.BoundedDeque.Snapshot | rust_ext/src/lib.rs:31 | `deque.to_owned()` is a value copy of at most maxlen frames, and blending it cannot alter the live deque |
| Blend.AddAssign | benchmarks.py:43 | float `avgnp += frame` adds the frame sample by sample, with no wrap |
| Blend.AddAssignWrapping | benchmarks-pypy.py:105 | uint8 `total_frame += frame` adds sample by sample mod 256 |
| Blend.RoundedMean | benchmarks.py:40 | the blend has the shape of `frames[0]` |
| Blend.BlendFrameAlgorithm | benchmarks.py:38-48 | an empty window fails with IndexError at `frames[0]`; otherwise each sample is the column sum (skipping frames whose `+=` fails) divided by `len(frames)` and rounded half to even; the copy in benchmarks-pypy.py, lines 41-51, is identical |
| Blend.RoundedMeanBetween | benchmarks.py:38-48 | each blended sample lies between the minimum and maximum input sample at that position |
| Blend.RoundedMeanUniform | benchmarks.py:38-48 | a window of identical frames of value v blends to v |
| Blend.RoundedMeanIsSample | benchmarks.py:38-48 | the blend of 8-bit frames is an 8-bit frame, so `astype(np.uint8)` never wraps |
| Blend.RoundedMeanSkipsButCounts | benchmarks.py:39-46 | a frame whose `+=` fails adds nothing to the sum but still counts in `nframes` |
| Blend.SkippedFrameHalves | benchmarks.py:39-46 | a sample of 200 beside one skipped frame blends to 100 |
| Blend.RoundedMeanAlternating | benchmarks.py:46-47 | an even window alternating 0 and 255 blends to 128, its 127.5 tie rounded to the even neighbour |
| Blend.RoundedMeanTiesToEven | benchmarks.py:47 | 253 and 0 blend to 126 (126.5 rounds to even), not 127 |
| Blend.TruncatedMean | benchmarks.py:77 | `np.average(q, axis=0).astype(np.uint8)` has the frames' shape |
| Blend.TruncatedMeanBetween | benchmarks.py:77 | each truncated mean sample lies between the minimum and maximum input sample |
| Blend.TruncatedMeanUniform | benchmarks.py:77 | identical frames of value v average to v |
| Blend.TruncatedMeanRoundsDown | benchmarks.py:77 | `astype` truncates: 0 and 1 average to 0 |
| Blend.WrappedQuotient | benchmarks-pypy.py:103-106 | the loop blend has the frames' shape |
| Blend.WrappedQuotientAtMost | benchmarks-pypy.py:103-106 | a wrapped uint8 total divided by d and truncated is at most 255 / d |
| Blend.WrappedQuotientWraps | benchmarks-pypy.py:103-106 | nine frames of 255 over a zero accumulator wrap 2295 to 247 and blend to 27, not 255 |
| Blend.AccumulateWrapping | benchmarks-pypy.py:103-105 | summing into a uint8 accumulator from `start` gives (start + column sum) mod 256 per sample; a frame of another shape is a shape error |
| Blend.LoopBlend | benchmarks-pypy.py:103-106 | the loop blend of a window is its wrapped total divided by the window length and truncated |
| Runs.Pushed | benchmarks.py:70-75 | n iterations push n frames |
| Runs.PushedStep | benchmarks-numba.py:56-60 | push k reads `frames[(k-1) % N_FRAMES]` and appends it, in every variant |
| Runs.ReadsStep | benchmarks-pypy.py:114 | iteration n reads a frame that exists exactly when the first n+1 reads are all in range |
| Runs.DequeStep | benchmarks.py:89 | one deque append turns the window of n pushes into the window of n+1 pushes |
| Runs.TriggerStep | benchmarks.py:74-76 | push n+1 triggers exactly when it completes another 10 pushes, and then it is push 10*(number of triggers) |
| Runs.KeepPushed | benchmarks-pypy.py:113-118 | the last c of n pushed frames are `frames[(n-c+t) % N_FRAMES]` for t = 0..c-1, in order |
| Runs.TriggerWindows | benchmarks.py:84-91 | a run whose counter reaches k*10 has k trigger windows |
| Runs.TriggerWindowsStep | benchmarks.py:90-91 | one more trigger appends one window |
| Runs.TriggerWindowAt | benchmarks-pypy.py:113-120 | the j-th trigger window is `frames[(10*(j+1)-c+t) % m]` for t = 0..c-1 |
| Runs.DequeTriggerBlend | benchmarks.py:90-91 | at a trigger the deque's snapshot is recorded with its `blend_frame_algorithm` blend |
| Runs.DequeRun | benchmarks-pypy.py:109-120 | the deque loop fails (modulus 0 or a missing index) iff some iteration cannot read its frame; otherwise its windows are the last 10 of each 10*(j+1) pushes, and each blend is their rounded mean |
| Runs.ShiftBlend | benchmarks-pypy.py:88-89 | a shift-buffer blend has the frames' shape |
| Runs.BlendWindow | benchmarks-numba.py:61-65 | the trigger blend is `np.average(...).astype` or the uint8 loop from that trigger's uninitialised accumulator |
| Runs.ShiftStep | benchmarks.py:75 | one `np.append(q[1:hi], [frame])` turns the buffer of n pushes into the buffer of n+1 pushes |
| Runs.ShiftBufferFilled | benchmarks.py:75-77 | from push hi on, the buffer is exactly the last hi pushed frames, with no uninitialised slot left |
| Runs.ShiftTrigger | benchmarks-numba.py:43-48 | at a trigger the buffer is non-empty, holds only source frames, and is the last hi pushes |
| Runs.ShiftTriggerBlend | benchmarks-pypy.py:88-89 | at a trigger the buffer is recorded with its blend |
| Runs.ShiftRun | benchmarks-pypy.py:76-89 | the shift-buffer loop fails iff some read is out of range; otherwise its windows are the last hi of each 10*(j+1) pushes, each blended as chosen |
| Benchmarks.WindowIsFirstTen | benchmarks.py:85-91 | with indices mod 10, every trigger window is frames 0..9 in order |
| Benchmarks.AllWindowsFirstTen | benchmarks.py:84-91 | all MAX_ITERS/10 = 100 trigger windows are frames 0..9 |
| Benchmarks.FillFramesDq | benchmarks.py:21-23 | `frames_dq` ends up holding the last min(N, 10) loaded frames, in load order |
| Benchmarks.DequeBlendFrames | benchmarks.py:80-91 | IndexError iff fewer than 10 frames; otherwise 100 windows equal to frames 0..9, each blended by `blend_frame_algorithm` |
| Benchmarks.DequeBlendFramesPooled | benchmarks.py:94-129 | the thread-pool and process-pool loops yield one result per trigger in submission order: 100 rounded means of frames 0..9 |
| Benchmarks.NumpyBlendFrames | benchmarks.py:66-77 | IndexError iff fewer than 10 frames; otherwise all 100 triggers see frames 0..9 (no uninitialised slot) and blend by truncated average |
| Benchmarks.ShiftBufferStaysFull | benchmarks.py:75 | the 10-slot buffer holds 10 frames after every push |
| Pypy.ShiftBufferStaysNine | benchmarks-pypy.py:85-87 | the buffer, allocated with 10 slots, holds 9 frames after every push, because the slice `[1:MAX_DEQUE_LEN - 1]` keeps 8; benchmarks-numba.py lines 44-46 are the same |
| Pypy.ModWindow | benchmarks-pypy.py:114-120 | a trigger window keeping c frames has c frames |
| Pypy.ModWindows | benchmarks-pypy.py:24-25 | with MAX_ITERS = 100 each windowed loop triggers exactly 10 times, window j being `frames[(10*j+10-c+t) % N_FRAMES]` |
| Pypy.NumpyBlendFrames | benchmarks-pypy.py:76-89 | ZeroDivisionError iff no frames; otherwise 10 windows of the last 9 pushed frames, `frames[(10*j+1+t) % N_FRAMES]`, each averaged and truncated (divided by 9); benchmarks-numba.py, lines 35-48, is a verbatim copy |
| Pypy.NumpyBlendFramesLoop | benchmarks-pypy.py:92-106 | 10 windows of the last 9 pushes; each blend is the uint8 total from arbitrary contents, wrapped mod 256, divided by 9 and truncated, so every sample is at most 28; the five loop bodies of benchmarks-numba.py (lines 51-65, 68-83, 85-100, 102-117, 119-134) are verbatim copies |
| Pypy.DequeBlendFrames | benchmarks-pypy.py:109-120 | ZeroDivisionError iff no frames; otherwise window j is `frames[(10*j+t) % N_FRAMES]` for t = 0..9, blended by `blend_frame_algorithm` |
| Pypy.DequeBlendFramesPooled | benchmarks-pypy.py:123-158 | the thread-pool and process-pool loops yield the 10 blends in submission order |
| Pypy.BenchmarkNumpyAverageLoop | benchmarks-pypy.py:58-63 | IndexError iff no frames; otherwise the uint8 total of all frames from arbitrary contents, wrapped mod 256, divided by the frame count and truncated |
| RustExt.Zeros | rust_ext/src/lib.rs:16 | the accumulator starts as a zero frame of the hard-coded shape |
| RustExt.AverageDeque | rust_ext/src/lib.rs:14-22 | a frame of another shape panics; otherwise each sample is the zero-based u8 total, wrapped mod 256, divided by the fixed 10, hence at most 25 |
| RustExt.AverageOfOneFrame | rust_ext/src/lib.rs:15-21 | a one-frame deque still divides by 10: the blend is frames[0]/10, not frames[0] |
| RustExt.AverageOverflows | rust_ext/src/lib.rs:16-21 | ten frames of 255 overflow to 246 and blend to 24 |
| RustExt.RustWindows | rust_ext/src/lib.rs:27-31 | a run with k triggers has k windows |
| RustExt.RustTriggerStep | rust_ext/src/lib.rs:27-30 | iteration i triggers iff i % 10 == 0, so max_iters iterations give ceil(max_iters/10) triggers |
| RustExt.RustWindowAt | rust_ext/src/lib.rs:27-31 | the first trigger window is [frames[0]]; every later one is frames 1..9 then frame 0 |
| RustExt.BlendFrames | rust_ext/src/lib.rs:24-34 | a panic iff max_iters > 0 and frames are missing or have another shape; otherwise ceil(max_iters/10) windows in closed form, each blended by `average_deque`; the first blend is frames[0]/10 |

## Left out

- Image loading (`os.listdir`, `PIL.Image.open`, `np.array` of the images) is file I/O. The loaded frames are a parameter of every entry point.
- The `timeit` decorator, its prints and the `__main__` blocks are timing instrumentation only.
- `benchmark_numpy_average`, `benchmark_blend_frame_algorithm` and `benchmark_rust_average` are one-line timing wrappers. The first two call what `Blend.TruncatedMean` and `Blend.BlendFrameAlgorithm` model. The third calls the Rust `average`.
- Thread and process pools, futures and pickling are not modelled. Each `with` block shuts its pool down before the next push, so the pooled loops are modelled as inline blends collected in trigger order.
- Numba's `@jit` options (`nopython`, `fastmath`, `parallel`) are compiler behaviour. The loop bodies they decorate are the plain NumPy ones.
- The Rust `average` function is a one-line call to ndarray's `mean_axis`, whose u8 semantics live in a library outside this model.
- The pyo3 `#[pymodule]`/`#[pyfn]` registration glue is not modelled.
- The pypy script calls `rust_ext.blend_frames` with three arguments against the two-argument binding. That is a foreign-call error outside the blend logic.
- Floating point as such is not modelled: sums and quotients are exact integers, as described above.
- NumPy broadcasting and the concrete 1080x1920x3 shape are not modelled on the Python side. A frame whose length differs from the window's is a shape mismatch: skipped in `blend_frame_algorithm`, and a panic in Rust. A broadcastable but different shape is not told apart.
- A frame with the same number of samples but another shape (say 1920x1080x3) counts as matching, because a frame's shape is its flattened length. In the code NumPy's `+=` raises on it, so `blend_frame_algorithm` skips it, and ndarray's `+=` panics in `average_deque`.
- `reshape((1, 1080, 1920, 3))` in the loop variants is taken to succeed: those entry points require frames of one shape.
- The `if frame is None: break` checks are not modelled. Indexing a NumPy array never yields `None`.
- Rust's u8 `+=` is modelled as wrapping, the release-build behaviour. The debug-build overflow panic is not modelled.
- `n_frames` in Rust `blend_frames` is computed but unused, and the function returns nothing. The model's trace of windows and blends is extra output, and so are the Python loops' discarded `blended_frame` values.
- `Runs.FrameAt` gives an empty frame where a read fails. No completed run reaches such a read.
