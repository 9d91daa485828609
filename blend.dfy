/** The per-sample blends the scripts compute over a window of frames:
    - `blend_frame_algorithm`: a float64 accumulator that cannot wrap, divided by the window
      length and rounded by `np.rint` (ties to even); a frame whose `+=` raises is skipped;
    - `np.average(q, axis=0).astype(np.uint8)`: the mean, truncated;
    - the "loop" blends: a uint8 accumulator starting from uninitialised memory, wrapping
      mod 256, then divided and truncated.
    Every float step is exact here (a float64 sum of 8-bit samples stays far below 2^53 for
    any number of frames the scripts load), so each blend is stated in integers. */
module Blend {
  import opened Samples

  /** `acc += f` on a float64 array: every position grows by the frame's sample. */
  method AddAssign(acc: array<int>, f: Frame)
    requires acc.Length == |f|
    modifies acc
    ensures forall p :: 0 <= p < acc.Length ==> acc[p] == old(acc[p]) + f[p]
  {
    for p := 0 to acc.Length
      invariant forall k :: 0 <= k < p ==> acc[k] == old(acc[k]) + f[k]
      invariant forall k :: p <= k < acc.Length ==> acc[k] == old(acc[k])
    {
      acc[p] := acc[p] + f[p];
    }
  }

  /** `acc += f` on a uint8 array: every position grows by the frame's sample, mod 256. */
  method AddAssignWrapping(acc: array<int>, f: Frame)
    requires acc.Length == |f|
    modifies acc
    ensures forall p :: 0 <= p < acc.Length ==> acc[p] == (old(acc[p]) + f[p]) % 256
  {
    for p := 0 to acc.Length
      invariant forall k :: 0 <= k < p ==> acc[k] == (old(acc[k]) + f[k]) % 256
      invariant forall k :: p <= k < acc.Length ==> acc[k] == old(acc[k])
    {
      acc[p] := (acc[p] + f[p]) % 256;
    }
  }

  // ---------------------------------------------------------------------------------------
  // blend_frame_algorithm

  /** What `blend_frame_algorithm` returns for a non-empty window: the accumulator has the
      first frame's shape; each sample is the sum over the frames of that shape, divided by
      the number of frames in the window (skipped ones included), rounded to nearest, ties
      to even. */
  function RoundedMean(fs: seq<Frame>): (r: Frame)
    requires fs != []
    ensures |r| == |fs[0]|
  {
    var w := |fs[0]|;
    seq(w, p requires 0 <= p < w => RoundHalfEven(ColumnSum(fs, w, p), |fs|))
  }

  /** `blend_frame_algorithm(frames)`: `frames[0]` on an empty window raises IndexError
      before any division; otherwise a zero float accumulator of the first frame's shape,
      `avgnp += frame` for each frame with failures swallowed, division by `len(frames)`,
      `np.rint`, and a cast to uint8 that is exact because the result stays in 0..255
      (RoundedMeanIsSample). */
  method BlendFrameAlgorithm(frames: seq<Frame>) returns (r: Result<Frame>)
    ensures frames == [] <==> r.Err?
    ensures frames == [] ==> r == Err(IndexError)
    ensures frames != [] ==> r == Ok(RoundedMean(frames))
  {
    var nframes := |frames|;
    if nframes == 0 {
      return Err(IndexError);
    }
    var w := |frames[0]|;
    var avg := new int[w](_ => 0);
    var j := 0;
    while j < nframes
      invariant 0 <= j <= nframes && avg.Length == w
      invariant forall p :: 0 <= p < w ==> avg[p] == ColumnSum(frames[..j], w, p)
    {
      var frame := frames[j];
      assert frames[..j + 1][..j] == frames[..j];
      if |frame| == w {
        AddAssign(avg, frame);
      }
      j := j + 1;
    }
    assert frames[..nframes] == frames;
    var sums := avg[..];
    var blended := seq(w, p requires 0 <= p < w => RoundHalfEven(sums[p], nframes));
    assert blended == RoundedMean(frames);
    r := Ok(blended);
  }

  /** When all frames share one shape, each blended sample lies between the smallest and
      the largest sample at that position. */
  lemma RoundedMeanBetween(fs: seq<Frame>, w: nat, p: nat, lo: int, hi: int)
    requires fs != [] && p < w
    requires forall j :: 0 <= j < |fs| ==> |fs[j]| == w && lo <= fs[j][p] <= hi
    ensures |RoundedMean(fs)| == w && lo <= RoundedMean(fs)[p] <= hi
  {
    ColumnSumBetween(fs, w, p, lo, hi);
    RoundHalfEvenBetween(ColumnSum(fs, w, p), |fs|, lo, hi);
  }

  /** A window whose frames all hold `v` everywhere blends to a frame of `v`. */
  lemma RoundedMeanUniform(fs: seq<Frame>, w: nat, v: int)
    requires fs != []
    requires forall j :: 0 <= j < |fs| ==> |fs[j]| == w && forall p :: 0 <= p < w ==> fs[j][p] == v
    ensures RoundedMean(fs) == seq(w, _ => v)
  {
    forall p | 0 <= p < w ensures RoundedMean(fs)[p] == v {
      RoundedMeanBetween(fs, w, p, v, v);
    }
  }

  /** Whatever the shapes in the window, every blended sample is a valid uint8 value, so
      the final `astype(np.uint8)` never wraps. */
  lemma RoundedMeanIsSample(fs: seq<Frame>)
    requires fs != [] && AllSamples(fs)
    ensures IsFrame(RoundedMean(fs), |fs[0]|)
  {
    var w := |fs[0]|;
    forall p | 0 <= p < w ensures IsSample(RoundedMean(fs)[p]) {
      ColumnSumInRange(fs, w, p);
      RoundHalfEvenBetween(ColumnSum(fs, w, p), |fs|, 0, 255);
    }
  }

  /** A frame whose `+=` fails (its shape differs from the first frame's) adds nothing to
      the sums but still counts in the divisor `nframes`. */
  lemma RoundedMeanSkipsButCounts(fs: seq<Frame>, bad: Frame, p: nat)
    requires fs != [] && p < |fs[0]| && |bad| != |fs[0]|
    ensures |RoundedMean(fs + [bad])| == |fs[0]|
    ensures RoundedMean(fs + [bad])[p] == RoundHalfEven(ColumnSum(fs, |fs[0]|, p), |fs| + 1)
  {
    assert (fs + [bad])[0] == fs[0];
    ColumnSumSkips(fs, bad, |fs[0]|, p);
  }

  /** So a window of one good frame and one failing frame halves the good frame's samples:
      a sample 200 blends to 100. */
  lemma SkippedFrameHalves(good: Frame, bad: Frame, p: nat)
    requires p < |good| && |bad| != |good| && good[p] == 200
    ensures RoundedMean([good, bad])[p] == 100
  {
    RoundedMeanSkipsButCounts([good], bad, p);
    assert [good] + [bad] == [good, bad];
    assert ColumnSum([good], |good|, p) == 200 by {
      assert [good][..0] == [];
    }
  }

  /** A window of 2k frames, k holding 0 and k holding 255 at position p, blends to 128
      there: the exact mean 127.5 is a tie and `np.rint` picks the even neighbour. */
  lemma RoundedMeanAlternating(fs: seq<Frame>, w: nat, p: nat)
    requires |fs| > 0 && |fs| % 2 == 0 && p < w
    requires forall j :: 0 <= j < |fs| ==> |fs[j]| == w && fs[j][p] == (if j % 2 == 0 then 0 else 255)
    ensures |RoundedMean(fs)| == w && RoundedMean(fs)[p] == 128
  {
    var k := |fs| / 2;
    AlternatingSum(fs, w, p, k);
    assert fs[..2 * k] == fs && |fs[0]| == w;
    assert 2 * (2 * k * 128 - 255 * k) == 2 * k;
    RoundHalfEvenUnique(255 * k, 2 * k, 128);
  }

  lemma {:induction false} AlternatingSum(fs: seq<Frame>, w: nat, p: nat, k: nat)
    requires p < w && 2 * k <= |fs|
    requires forall j :: 0 <= j < |fs| ==> |fs[j]| == w && fs[j][p] == (if j % 2 == 0 then 0 else 255)
    ensures ColumnSum(fs[..2 * k], w, p) == 255 * k
  {
    if k > 0 {
      var s := fs[..2 * k];
      AlternatingSum(fs, w, p, k - 1);
      assert s[..2 * k - 1][..2 * k - 2] == fs[..2 * (k - 1)];
      assert s[2 * k - 1] == fs[2 * k - 1] && s[..2 * k - 1][2 * k - 2] == fs[2 * k - 2];
      assert (2 * k - 1) % 2 == 1 && (2 * k - 2) % 2 == 0;
    }
  }

  /** Ties go to the even neighbour, not away from zero: samples 253 and 0 (mean 126.5)
      blend to 126. */
  lemma RoundedMeanTiesToEven()
    ensures RoundedMean([[253], [0]]) == [126]
  {
    var fs: seq<Frame> := [[253], [0]];
    assert fs[..1] == [[253]] && fs[..1][..0] == [];
    assert ColumnSum(fs, 1, 0) == 253;
  }

  // ---------------------------------------------------------------------------------------
  // np.average(q, axis=0).astype(np.uint8)

  /** The per-sample mean of a window of equally shaped frames, truncated toward zero
      (floor, the samples being non-negative). */
  function TruncatedMean(fs: seq<Frame>, w: nat): (r: Frame)
    requires fs != []
    ensures |r| == w
  {
    seq(w, p requires 0 <= p < w => ColumnSum(fs, w, p) / |fs|)
  }

  /** Each truncated mean lies between the smallest and largest sample at its position. */
  lemma TruncatedMeanBetween(fs: seq<Frame>, w: nat, p: nat, lo: int, hi: int)
    requires fs != [] && p < w
    requires forall j :: 0 <= j < |fs| ==> |fs[j]| == w && lo <= fs[j][p] <= hi
    ensures lo <= TruncatedMean(fs, w)[p] <= hi
  {
    ColumnSumBetween(fs, w, p, lo, hi);
    FloorBetween(ColumnSum(fs, w, p), |fs|, lo, hi);
  }

  /** A window of frames that all hold `v` averages to a frame of `v`. */
  lemma TruncatedMeanUniform(fs: seq<Frame>, w: nat, v: int)
    requires fs != []
    requires forall j :: 0 <= j < |fs| ==> |fs[j]| == w && forall p :: 0 <= p < w ==> fs[j][p] == v
    ensures TruncatedMean(fs, w) == seq(w, _ => v)
  {
    forall p | 0 <= p < w ensures TruncatedMean(fs, w)[p] == v {
      TruncatedMeanBetween(fs, w, p, v, v);
    }
  }

  /** Truncation, unlike `np.rint`, rounds 0.5 and above down: frames 0 and 1 average to 0. */
  lemma TruncatedMeanRoundsDown()
    ensures TruncatedMean([[0], [1]], 1) == [0]
  {
    var fs: seq<Frame> := [[0], [1]];
    assert fs[..1] == [[0]] && fs[..1][..0] == [];
    assert ColumnSum(fs, 1, 0) == 1;
  }

  // ---------------------------------------------------------------------------------------
  // The uint8 loop blends

  /** The uint8 loop blend per sample: the accumulator's starting contents plus the column
      sum, wrapped mod 256, divided by `d` and truncated. */
  function WrappedQuotient(fs: seq<Frame>, w: nat, start: Frame, d: nat): (r: Frame)
    requires |start| == w && d > 0
    ensures |r| == w
  {
    seq(w, p requires 0 <= p < w => ((start[p] + ColumnSum(fs, w, p)) % 256) / d)
  }

  /** Whatever the frames and the starting contents, each sample of the loop blend is at
      most 255 / d: 28 for a 9-frame buffer, 25 for Rust's divisor 10. */
  lemma WrappedQuotientAtMost(fs: seq<Frame>, w: nat, start: Frame, d: nat, p: nat)
    requires |start| == w && d > 0 && p < w
    ensures 0 <= WrappedQuotient(fs, w, start, d)[p] <= 255 / d
  {
    ByteQuotientAtMost((start[p] + ColumnSum(fs, w, p)) % 256, d);
  }

  /** The wrap is real: nine frames of 255 over a zeroed accumulator sum to 2295, which
      wraps to 247, so the loop blend gives 27 where the true mean is 255. */
  lemma WrappedQuotientWraps(fs: seq<Frame>, w: nat, p: nat)
    requires |fs| == 9 && p < w
    requires forall j :: 0 <= j < 9 ==> |fs[j]| == w && fs[j][p] == 255
    ensures WrappedQuotient(fs, w, seq(w, _ => 0), 9)[p] == 27
  {
    ColumnSumBetween(fs, w, p, 255, 255);
  }

  /** `for frame in fs: total_frame += frame` on a uint8 accumulator that starts as `start`.
      A frame of another shape makes `+=` fail (NumPy raises, Rust panics); otherwise every
      sample of the result is the starting sample plus the column sum, mod 256. */
  method AccumulateWrapping(fs: seq<Frame>, w: nat, start: Frame) returns (r: Result<seq<int>>)
    requires IsFrame(start, w)
    ensures r.Err? <==> exists j :: 0 <= j < |fs| && |fs[j]| != w
    ensures r.Err? ==> r.error == ShapeMismatch
    ensures r.Ok? ==> |r.value| == w
    ensures r.Ok? ==> forall p :: 0 <= p < w ==> r.value[p] == (start[p] + ColumnSum(fs, w, p)) % 256
  {
    var total := new int[w](p requires 0 <= p < w => start[p]);
    var j := 0;
    while j < |fs|
      invariant 0 <= j <= |fs| && total.Length == w
      invariant forall k :: 0 <= k < j ==> |fs[k]| == w
      invariant forall p :: 0 <= p < w ==> total[p] == (start[p] + ColumnSum(fs[..j], w, p)) % 256
    {
      var frame := fs[j];
      if |frame| != w {
        return Err(ShapeMismatch);
      }
      AddAssignWrapping(total, frame);
      forall p | 0 <= p < w
        ensures total[p] == (start[p] + ColumnSum(fs[..j + 1], w, p)) % 256
      {
        assert fs[..j + 1][..j] == fs[..j];
        ModAdd(start[p] + ColumnSum(fs[..j], w, p), frame[p]);
      }
      j := j + 1;
    }
    assert fs[..|fs|] == fs;
    return Ok(total[..]);
  }

  /** `total_frame = np.empty_like(...)`, `for frame in q: total_frame += frame`,
      `(total_frame / q.shape[0]).astype(np.uint8)`: the loop blend over a non-empty window of
      equally shaped frames, starting from the uninitialised contents `scratch`. */
  method LoopBlend(q: seq<Frame>, w: nat, scratch: Frame) returns (blended: Frame)
    requires q != [] && AllFrames(q, w) && IsFrame(scratch, w)
    ensures blended == WrappedQuotient(q, w, scratch, |q|)
  {
    var total := AccumulateWrapping(q, w, scratch);
    assert total.Ok?;
    var sums := total.value;
    blended := seq(w, p requires 0 <= p < w => sums[p] / |q|);
  }
}
