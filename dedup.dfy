/** The duplicate-frame gate of video.c: `detect_duplicate_frames` and the
    history bookkeeping in `processing_thread`. */
module Dedup {
  import opened Support
  import opened Frames

  /** Capacity of the `dedup_frames` array. */
  const HistoryCapacity: nat := 16

  function Abs(d: int): nat { if d < 0 then -d else d }

  /** Sum of |a - b| over the first n luma samples of row y. */
  function RowDiff(a: Frame, b: Frame, y: nat, n: nat): nat
  {
    if n == 0 then 0
    else RowDiff(a, b, y, n - 1) + Abs((Sample(a, Y, n - 1, y) as int) - (Sample(b, Y, n - 1, y) as int))
  }

  /** Sum of |a - b| over the luma samples of the first m rows of width w. */
  function FrameDiff(a: Frame, b: Frame, w: nat, m: nat): nat
  {
    if m == 0 then 0 else FrameDiff(a, b, w, m - 1) + RowDiff(a, b, m - 1, w)
  }

  /** A frame whose planes can be read at its own width and height. */
  ghost predicate WellFormed(f: Frame)
  {
    Covers(f, f.width, f.height)
  }

  /** What `detect_duplicate_frames(a, b, threshold)` answers: both luma planes
      present, equal dimensions, and a mean absolute luma difference below
      threshold * 255. A zero-area frame gives 0 / 0, a NaN, which compares
      false. */
  predicate IsDuplicate(a: Frame, b: Frame, threshold: real)
  {
    a.luma.Some? && b.luma.Some? &&
    a.width == b.width && a.height == b.height &&
    a.width * a.height > 0 &&
    (FrameDiff(a, b, a.width, a.height) as real) / ((a.width * a.height) as real) < threshold * 255.0
  }

  /** `detect_duplicate_frames`: the two nested loops accumulate `diff_sum`,
      then the mean is compared with the threshold. */
  method DetectDuplicateFrames(a: Frame, b: Frame, threshold: real) returns (dup: bool)
    requires WellFormed(a) && WellFormed(b)
    ensures dup == IsDuplicate(a, b, threshold)
  {
    if a.luma.None? || b.luma.None? {
      return false;
    }
    var width, height := a.width, a.height;
    if width != b.width || height != b.height {
      return false;
    }
    var diffSum: nat := 0;
    var totalPixels := width * height;
    var pa, pb := a.luma.value, b.luma.value;
    var y := 0;
    while y < height
      invariant 0 <= y <= height
      invariant diffSum == FrameDiff(a, b, width, y)
    {
      var x := 0;
      while x < width
        invariant 0 <= x <= width
        invariant diffSum == FrameDiff(a, b, width, y) + RowDiff(a, b, y, x)
      {
        diffSum := diffSum + Abs((pa[y][x] as int) - (pb[y][x] as int));
        x := x + 1;
      }
      y := y + 1;
    }
    if totalPixels == 0 {
      return false;
    }
    dup := (diffSum as real) / (totalPixels as real) < threshold * 255.0;
  }

  lemma {:induction false} RowDiffSymmetric(a: Frame, b: Frame, y: nat, n: nat)
    ensures RowDiff(a, b, y, n) == RowDiff(b, a, y, n)
  {
    if n > 0 {
      RowDiffSymmetric(a, b, y, n - 1);
    }
  }

  lemma {:induction false} FrameDiffSymmetric(a: Frame, b: Frame, w: nat, m: nat)
    ensures FrameDiff(a, b, w, m) == FrameDiff(b, a, w, m)
  {
    if m > 0 {
      FrameDiffSymmetric(a, b, w, m - 1);
      RowDiffSymmetric(a, b, m - 1, w);
    }
  }

  /** The duplicate test does not depend on the order of its two frames. */
  lemma DuplicateIsSymmetric(a: Frame, b: Frame, threshold: real)
    ensures IsDuplicate(a, b, threshold) == IsDuplicate(b, a, threshold)
  {
    FrameDiffSymmetric(a, b, a.width, a.height);
  }

  lemma {:induction false} FrameDiffOfSelf(f: Frame, w: nat, m: nat)
    ensures FrameDiff(f, f, w, m) == 0
  {
    if m > 0 {
      FrameDiffOfSelf(f, w, m - 1);
      RowDiffOfSelf(f, m - 1, w);
    }
  }

  lemma {:induction false} RowDiffOfSelf(f: Frame, y: nat, n: nat)
    ensures RowDiff(f, f, y, n) == 0
  {
    if n > 0 {
      RowDiffOfSelf(f, y, n - 1);
    }
  }

  /** A bit-identical frame is a duplicate exactly when the threshold is
      positive: the mean difference is 0, and 0 < 0 is false, so threshold 0
      never drops anything. */
  lemma IdenticalFramesAreDuplicatesIffPositiveThreshold(f: Frame, threshold: real)
    requires f.luma.Some? && f.width * f.height > 0
    ensures IsDuplicate(f, f, threshold) <==> threshold > 0.0
  {
    FrameDiffOfSelf(f, f.width, f.height);
    assert (0 as real) / ((f.width * f.height) as real) == 0.0;
  }

  /** The comparison loop of the gate: `for (i = 0; i < dedup_count && i <
      deduplicate_range; i++)`, oldest entry first, stopping at the first
      history entry the frame duplicates. */
  method FindDuplicate(history: seq<Frame>, f: Frame, range: int, threshold: real) returns (dup: bool)
    requires WellFormed(f) && forall i | 0 <= i < |history| :: WellFormed(history[i])
    ensures dup <==> exists i | 0 <= i < |history| && i < range :: IsDuplicate(f, history[i], threshold)
  {
    var i := 0;
    while i < |history| && i < range
      invariant 0 <= i <= |history|
      invariant forall j | 0 <= j < i :: !IsDuplicate(f, history[j], threshold)
    {
      dup := DetectDuplicateFrames(f, history[i], threshold);
      if dup {
        return true;
      }
      i := i + 1;
    }
    return false;
  }

  /** The gate as written (video.c): the history is consulted and extended
      only when deduplication is on AND the history is already non-empty; a
      non-duplicate is appended while fewer than 16 entries are held, and
      nothing is ever evicted. */
  method DedupGate(enabled: bool, history: seq<Frame>, f: Frame, range: int, threshold: real)
    returns (dup: bool, newHistory: seq<Frame>)
    requires |history| <= HistoryCapacity
    requires WellFormed(f) && forall i | 0 <= i < |history| :: WellFormed(history[i])
    ensures !(enabled && |history| > 0) ==> !dup && newHistory == history
    ensures enabled && |history| > 0 ==>
      (dup <==> exists i | 0 <= i < |history| && i < range :: IsDuplicate(f, history[i], threshold))
    ensures newHistory == (if enabled && |history| > 0 && !dup && |history| < HistoryCapacity
                           then history + [f] else history)
    ensures |newHistory| <= HistoryCapacity
    ensures GateRun(enabled, history, [f], range, threshold) == (newHistory, if dup then 1 else 0)
  {
    dup, newHistory := false, history;
    if enabled && |history| > 0 {
      var copy := f;
      dup := FindDuplicate(history, copy, range, threshold);
      if !dup && |history| < HistoryCapacity {
        newHistory := history + [copy];
      }
    }
  }

  /** Starting from the empty history `processing_thread` starts with, the
      gate never drops a frame and the history stays empty, whatever the
      configuration and the frames. */
  lemma {:induction false} GateNeverFires(enabled: bool, frames: seq<Frame>, range: int, threshold: real)
    ensures GateRun(enabled, [], frames, range, threshold) == ([], 0)
  {
    if |frames| > 0 {
      GateNeverFires(enabled, frames[..|frames| - 1], range, threshold);
    }
  }

  /** The history and the number of dropped frames after the gate has seen
      `frames` in order, starting from `history`: the contract of
      `DedupGate` replayed frame by frame, which `GateNeverFires` is proved
      about. */
  ghost function GateRun(enabled: bool, history: seq<Frame>, frames: seq<Frame>, range: int, threshold: real): (seq<Frame>, nat)
  {
    if |frames| == 0 then (history, 0)
    else
      var (h, dropped) := GateRun(enabled, history, frames[..|frames| - 1], range, threshold);
      var f := frames[|frames| - 1];
      var consulted := enabled && |h| > 0;
      var dup := consulted && exists i | 0 <= i < |h| && i < range :: IsDuplicate(f, h[i], threshold);
      var h' := if consulted && !dup && |h| < HistoryCapacity then h + [f] else h;
      (h', if dup then dropped + 1 else dropped)
  }
}
