/** `processing_thread` (video.c): pop decoded frames until the queue is
    drained or the run is interrupted, pass each through the deduplication
    gate, put it into the blur window and, once the window holds K frames,
    blend them with the K weights. Encoding and writing the blended frames
    are I/O; the model returns the blended frames in the order they are sent
    to the encoder, and the values `update_progress` is called with. */
module Processing {
  import opened Support
  import opened Frames
  import FrameQueue
  import Dedup
  import BlendWindow
  import MotionBlur
  import Weights
  import Config

  /** The frames sent to the encoder when `frames` pass through a window of
      k slots: for every frame from the k-th on, one blend of the k most
      recent frames, so the j-th blend is of frames j to j + k - 1. */
  ghost function Blends(frames: seq<Frame>, weights: seq<real>, k: nat): (b: seq<Frame>)
    requires 0 < k <= |weights|
    ensures |b| == Max(0, |frames| - k + 1)
  {
    seq(Max(0, |frames| - k + 1), j requires 0 <= j < Max(0, |frames| - k + 1) => Blend(frames[j..j + k], weights))
  }

  /** One more frame adds one blend, of the k frames ending with it, once
      at least k frames have been seen; the blends already sent are kept
      as they were. */
  lemma BlendsGrow(input: seq<Frame>, n: nat, weights: seq<real>, k: nat)
    requires n < |input| && 0 < k <= |weights|
    ensures Blends(input[..n + 1], weights, k) ==
      Blends(input[..n], weights, k) + (if n + 1 >= k then [Blend(input[n + 1 - k..n + 1], weights)] else [])
  {
    var before, after := Blends(input[..n], weights, k), Blends(input[..n + 1], weights, k);
    var added := if n + 1 >= k then [Blend(input[n + 1 - k..n + 1], weights)] else [];
    forall j | 0 <= j < |after|
      ensures after[j] == (before + added)[j]
    {
      assert input[..n + 1][j..j + k] == input[j..j + k];
      if j < |before| {
        assert input[..n][j..j + k] == input[j..j + k];
      }
    }
  }

  /** The values `update_progress` has been called with after n processed
      frames: every multiple of 30 up to n. */
  ghost function Progress(n: nat): seq<nat>
  {
    if n == 0 then [] else Progress(n - 1) + (if n % 30 == 0 then [n] else [])
  }

  /** Progress is reported n / 30 times, the j-th time at 30 * (j + 1). */
  lemma {:induction false} ProgressEveryThirtyFrames(n: nat)
    ensures |Progress(n)| == n / 30
    ensures forall j | 0 <= j < |Progress(n)| :: Progress(n)[j] == 30 * (j + 1)
  {
    if n > 0 {
      ProgressEveryThirtyFrames(n - 1);
    }
  }

  /** Whether every frame is a w-by-h frame whose planes cover that size. */
  ghost predicate Uniform(frames: seq<Frame>, w: nat, h: nat)
  {
    forall i | 0 <= i < |frames| :: frames[i].width == w && frames[i].height == h && Covers(frames[i], w, h)
  }

  /** One frame through the blur window: input[n] is copied into the ring,
      and once the ring holds K frames they are reordered oldest first and
      blended with the weights. f is input[n]; the ring has seen input[..n]. */
  method BlurStep(window: BlendWindow.Window, f: Frame, weights: seq<real>, previous: Frame,
                  ghost input: seq<Frame>, n: nat, ghost w: nat, ghost h: nat)
    returns (blended: bool, output: Frame)
    requires n < |input| && f == input[n] && Uniform(input, w, h)
    requires window.Valid() && window.slots.Length == |weights| && window.History == input[..n]
    modifies window, window.slots
    ensures window.Valid() && window.slots == old(window.slots) && window.History == input[..n + 1]
    ensures blended <==> n + 1 >= |weights|
    ensures blended ==> output == Blend(input[n + 1 - |weights|..n + 1], weights)
    ensures !blended ==> output == previous
  {
    var k := |weights|;
    window.Accept(f);
    assert input[..n + 1] == input[..n] + [input[n]];
    blended, output := false, previous;
    if window.count >= k {
      var ordered := window.Ordered();
      assert ordered == input[n + 1 - k..n + 1];
      assert Uniform(ordered, w, h);
      var ok;
      ok, output := MotionBlur.ApplyMotionBlur(ordered, weights, previous);
      blended := true;
    }
  }

  /** A frame the gate let through: blur it, send the blend (if any) to the
      encoder, count it and report progress at every 30th frame. */
  method Advance(window: BlendWindow.Window, f: Frame, weights: seq<real>, output: Frame,
                 emitted: seq<Frame>, progress: seq<nat>, ghost input: seq<Frame>, processed: nat,
                 ghost w: nat, ghost h: nat)
    returns (output': Frame, emitted': seq<Frame>, progress': seq<nat>, processed': nat)
    requires processed < |input| && f == input[processed] && Uniform(input, w, h)
    requires window.Valid() && 0 < window.slots.Length == |weights| && window.History == input[..processed]
    requires emitted == Blends(input[..processed], weights, |weights|) && progress == Progress(processed)
    modifies window, window.slots
    ensures window.Valid() && window.slots == old(window.slots)
    ensures processed' == processed + 1 && window.History == input[..processed']
    ensures emitted' == Blends(input[..processed'], weights, |weights|) && progress' == Progress(processed')
  {
    var blended;
    blended, output' := BlurStep(window, f, weights, output, input, processed, w, h);
    emitted' := if blended then emitted + [output'] else emitted;
    assert emitted' == Blends(input[..processed + 1], weights, |weights|) by {
      BlendsGrow(input, processed, weights, |weights|);
    }
    processed' := processed + 1;
    progress' := if processed' % 30 == 0 then progress + [processed'] else progress;
  }

  /** `processing_thread` over a queue whose producer has finished.
      `fpsRatio` is output_fps / input_fps (the frame rates come from the
      container and `parse_fps_string`) and `exp` stands for the C `exp`.
      K is `blur_frame_count` and the weights are `config_get_weights` for
      K; `interruptAt` is the number of loop iterations whose
      `is_interrupted()` checks all answer false (the loop condition and the
      wait in `frame_queue_pop` both ask) before one answers true. */
  method ProcessingThread(config: Config.BlurConfig, q: FrameQueue.Queue, fpsRatio: real,
                          exp: real -> real, interruptAt: nat, ghost w: nat, ghost h: nat)
    returns (emitted: seq<Frame>, progress: seq<nat>, processed: nat)
    requires q.Valid() && q.finished && Uniform(q.Contents, w, h)
    modifies q
    ensures processed == Min(interruptAt, |old(q.Contents)|)
    ensures var k := BlendWindow.WindowSize(fpsRatio * old(config.blurAmount) * 5.0);
      var weights := Weights.WeightsFor(old(config.blurWeighting), old(config.customWeights), k, exp);
      emitted == Blends(old(q.Contents)[..processed], weights, k)
    ensures progress == Progress(processed)
    ensures q.Valid() && q.Contents == old(q.Contents)[processed..]
  {
    var k := BlendWindow.WindowSize(fpsRatio * config.blurAmount * 5.0);
    var found := Weights.GetWeights(config.blurWeighting, config.customWeights, k, exp);
    emitted, progress, processed := ConsumeFrames(q, found.value, config.deduplicate, config.deduplicateRange,
                                                  config.deduplicateThreshold, interruptAt, w, h);
  }

  /** The loop of `processing_thread`: pop, pass the deduplication gate,
      blur, report progress every 30 frames. */
  method ConsumeFrames(q: FrameQueue.Queue, weights: seq<real>, deduplicate: bool, range: int,
                       threshold: real, interruptAt: nat, ghost w: nat, ghost h: nat)
    returns (emitted: seq<Frame>, progress: seq<nat>, processed: nat)
    requires q.Valid() && q.finished && Uniform(q.Contents, w, h)
    requires |weights| > 0
    modifies q
    ensures processed == Min(interruptAt, |old(q.Contents)|)
    ensures emitted == Blends(old(q.Contents)[..processed], weights, |weights|)
    ensures progress == Progress(processed)
    ensures q.Valid() && q.Contents == old(q.Contents)[processed..]
  {
    var k := |weights|;
    var window := new BlendWindow.Window(k);
    var output := Unallocated;
    var history: seq<Frame> := [];
    ghost var input := q.Contents;
    emitted, progress, processed := [], [], 0;
    var polls := 0;
    while polls < interruptAt
      invariant q.Valid() && q.finished && q.frames == old(q.frames)
      invariant fresh(window) && fresh(window.slots)
      invariant window.Valid() && window.slots.Length == k
      invariant polls == processed <= interruptAt && processed <= |input|
      invariant Uniform(input, w, h)
      invariant q.Contents == input[processed..]
      invariant window.History == input[..processed]
      invariant history == []
      invariant emitted == Blends(input[..processed], weights, k)
      invariant progress == Progress(processed)
      decreases interruptAt - polls
    {
      polls := polls + 1;
      var popped, f := q.Pop(false);
      if !popped {
        break;
      }
      assert f == input[processed] && Dedup.WellFormed(f);
      var dup;
      dup, history := Dedup.DedupGate(deduplicate, history, f, range, threshold);
      if !dup {
        output, emitted, progress, processed := Advance(window, f, weights, output, emitted, progress, input, processed, w, h);
      }
    }
  }
}
