/** `FrameQueue` (video.c): the bounded ring buffer between the decoder and
    the processing thread, as sequential operations. The mutex, the condition
    variables and the one-second timed waits are not modelled: a wait that
    would block becomes a precondition, and `is_interrupted()` is a parameter
    holding the flag's value when the operation looks at it. */
module FrameQueue {
  import opened Support
  import opened Frames

  /** The queue capacity `video_process` passes to `frame_queue_init`. */
  const DefaultCapacity: nat := 200

  /** Index k places after r in a ring of size cap, for r, k < cap. */
  function Ring(r: nat, k: nat, cap: nat): nat
  {
    if r + k < cap then r + k else r + k - cap
  }

  lemma NextIsModulo(p: nat, cap: nat)
    requires p < cap
    ensures (p + 1) % cap == Ring(p, 1, cap)
  {
    if p + 1 == cap {
      assert (p + 1) % cap == 0;
    }
  }

  class Queue {
    var frames: array<Frame>
    var count: int
    var readPos: int
    var writePos: int
    var finished: bool

    /** The frames waiting in the queue, oldest first. */
    ghost var Contents: seq<Frame>

    ghost predicate Valid()
      reads this, frames
    {
      frames.Length > 0 &&
      0 <= count <= frames.Length &&
      0 <= readPos < frames.Length &&
      0 <= writePos < frames.Length &&
      writePos == Ring(readPos, count, frames.Length) &&
      |Contents| == count &&
      forall k | 0 <= k < count :: Contents[k] == frames[Ring(readPos, k, frames.Length)]
    }

    function Capacity(): nat
      reads this
    {
      frames.Length
    }

    /** `frame_queue_init(queue, capacity)`: zeroed slots, empty, not finished. */
    constructor (capacity: nat)
      requires capacity > 0
      ensures Valid() && fresh(frames)
      ensures frames.Length == capacity
      ensures count == 0 && readPos == 0 && writePos == 0 && !finished
      ensures Contents == []
      ensures forall i | 0 <= i < capacity :: frames[i] == Unallocated
    {
      frames := new Frame[capacity](_ => Unallocated);
      count, readPos, writePos := 0, 0, 0;
      finished := false;
      Contents := [];
    }

    /** `frame_queue_signal_finished`: sets `finished` and nothing else, so a
        second call leaves the state as the first one left it. */
    method SignalFinished()
      requires Valid()
      modifies this`finished
      ensures Valid() && finished
      ensures count == old(count) && readPos == old(readPos) && writePos == old(writePos)
      ensures Contents == old(Contents)
    {
      finished := true;
    }

    /** `frame_queue_push`: the producer waits while the queue is full and not
        interrupted, so it gets here with `count < capacity` or interrupted.
        Interrupted: false, nothing changes. Otherwise the frame is copied into
        the slot at `write_pos` (and only there), `write_pos` advances modulo
        the capacity and `count` grows by one. */
    method Push(f: Frame, interrupted: bool) returns (ok: bool)
      requires Valid()
      requires count < frames.Length || interrupted
      modifies this, frames
      ensures Valid() && frames == old(frames)
      ensures ok == !interrupted
      ensures !ok ==> count == old(count) && readPos == old(readPos) && writePos == old(writePos)
      ensures !ok ==> Contents == old(Contents) && frames[..] == old(frames[..])
      ensures ok ==> frames[..] == old(frames[..])[old(writePos) := f]
      ensures ok ==> writePos == (old(writePos) + 1) % frames.Length
      ensures ok ==> count == old(count) + 1 && readPos == old(readPos)
      ensures ok ==> Contents == old(Contents) + [f]
      ensures finished == old(finished)
    {
      if interrupted {
        return false;
      }
      var cap := frames.Length;
      frames[writePos] := f;
      NextIsModulo(writePos, cap);
      writePos := (writePos + 1) % cap;
      count := count + 1;
      Contents := Contents + [f];
      forall k | 0 <= k < count
        ensures Contents[k] == frames[Ring(readPos, k, cap)]
      {
        if k < count - 1 {
          assert Ring(readPos, k, cap) != old(writePos);
        }
      }
      return true;
    }

    /** `frame_queue_pop`: the consumer waits while the queue is empty, not
        finished and not interrupted, so it gets here with one of the three.
        It fails without any change when the queue is empty and finished, or
        when interrupted; otherwise it hands over the frame at `read_pos`,
        `read_pos` advances modulo the capacity and `count` drops by one. */
    method Pop(interrupted: bool) returns (ok: bool, f: Frame)
      requires Valid()
      requires count > 0 || finished || interrupted
      modifies this
      ensures Valid() && frames == old(frames) && finished == old(finished)
      ensures ok == !((old(count) == 0 && finished) || interrupted)
      ensures !ok ==> count == old(count) && readPos == old(readPos) && writePos == old(writePos)
      ensures !ok ==> Contents == old(Contents)
      ensures ok ==> f == old(Contents)[0] && f == frames[old(readPos)]
      ensures ok ==> readPos == (old(readPos) + 1) % frames.Length
      ensures ok ==> count == old(count) - 1 && writePos == old(writePos)
      ensures ok ==> Contents == old(Contents)[1..]
    {
      if (count == 0 && finished) || interrupted {
        return false, Unallocated;
      }
      var cap := frames.Length;
      f := frames[readPos];
      NextIsModulo(readPos, cap);
      readPos := (readPos + 1) % cap;
      count := count - 1;
      Contents := Contents[1..];
      return true, f;
    }
  }

  /** FIFO order: n <= capacity frames pushed into a fresh queue of the
      default capacity with no pop in between come back, popped one by one
      after the producer has finished, as exactly the same sequence. */
  method PushAllThenPopAll(input: seq<Frame>) returns (output: seq<Frame>)
    requires |input| <= DefaultCapacity
    ensures output == input
  {
    var q := new Queue(DefaultCapacity);
    var i := 0;
    while i < |input|
      invariant 0 <= i <= |input|
      invariant fresh(q) && fresh(q.frames)
      invariant q.Valid() && q.frames.Length == DefaultCapacity && !q.finished
      invariant q.Contents == input[..i]
    {
      var ok := q.Push(input[i], false);
      assert input[..i + 1] == input[..i] + [input[i]];
      i := i + 1;
    }
    q.SignalFinished();
    output := [];
    while q.count > 0
      invariant q.Valid() && q.finished
      invariant output + q.Contents == input
      decreases q.count
    {
      var ok, f := q.Pop(false);
      output := output + [f];
    }
    assert q.Contents == [];
  }
}
