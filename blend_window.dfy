/** The temporal window of `processing_thread` (video.c): `BlurFrameBuffer`,
    a ring of K slots with `current_pos` and a saturating `count`, and the
    reordering of the K most recent frames from oldest to newest before
    each blend. */
module BlendWindow {
  import opened Support
  import opened Frames
  import FrameQueue

  /** The largest window, the upper clamp on `blur_frame_count`. */
  const MaxWindow: nat := 64

  /** `blur_frame_count` from the scaled blur amount
      `output_fps / input_fps * blur_amount * 5.0`: rounded half up by
      `(int)(scaled + 0.5)` and clamped to [1, 64]. */
  function WindowSize(scaled: real): (k: nat)
    ensures 1 <= k <= MaxWindow
    ensures 1.0 <= scaled + 0.5 < 65.0 ==> k as real <= scaled + 0.5 < k as real + 1.0
    ensures scaled + 0.5 >= 65.0 ==> k == MaxWindow
    ensures scaled + 0.5 < 1.0 ==> k == 1
  {
    var n := TruncToInt(scaled + 0.5);
    if n < 1 then 1 else if n > MaxWindow then MaxWindow else n
  }

  /** The slot i places before position p in a ring of cap slots. */
  function Before(p: nat, i: nat, cap: nat): (s: nat)
    requires p < cap && 1 <= i <= cap
    ensures s < cap
  {
    if i <= p then p - i else p + cap - i
  }

  /** The C index `(current_pos - K + i + capacity) % capacity` with
      capacity K is the slot K - i places before `current_pos`. */
  lemma OrderedIndex(p: nat, i: nat, k: nat)
    requires p < k && i < k
    ensures (p - k + i + k) % k == Before(p, k - i, k)
  {
    if p + i < k {
      assert p - k + i + k == p + i;
    } else {
      assert p - k + i + k == (p + i - k) + k;
      assert (p + i - k) % k == p + i - k;
    }
  }

  class Window {
    var slots: array<Frame>
    var count: int
    var currentPos: int

    /** Every frame accepted so far, oldest first. */
    ghost var History: seq<Frame>

    /** `count` is the number of accepted frames saturated at the capacity,
        and walking back from `currentPos` visits the accepted frames from
        newest to oldest. */
    ghost predicate Valid()
      reads this, slots
    {
      slots.Length > 0 &&
      0 <= currentPos < slots.Length &&
      count == Min(|History|, slots.Length) &&
      forall i | 1 <= i <= count :: slots[Before(currentPos, i, slots.Length)] == History[|History| - i]
    }

    /** `blur_buffer` after the `calloc` of K zeroed slots. */
    constructor (capacity: nat)
      requires capacity > 0
      ensures Valid() && fresh(slots) && slots.Length == capacity
      ensures count == 0 && currentPos == 0 && History == []
      ensures forall i | 0 <= i < capacity :: slots[i] == Unallocated
    {
      slots := new Frame[capacity](_ => Unallocated);
      count, currentPos := 0, 0;
      History := [];
    }

    /** One accepted frame: copied into the slot at `current_pos` (and only
        there), `current_pos` advances modulo the capacity, and `count`
        grows until it reaches the capacity. */
    method Accept(f: Frame)
      requires Valid()
      modifies this, slots
      ensures Valid() && slots == old(slots)
      ensures slots[..] == old(slots[..])[old(currentPos) := f]
      ensures currentPos == (old(currentPos) + 1) % slots.Length
      ensures count == Min(old(count) + 1, slots.Length)
      ensures History == old(History) + [f]
    {
      var cap := slots.Length;
      ghost var oldPos := currentPos;
      slots[currentPos] := f;
      FrameQueue.NextIsModulo(currentPos, cap);
      currentPos := (currentPos + 1) % cap;
      if count < cap {
        count := count + 1;
      }
      History := History + [f];
      forall i | 1 <= i <= count
        ensures slots[Before(currentPos, i, cap)] == History[|History| - i]
      {
        if i > 1 {
          assert Before(currentPos, i, cap) == Before(oldPos, i - 1, cap);
        }
      }
    }

    /** The `ordered_frames` loop: once the window is full, the K slots read
        at `(current_pos - K + i + K) % K` for i = 0 .. K-1 are the K most
        recently accepted frames, oldest first. */
    method Ordered() returns (ordered: seq<Frame>)
      requires Valid() && count >= slots.Length
      ensures |ordered| == slots.Length
      ensures ordered == History[|History| - slots.Length..]
    {
      var k := slots.Length;
      ordered := [];
      var i := 0;
      while i < k
        invariant 0 <= i <= k
        invariant ordered == History[|History| - k..|History| - k + i]
      {
        var idx := (currentPos - k + i + k) % k;
        OrderedIndex(currentPos, i, k);
        assert slots[idx] == History[|History| - k + i] by {
          assert 1 <= k - i <= count;
        }
        ghost var n := |History| - k;
        assert History[n..n + i + 1] == History[n..n + i] + [History[n + i]];
        ordered := ordered + [slots[idx]];
        i := i + 1;
      }
    }
  }
}
