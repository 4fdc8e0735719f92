/** The planar 4:2:0 frame of `FrameBuffer` and the per-pixel weighted blend
    that `apply_motion_blur` computes (video.c). */
module Frames {
  import opened Support

  /** A plane of 8-bit samples indexed [row][column]. The C addresses a sample
      as `data[row * linesize + column]`; the stride is abstracted away here. */
  type Plane = seq<seq<Byte>>

  /** A `FrameBuffer`: luma width and height, the Y plane (None models a null
      `data[0]`), the two chroma planes and the presentation timestamp. */
  datatype Frame = Frame(width: nat, height: nat, luma: Option<Plane>, cb: Plane, cr: Plane, pts: int)

  /** A slot as `calloc` leaves it: nothing allocated. */
  const Unallocated: Frame := Frame(0, 0, None, [], [], 0)

  /** The number of chroma samples for n luma samples (4:2:0; even luma
      coordinates 0, 2, 4, ... below n). */
  function Half(n: nat): nat { (n + 1) / 2 }

  ghost predicate PlaneCovers(p: Plane, w: nat, h: nat)
  {
    |p| >= h && forall r | 0 <= r < h :: |p[r]| >= w
  }

  /** f can be read at every luma coordinate below w x h and at the chroma
      coordinates that go with them. A frame without luma is never read. */
  ghost predicate Covers(f: Frame, w: nat, h: nat)
  {
    f.luma.Some? ==>
      PlaneCovers(f.luma.value, w, h) && PlaneCovers(f.cb, Half(w), Half(h)) && PlaneCovers(f.cr, Half(w), Half(h))
  }

  ghost predicate AllCover(frames: seq<Frame>, w: nat, h: nat)
  {
    forall i | 0 <= i < |frames| :: Covers(frames[i], w, h)
  }

  datatype Channel = Y | U | V

  /** The sample of channel ch at (x, y), in that channel's own coordinates. */
  function Sample(f: Frame, ch: Channel, x: nat, y: nat): Byte
  {
    var p := match ch
      case Y => (if f.luma.Some? then f.luma.value else [])
      case U => f.cb
      case V => f.cr;
    if y < |p| && x < |p[y]| then p[y][x] else 0
  }

  /** The accumulator after the first n frames: frames whose luma plane is
      missing are skipped; the others add sample * weight. */
  function WSum(frames: seq<Frame>, weights: seq<real>, n: nat, ch: Channel, x: nat, y: nat): real
    requires n <= |frames| && n <= |weights|
  {
    if n == 0 then 0.0
    else WSum(frames, weights, n - 1, ch, x, y)
         + (if frames[n - 1].luma.Some? then (Sample(frames[n - 1], ch, x, y) as real) * weights[n - 1] else 0.0)
  }

  /** `(uint8_t)CLAMP(v, 0, 255)`: clamp, then truncate toward zero. */
  function ClampByte(v: real): (b: Byte)
    ensures v <= 0.0 ==> b == 0
    ensures v >= 255.0 ==> b == 255
    ensures 0.0 <= v <= 255.0 ==> b as real <= v < b as real + 1.0
  {
    if v < 0.0 then 0 else if v > 255.0 then 255 else v.Floor
  }

  /** One output row of channel ch: `width` clamped weighted sums. */
  function BlendedRow(frames: seq<Frame>, weights: seq<real>, ch: Channel, row: nat, width: nat): seq<Byte>
    requires |frames| <= |weights|
  {
    seq(width, x requires 0 <= x < width => ClampByte(WSum(frames, weights, |frames|, ch, x, row)))
  }

  /** The frame `apply_motion_blur` produces from a non-empty window: the
      dimensions of the first frame, a blended Y plane, chroma planes blended
      once per 2x2 luma block, and the timestamp of the middle frame. */
  function Blend(frames: seq<Frame>, weights: seq<real>): Frame
    requires 0 < |frames| <= |weights|
  {
    var w := frames[0].width;
    var h := frames[0].height;
    Frame(w, h,
          Some(seq(h, y requires 0 <= y < h => BlendedRow(frames, weights, Y, y, w))),
          seq(Half(h), cy requires 0 <= cy < Half(h) => BlendedRow(frames, weights, U, cy, Half(w))),
          seq(Half(h), cy requires 0 <= cy < Half(h) => BlendedRow(frames, weights, V, cy, Half(w))),
          frames[|frames| / 2].pts)
  }

  /** The blended sample of a channel is the clamped weighted sum over the
      whole window; every sample lies in [0, 255]. */
  lemma BlendSample(frames: seq<Frame>, weights: seq<real>, ch: Channel, x: nat, y: nat)
    requires 0 < |frames| <= |weights|
    requires ch == Y ==> x < frames[0].width && y < frames[0].height
    requires ch != Y ==> x < Half(frames[0].width) && y < Half(frames[0].height)
    ensures Sample(Blend(frames, weights), ch, x, y) == ClampByte(WSum(frames, weights, |frames|, ch, x, y))
    ensures 0 <= Sample(Blend(frames, weights), ch, x, y) <= 255
  {
  }

  /** With every frame the same frame f, the accumulator is f's sample times
      the sum of the weights used so far. */
  lemma {:induction false} WSumOfIdentical(frames: seq<Frame>, weights: seq<real>, n: nat, ch: Channel, x: nat, y: nat, f: Frame)
    requires n <= |frames| && n <= |weights|
    requires f.luma.Some?
    requires forall i | 0 <= i < n :: frames[i] == f
    ensures WSum(frames, weights, n, ch, x, y) == (Sample(f, ch, x, y) as real) * Sum(weights[..n])
  {
    if n > 0 {
      WSumOfIdentical(frames, weights, n - 1, ch, x, y, f);
      assert weights[..n][..n - 1] == weights[..n - 1];
    }
  }

  /** Idempotence: blending K copies of one frame with weights that sum to 1
      gives back that frame's samples, in every channel. */
  lemma BlendOfIdenticalFrames(frames: seq<Frame>, weights: seq<real>, f: Frame, ch: Channel, x: nat, y: nat)
    requires 0 < |frames| <= |weights|
    requires f.luma.Some?
    requires forall i | 0 <= i < |frames| :: frames[i] == f
    requires Sum(weights[..|frames|]) == 1.0
    requires ch == Y ==> x < f.width && y < f.height
    requires ch != Y ==> x < Half(f.width) && y < Half(f.height)
    ensures Sample(Blend(frames, weights), ch, x, y) == Sample(f, ch, x, y)
  {
    WSumOfIdentical(frames, weights, |frames|, ch, x, y, f);
    BlendSample(frames, weights, ch, x, y);
  }

  /** A frame whose luma plane is missing contributes nothing: its weight can
      be anything without changing any accumulator. */
  lemma {:induction false} MissingLumaContributesNothing(frames: seq<Frame>, weights: seq<real>, n: nat, k: nat, w': real, ch: Channel, x: nat, y: nat)
    requires n <= |frames| && n <= |weights| && k < |weights|
    requires k < |frames| && frames[k].luma.None?
    ensures WSum(frames, weights[k := w'], n, ch, x, y) == WSum(frames, weights, n, ch, x, y)
  {
    if n > 0 {
      MissingLumaContributesNothing(frames, weights, n - 1, k, w', ch, x, y);
    }
  }
}
