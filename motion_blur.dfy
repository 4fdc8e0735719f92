/** `apply_motion_blur` (video.c): the nested y / x / frame loops that
    accumulate the weighted samples and write the clamped output planes. */
module MotionBlur {
  import opened Support
  import opened Frames

  /** The innermost loop over the window for one luma coordinate (x, y):
      the Y accumulator always, the U and V accumulators only when both
      coordinates are even, and frames without luma skipped. */
  method AccumulatePixel(frames: seq<Frame>, weights: seq<real>, x: nat, y: nat)
    returns (yAccum: real, uAccum: real, vAccum: real)
    requires 0 < |frames| <= |weights|
    requires x < frames[0].width && y < frames[0].height
    requires AllCover(frames, frames[0].width, frames[0].height)
    ensures yAccum == WSum(frames, weights, |frames|, Y, x, y)
    ensures x % 2 == 0 && y % 2 == 0 ==>
      uAccum == WSum(frames, weights, |frames|, U, x / 2, y / 2) &&
      vAccum == WSum(frames, weights, |frames|, V, x / 2, y / 2)
  {
    yAccum, uAccum, vAccum := 0.0, 0.0, 0.0;
    var even := x % 2 == 0 && y % 2 == 0;
    var i := 0;
    while i < |frames|
      invariant 0 <= i <= |frames|
      invariant yAccum == WSum(frames, weights, i, Y, x, y)
      invariant even ==> uAccum == WSum(frames, weights, i, U, x / 2, y / 2)
      invariant even ==> vAccum == WSum(frames, weights, i, V, x / 2, y / 2)
    {
      var f := frames[i];
      if f.luma.Some? {
        assert Covers(f, frames[0].width, frames[0].height);
        yAccum := yAccum + (f.luma.value[y][x] as real) * weights[i];
        if even {
          uAccum := uAccum + (f.cb[y / 2][x / 2] as real) * weights[i];
          vAccum := vAccum + (f.cr[y / 2][x / 2] as real) * weights[i];
        }
      }
      i := i + 1;
    }
  }

  /** One pass of the x loop for row y: the output Y row, and for an even row
      the output U and V rows (written at even x, at index x / 2). */
  method BlendRowAt(frames: seq<Frame>, weights: seq<real>, y: nat)
    returns (yRow: seq<Byte>, uRow: seq<Byte>, vRow: seq<Byte>)
    requires 0 < |frames| <= |weights|
    requires y < frames[0].height
    requires AllCover(frames, frames[0].width, frames[0].height)
    ensures yRow == BlendedRow(frames, weights, Y, y, frames[0].width)
    ensures y % 2 == 0 ==> uRow == BlendedRow(frames, weights, U, y / 2, Half(frames[0].width))
    ensures y % 2 == 0 ==> vRow == BlendedRow(frames, weights, V, y / 2, Half(frames[0].width))
  {
    var width := frames[0].width;
    yRow, uRow, vRow := [], [], [];
    var x := 0;
    while x < width
      invariant 0 <= x <= width
      invariant yRow == BlendedRow(frames, weights, Y, y, x)
      invariant y % 2 == 0 ==> uRow == BlendedRow(frames, weights, U, y / 2, Half(x))
      invariant y % 2 == 0 ==> vRow == BlendedRow(frames, weights, V, y / 2, Half(x))
    {
      var ya, ua, va := AccumulatePixel(frames, weights, x, y);
      yRow := yRow + [ClampByte(ya)];
      if y % 2 == 0 && x % 2 == 0 {
        uRow := uRow + [ClampByte(ua)];
        vRow := vRow + [ClampByte(va)];
      }
      x := x + 1;
    }
  }

  /** `apply_motion_blur(frames, frame_count, weights, output)`: false for an
      empty window (output untouched); otherwise output is the weighted blend
      of the window, every sample clamped to [0, 255], chroma written once per
      2x2 luma block, and the timestamp taken from frames[frame_count / 2].
      The window's frames must be readable at the first frame's size, as the
      C indexes every frame with frames[0]'s width and height. */
  method ApplyMotionBlur(frames: seq<Frame>, weights: seq<real>, previous: Frame)
    returns (ok: bool, output: Frame)
    requires |frames| <= |weights|
    requires |frames| > 0 ==> AllCover(frames, frames[0].width, frames[0].height)
    ensures ok <==> |frames| > 0
    ensures !ok ==> output == previous
    ensures ok ==> output == Blend(frames, weights)
    ensures ok ==> output.pts == frames[|frames| / 2].pts
    ensures ok ==> output.width == frames[0].width && output.height == frames[0].height
  {
    if |frames| == 0 {
      return false, previous;
    }
    var width, height := frames[0].width, frames[0].height;
    var yPlane: Plane, uPlane: Plane, vPlane: Plane := [], [], [];
    var y := 0;
    while y < height
      invariant 0 <= y <= height
      invariant yPlane == seq(y, r requires 0 <= r < y => BlendedRow(frames, weights, Y, r, width))
      invariant uPlane == seq(Half(y), r requires 0 <= r < Half(y) => BlendedRow(frames, weights, U, r, Half(width)))
      invariant vPlane == seq(Half(y), r requires 0 <= r < Half(y) => BlendedRow(frames, weights, V, r, Half(width)))
    {
      var yRow, uRow, vRow := BlendRowAt(frames, weights, y);
      yPlane := yPlane + [yRow];
      if y % 2 == 0 {
        uPlane := uPlane + [uRow];
        vPlane := vPlane + [vRow];
      }
      y := y + 1;
    }
    output := Frame(width, height, Some(yPlane), uPlane, vPlane, frames[|frames| / 2].pts);
    ok := true;
  }
}
