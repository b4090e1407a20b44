/**
  CPU compositing of one channel's piano-roll image into the video frame
  (the per-pixel loops of Save, VideoFile.cs). Both images are 4 bytes per
  pixel, row after row. The channel image is rendered on its side
  (channelResX columns by channelResY rows) and is copied rotated by a
  quarter turn into a vertical strip of the video, whose top-left corner is
  column `channelPosX`: video pixel (row x, column channelPosX + y) takes
  channel pixel (row channelResY - y - 1, column channelResX - x - 1).

  Where the overlay drawn on the video (channel names, gradient, watermark)
  has a non-zero alpha, it is blended over the channel pixel with an integer
  blend; the result is written in the byte order the encoder expects:
  [255, B, G, R]. The Windows build treats the overlay as premultiplied and
  uses 255 in place of the overlay alpha for the overlay term; `premultiplied`
  selects that variant.
 */
module Compositor {
  import opened Utils

  /** The four bytes of a pixel, in memory order. */
  datatype Pixel = Pixel(b0: byte, b1: byte, b2: byte, b3: byte)

  // ---------------------------------------------------------------------------
  // One pixel.

  /** `(c * (255 - a) + v * a) >> 8` (`v * 255` in the premultiplied variant), before the byte cast. */
  function Blend(c: byte, v: byte, a: byte, premultiplied: bool): (r: int)
    ensures 0 <= r
    ensures !premultiplied && a == 0 ==> r == c as int * 255 / 256
  {
    var c, v, a := c as int, v as int, a as int;
    var w := if premultiplied then 255 else a;
    MulBounds(c, 255 - a, 0, 255);
    MulBounds(v, w, 0, 255);
    (c * (255 - a) + v * w) / 256
  }

  /** The blended pixel: the channel RGB, blended with the overlay RGB where the overlay alpha is non-zero, written as [255, B, G, R]. */
  function Composite(video: Pixel, channel: Pixel, premultiplied: bool): (r: Pixel)
    ensures r.b0 == 255
    ensures video.b3 == 0 ==> r == Pixel(255, channel.b2, channel.b1, channel.b0)
  {
    var a := video.b3;
    var r := if a != 0 then ToByte(Blend(channel.b0, video.b0, a, premultiplied)) else channel.b0;
    var g := if a != 0 then ToByte(Blend(channel.b1, video.b1, a, premultiplied)) else channel.b1;
    var b := if a != 0 then ToByte(Blend(channel.b2, video.b2, a, premultiplied)) else channel.b2;
    Pixel(255, b, g, r)
  }

  /** The straight blend never overflows a byte: it is at most 254, and it lies between the two inputs up to rounding down. */
  lemma BlendFits(c: byte, v: byte, a: byte)
    ensures 0 <= Blend(c, v, a, false) <= 254
    ensures Min(c, v) - 1 <= Blend(c, v, a, false) <= Max(c, v)
  {
    var lo, hi := Min(c, v), Max(c, v);
    MulBounds(c, 255 - a, lo, hi);
    MulBounds(v, a, lo, hi);
    assert lo * (255 - a) + lo * a == lo * 255;
    assert hi * (255 - a) + hi * a == hi * 255;
    var n := c * (255 - a) + v * a;
    assert lo * 255 <= n <= hi * 255 <= 65025;
  }

  lemma MulBounds(x: int, k: int, lo: int, hi: int)
    requires lo <= x <= hi && k >= 0
    ensures lo * k <= x * k <= hi * k
  {
  }

  /** With a premultiplied overlay (each colour component at most the alpha) the Windows blend fits a byte too. */
  lemma PremultipliedBlendFits(c: byte, v: byte, a: byte)
    requires v <= a
    ensures 0 <= Blend(c, v, a, true) <= 254
  {
    MulBounds(c, 255 - a, 0, 255);
    MulBounds(v, 255, 0, a);
    assert c * (255 - a) + v * 255 <= 255 * (255 - a) + a * 255 == 65025;
  }

  /** An overlay that is not premultiplied overflows the Windows blend, and the byte cast wraps it. */
  lemma PremultipliedBlendWrapsOtherwise()
    ensures Blend(255, 255, 1, true) == 507 && ToByte(Blend(255, 255, 1, true)) == 251
  {
  }

  /** Where the overlay is fully opaque the result is the overlay colour scaled by 255/256 (so 255 comes out as 254). */
  lemma OpaqueOverlay(c: byte, v: byte)
    ensures Blend(c, v, 255, false) == v * 255 / 256 == Blend(c, v, 255, true)
    ensures v > 0 ==> Blend(c, v, 255, false) == v - 1
  {
  }

  /** The output layout: byte 0 is 255, then B, G, R; a transparent overlay leaves the channel colour unchanged. */
  lemma CompositeLayout(video: Pixel, channel: Pixel, premultiplied: bool)
    ensures Composite(video, channel, premultiplied).b0 == 255
    ensures video.b3 == 0 ==> Composite(video, channel, premultiplied) == Pixel(255, channel.b2, channel.b1, channel.b0)
    ensures video.b3 != 0 && !premultiplied ==>
      var p := Composite(video, channel, premultiplied);
      && p.b3 == Blend(channel.b0, video.b0, video.b3, false)
      && p.b2 == Blend(channel.b1, video.b1, video.b3, false)
      && p.b1 == Blend(channel.b2, video.b2, video.b3, false)
  {
    if video.b3 != 0 && !premultiplied {
      BlendFits(channel.b0, video.b0, video.b3);
      BlendFits(channel.b1, video.b1, video.b3);
      BlendFits(channel.b2, video.b2, video.b3);
    }
  }

  // ---------------------------------------------------------------------------
  // Index arithmetic. The source addresses both images as flat byte buffers,
  // row after row, 4 bytes per pixel; the model indexes them as [row, column,
  // byte]. The lemmas below show the two layouts agree.

  /** Byte `k` of pixel (row, col) in a flat buffer `width` pixels wide. */
  function FlatOffset(width: int, row: int, col: int, k: int): int
  {
    (row * width + col) * 4 + k
  }

  /** The source's videoIdx + k: video pixel (row channelPosY + x, column channelPosX + y), channelPosY being 0. */
  function VideoIdx(videoResX: int, channelPosX: int, x: int, y: int, k: int): int
  {
    (0 + x) * videoResX * 4 + (channelPosX + y) * 4 + k
  }

  /** The source's channelIdx + k: channel pixel (row channelResY - y - 1, column channelResX - x - 1). */
  function ChannelIdx(channelResX: int, channelResY: int, x: int, y: int, k: int): int
  {
    (channelResY - y - 1) * channelResX * 4 + (channelResX - x - 1) * 4 + k
  }

  lemma MulBoundsLeft(d: int, m: int)
    requires d > 0 && m >= 1
    ensures m * d >= d
  {
    MulBounds(d, m - 1, 0, d);
  }

  /** Distinct (row, column, byte) triples of an image have distinct flat offsets, all inside the buffer. */
  lemma FlatOffsetInjective(width: int, height: int, r: int, c: int, k: int, r': int, c': int, k': int)
    requires 0 <= r < height && 0 <= c < width && 0 <= k < 4
    requires 0 <= r' < height && 0 <= c' < width && 0 <= k' < 4
    ensures 0 <= FlatOffset(width, r, c, k) < height * width * 4
    ensures FlatOffset(width, r, c, k) == FlatOffset(width, r', c', k') ==> r == r' && c == c' && k == k'
  {
    MulBounds(r, width, 0, height - 1);
    assert (height - 1) * width + width == height * width;
    var p, p' := r * width + c, r' * width + c';
    if FlatOffset(width, r, c, k) == FlatOffset(width, r', c', k') {
      assert 4 * (p - p') == k' - k;
      if p > p' {
        MulBoundsLeft(4, p - p');
      } else if p < p' {
        MulBoundsLeft(4, p' - p);
      }
      assert (r - r') * width == c' - c;
      if r > r' {
        MulBoundsLeft(width, r - r');
      } else if r < r' {
        MulBoundsLeft(width, r' - r);
      }
    }
  }

  /**
    The rotated mapping: byte k written for (x, y) is byte k of video pixel
    (x, channelPosX + y), and the byte read is byte k of channel pixel
    (channelResY - y - 1, channelResX - x - 1).
   */
  lemma RotatedMapping(videoResX: int, channelResX: int, channelResY: int, channelPosX: int, x: int, y: int, k: int)
    ensures VideoIdx(videoResX, channelPosX, x, y, k) == FlatOffset(videoResX, x, channelPosX + y, k)
    ensures ChannelIdx(channelResX, channelResY, x, y, k) == FlatOffset(channelResX, channelResY - y - 1, channelResX - x - 1, k)
  {
  }

  // ---------------------------------------------------------------------------
  // The loops.

  /** Pixel (row, col) of a [row, column, byte] image. */
  function PixelAt(a: array3<byte>, row: int, col: int): Pixel
    requires 0 <= row < a.Length0 && 0 <= col < a.Length1 && a.Length2 == 4
    reads a
  {
    Pixel(a[row, col, 0], a[row, col, 1], a[row, col, 2], a[row, col, 3])
  }

  /** The body of the inner loop: reads both pixels, blends, writes [255, B, G, R]. */
  method CompositePixel(videoImage: array3<byte>, channelImage: array3<byte>, vr: int, vc: int, cr: int, cc: int, premultiplied: bool)
    requires videoImage.Length2 == 4 && channelImage.Length2 == 4 && videoImage != channelImage
    requires 0 <= vr < videoImage.Length0 && 0 <= vc < videoImage.Length1
    requires 0 <= cr < channelImage.Length0 && 0 <= cc < channelImage.Length1
    modifies videoImage
    ensures PixelAt(videoImage, vr, vc) == Composite(old(PixelAt(videoImage, vr, vc)), PixelAt(channelImage, cr, cc), premultiplied)
    ensures forall r, c, k :: (0 <= r < videoImage.Length0 && 0 <= c < videoImage.Length1 && 0 <= k < 4 && (r != vr || c != vc)) ==>
      videoImage[r, c, k] == old(videoImage[r, c, k])
  {
    var videoA: int := videoImage[vr, vc, 3];

    var channelR: int := channelImage[cr, cc, 0];
    var channelG: int := channelImage[cr, cc, 1];
    var channelB: int := channelImage[cr, cc, 2];

    if videoA != 0 {
      var videoR: int := videoImage[vr, vc, 0];
      var videoG: int := videoImage[vr, vc, 1];
      var videoB: int := videoImage[vr, vc, 2];

      var alpha := if premultiplied then 255 else videoA;
      channelR := ToByte((channelR * (255 - videoA) + videoR * alpha) / 256);
      channelG := ToByte((channelG * (255 - videoA) + videoG * alpha) / 256);
      channelB := ToByte((channelB * (255 - videoA) + videoB * alpha) / 256);
    }

    videoImage[vr, vc, 3] := channelR;
    videoImage[vr, vc, 2] := channelG;
    videoImage[vr, vc, 1] := channelB;
    videoImage[vr, vc, 0] := 255;
  }

  /** The inner loop: column channelPosX + y of the video, rows [0, channelResX). */
  method CompositeColumn(videoImage: array3<byte>, channelImage: array3<byte>, channelResX: int, channelResY: int,
                         channelPosX: int, y: int, premultiplied: bool)
    requires videoImage.Length2 == 4 && channelImage.Length2 == 4 && videoImage != channelImage
    requires channelImage.Length0 == channelResY && channelImage.Length1 == channelResX
    requires 0 <= channelPosX && channelPosX + channelResY <= videoImage.Length1 && channelResX <= videoImage.Length0
    requires 0 <= y < channelResY
    modifies videoImage
    ensures forall x, c :: 0 <= x < channelResX && c == channelPosX + y ==>
      PixelAt(videoImage, x, c)
        == Composite(old(PixelAt(videoImage, x, c)), PixelAt(channelImage, channelResY - y - 1, channelResX - x - 1), premultiplied)
    ensures forall r, c, k :: (0 <= r < videoImage.Length0 && 0 <= c < videoImage.Length1 && 0 <= k < 4
      && !(r < channelResX && c == channelPosX + y)) ==> videoImage[r, c, k] == old(videoImage[r, c, k])
  {
    for x := 0 to channelResX
      invariant forall x', c :: 0 <= x' < x && c == channelPosX + y ==>
        PixelAt(videoImage, x', c)
          == Composite(old(PixelAt(videoImage, x', c)), PixelAt(channelImage, channelResY - y - 1, channelResX - x' - 1), premultiplied)
      invariant forall r, c, k :: (0 <= r < videoImage.Length0 && 0 <= c < videoImage.Length1 && 0 <= k < 4
        && !(r < x && c == channelPosX + y)) ==> videoImage[r, c, k] == old(videoImage[r, c, k])
    {
      CompositePixel(videoImage, channelImage, x, channelPosX + y, channelResY - y - 1, channelResX - x - 1, premultiplied);
    }
  }

  /** Video pixels the strip covers: rows [0, rows), columns [channelPosX, channelPosX + cols). */
  predicate InStrip(channelPosX: int, rows: int, cols: int, r: int, c: int)
  {
    r < rows && channelPosX <= c < channelPosX + cols
  }

  /**
    The compositing loops of Save for one channel: every pixel of the strip is
    the composite of the overlay pixel there and the rotated channel pixel
    (video column c shows channel row channelResY - (c - channelPosX) - 1);
    every byte outside the strip is unchanged.
   */
  method CompositeChannel(videoImage: array3<byte>, channelImage: array3<byte>, channelResX: int, channelResY: int,
                          channelPosX: int, premultiplied: bool)
    requires videoImage.Length2 == 4 && channelImage.Length2 == 4 && videoImage != channelImage
    requires channelImage.Length0 == channelResY && channelImage.Length1 == channelResX
    requires 0 <= channelPosX && channelPosX + channelResY <= videoImage.Length1 && channelResX <= videoImage.Length0
    modifies videoImage
    ensures forall x, c :: 0 <= x < channelResX && channelPosX <= c < channelPosX + channelResY ==>
      PixelAt(videoImage, x, c)
        == Composite(old(PixelAt(videoImage, x, c)), PixelAt(channelImage, channelResY - (c - channelPosX) - 1, channelResX - x - 1), premultiplied)
    ensures forall r, c, k :: (0 <= r < videoImage.Length0 && 0 <= c < videoImage.Length1 && 0 <= k < 4
      && !InStrip(channelPosX, channelResX, channelResY, r, c)) ==> videoImage[r, c, k] == old(videoImage[r, c, k])
  {
    for y := 0 to channelResY
      invariant forall x, c :: 0 <= x < channelResX && channelPosX <= c < channelPosX + y ==>
        PixelAt(videoImage, x, c)
          == Composite(old(PixelAt(videoImage, x, c)), PixelAt(channelImage, channelResY - (c - channelPosX) - 1, channelResX - x - 1), premultiplied)
      invariant forall r, c, k :: (0 <= r < videoImage.Length0 && 0 <= c < videoImage.Length1 && 0 <= k < 4
        && !InStrip(channelPosX, channelResX, y, r, c)) ==> videoImage[r, c, k] == old(videoImage[r, c, k])
    {
      CompositeColumn(videoImage, channelImage, channelResX, channelResY, channelPosX, y, premultiplied);
    }
  }

  // ---------------------------------------------------------------------------
  // The seam column.

  /** The fix-up applies to every channel but the first whose column does not start where the previous one ended. */
  predicate NeedsSeamFix(videoChannelIndex: int, channelPosX: int, prevChannelEndPosX: int)
  {
    videoChannelIndex > 0 && channelPosX != prevChannelEndPosX
  }

  /** The seam pixel: its (R, G, B, A) bytes rewritten as (255, B, G, R). */
  function Swapped(p: Pixel): Pixel
  {
    Pixel(255, p.b2, p.b1, p.b0)
  }

  /** A fixed seam pixel has the layout of a composited pixel: it is what compositing it under a transparent overlay gives. */
  lemma SeamMatchesComposite(p: Pixel, overlay: Pixel, premultiplied: bool)
    requires overlay.b3 == 0
    ensures Swapped(p) == Composite(overlay, p, premultiplied)
    ensures Swapped(p).b0 == 255 && Swapped(p).b3 == p.b0
  {
  }

  /** Column channelPosX - 1, on every row of the video, is byte-swapped from (R, G, B, A) to (255, B, G, R). */
  method FixSeam(videoImage: array3<byte>, channelPosX: int)
    requires videoImage.Length2 == 4
    requires 1 <= channelPosX <= videoImage.Length1
    modifies videoImage
    ensures forall y, c :: 0 <= y < videoImage.Length0 && c == channelPosX - 1 ==>
      PixelAt(videoImage, y, c) == Swapped(old(PixelAt(videoImage, y, c)))
    ensures forall r, c, k :: (0 <= r < videoImage.Length0 && 0 <= c < videoImage.Length1 && 0 <= k < 4 && c != channelPosX - 1) ==>
      videoImage[r, c, k] == old(videoImage[r, c, k])
  {
    for y := 0 to videoImage.Length0
      invariant forall y', c :: 0 <= y' < y && c == channelPosX - 1 ==>
        PixelAt(videoImage, y', c) == Swapped(old(PixelAt(videoImage, y', c)))
      invariant forall r, c, k :: (0 <= r < videoImage.Length0 && 0 <= c < videoImage.Length1 && 0 <= k < 4
        && !(c == channelPosX - 1 && r < y)) ==> videoImage[r, c, k] == old(videoImage[r, c, k])
    {
      var videoR := videoImage[y, channelPosX - 1, 0];
      var videoG := videoImage[y, channelPosX - 1, 1];
      var videoB := videoImage[y, channelPosX - 1, 2];

      videoImage[y, channelPosX - 1, 3] := videoR;
      videoImage[y, channelPosX - 1, 2] := videoG;
      videoImage[y, channelPosX - 1, 1] := videoB;
      videoImage[y, channelPosX - 1, 0] := 255;
    }
  }
}
