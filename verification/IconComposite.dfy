/**
 Undoing the composition of an icon (desktop/external_opener_icon.go): from the icon drawn
 over black and over white, its colours and transparency are recovered.  Transparency is
 proved to come back exactly, and each colour with an exact bound on what is lost.

 The two drawings are buffers of bytes, blue-green-red; the image is rebuilt in place,
 pixel by pixel, red-green-blue.
 */
module IconComposite {
  import opened Wrappers

  type Byte = x: int | 0 <= x <= 255

  datatype Pixel = Pixel(r: Byte, g: Byte, b: Byte, a: Byte)

  function Clamp(value: int): Byte
  {
    if value < 0 then 0 else if value > 255 then 255 else value
  }

  function Diff(light: Byte, dark: Byte): Byte
  {
    if light <= dark then 0 else Clamp(light - dark)
  }

  /** The pixel at offset 4 * p of a buffer in the order blue, green, red. */
  function Bgra(s: seq<Byte>, p: nat): Pixel
    requires 4 * p + 4 <= |s|
  {
    Pixel(s[4 * p + 2], s[4 * p + 1], s[4 * p], s[4 * p + 3])
  }

  /** The same in the order red, green, blue. */
  function Rgba(s: seq<Byte>, p: nat): Pixel
    requires 4 * p + 4 <= |s|
  {
    Pixel(s[4 * p], s[4 * p + 1], s[4 * p + 2], s[4 * p + 3])
  }

  function Alpha(black: Pixel, white: Pixel): Byte
  {
    255 - (Diff(white.r, black.r) + Diff(white.g, black.g) + Diff(white.b, black.b)) / 3
  }

  function Channel(black: Byte, alpha: Byte): Byte
  {
    if alpha > 0 then Clamp(black * 255 / alpha) else 0
  }

  function Recovered(black: Pixel, white: Pixel): Pixel
  {
    var alpha := Alpha(black, white);
    Pixel(Channel(black.r, alpha), Channel(black.g, alpha), Channel(black.b, alpha), alpha)
  }

  /** externalOpenerPNGFromBGRAComposites up to the encoding: the buffer of the image. */
  method FromComposites(black: seq<Byte>, white: seq<Byte>, width: int, height: int) returns (pix: Option<array<Byte>>)
    ensures pix.None? <==> width <= 0 || height <= 0 || |black| != width * height * 4 || |white| != |black|
    ensures pix.Some? ==> fresh(pix.value) && pix.value.Length == |black| == |white|
    ensures pix.Some? ==> forall p :: 0 <= p && 4 * p + 4 <= |black| ==>
              Rgba(pix.value[..], p) == Recovered(Bgra(black, p), Bgra(white, p))
  {
    if width <= 0 || height <= 0 || |black| != width * height * 4 || |white| != |black| {
      return None;
    }
    var out := new Byte[|black|](_ => 0);
    WholePixels(|black|, width, height);
    FillPixels(out, black, white);
    return Some(out);
  }

  /** The loop over the pixels of a buffer that is still zero. */
  method FillPixels(pix: array<Byte>, black: seq<Byte>, white: seq<Byte>)
    requires pix.Length == |black| == |white| && |black| % 4 == 0
    requires forall k :: 0 <= k < pix.Length ==> pix[k] == 0
    modifies pix
    ensures Done(pix[..], black, white, |black| / 4)
  {
    ghost var n := 0;
    var source := 0;
    while source < |black|
      invariant source == 4 * n <= |black|
      invariant Done(pix[..], black, white, n)
      invariant forall k :: source <= k < |black| ==> pix[k] == 0
    {
      ghost var before := pix[..];
      var blackB, blackG, blackR := black[source], black[source + 1], black[source + 2];
      var whiteB, whiteG, whiteR := white[source], white[source + 1], white[source + 2];
      var alpha := 255 - (Diff(whiteR, blackR) + Diff(whiteG, blackG) + Diff(whiteB, blackB)) / 3;
      var destination := source;
      if alpha > 0 {
        pix[destination] := Clamp(blackR * 255 / alpha);
        pix[destination + 1] := Clamp(blackG * 255 / alpha);
        pix[destination + 2] := Clamp(blackB * 255 / alpha);
      }
      pix[destination + 3] := alpha;
      DoneStep(before, pix[..], black, white, n);
      n := n + 1;
      source := source + 4;
    }
  }

  lemma WholePixels(length: nat, width: nat, height: nat)
    requires length == width * height * 4
    ensures length % 4 == 0
  {
  }

  /** The first n pixels are recovered. */
  ghost predicate Done(pix: seq<Byte>, black: seq<Byte>, white: seq<Byte>, n: nat)
    requires 4 * n <= |pix| == |black| == |white|
  {
    forall p :: 0 <= p < n ==> Rgba(pix, p) == Recovered(Bgra(black, p), Bgra(white, p))
  }

  lemma DoneStep(before: seq<Byte>, after: seq<Byte>, black: seq<Byte>, white: seq<Byte>, n: nat)
    requires 4 * n + 4 <= |before| == |after| == |black| == |white|
    requires Done(before, black, white, n) && Rgba(after, n) == Recovered(Bgra(black, n), Bgra(white, n))
    requires forall k :: 0 <= k < 4 * n ==> after[k] == before[k]
    ensures Done(after, black, white, n + 1)
  {
    forall p | 0 <= p < n ensures Rgba(after, p) == Recovered(Bgra(black, p), Bgra(white, p)) {
      assert Rgba(after, p) == Rgba(before, p);
    }
  }

  // ---- What comes back ----

  /** A channel drawn with transparency over black, in whole numbers, and over white. */
  predicate Drawn(c: Byte, a: Byte, black: Byte, white: Byte)
  {
    black == c * a / 255 && white == black + 255 - a
  }

  predicate Composite(original: Pixel, black: Pixel, white: Pixel)
  {
    && Drawn(original.r, original.a, black.r, white.r)
    && Drawn(original.g, original.a, black.g, white.g)
    && Drawn(original.b, original.a, black.b, white.b)
  }

  /** A recovered channel is never too bright, and too dark by at most (253 + a) / a. */
  predicate Near(c: Byte, a: Byte, v: Byte)
  {
    v <= c && a * (c - v) <= 253 + a
  }

  lemma DrawnFits(c: Byte, a: Byte)
    ensures 0 <= c * a / 255 <= a
  {
    assert c * a <= 255 * a;
  }

  lemma ChannelIsNear(c: Byte, a: Byte)
    requires a > 0
    ensures 0 <= c * a / 255 <= 255 && Near(c, a, Channel(c * a / 255, a))
  {
    DrawnFits(c, a);
    var product := c * a;
    var black := product / 255;
    assert product - 254 <= 255 * black <= product;
    var v := black * 255 / a;
    QuotientBounds(black * 255, a);
    assert a * v <= c * a;
    assert v <= c by {
      AtMost(v, c, a);
    }
    assert a * (c - v) == c * a - a * v;
  }

  lemma QuotientBounds(n: nat, d: nat)
    requires d > 0
    ensures n - d + 1 <= d * (n / d) <= n
  {
    assert n == d * (n / d) + n % d;
  }

  lemma AtMost(x: int, y: int, a: int)
    requires a > 0 && a * x <= y * a
    ensures x <= y
  {
    assert a * (x - y) == a * x - y * a;
    assert x - y > 0 ==> a * (x - y) > 0;
  }

  /** Transparency comes back exactly; if the pixel is not fully transparent, each colour
      comes back within its bound. */
  lemma PixelComesBack(original: Pixel, black: Pixel, white: Pixel)
    requires Composite(original, black, white)
    ensures var v := Recovered(black, white);
            && v.a == original.a
            && (original.a > 0 ==> Near(original.r, v.a, v.r) && Near(original.g, v.a, v.g))
            && (original.a > 0 ==> Near(original.b, v.a, v.b))
            && (original.a == 0 ==> v == Pixel(0, 0, 0, 0))
  {
    var a := original.a;
    assert Diff(white.r, black.r) == 255 - a && Diff(white.g, black.g) == 255 - a && Diff(white.b, black.b) == 255 - a;
    assert Alpha(black, white) == a;
    if a > 0 {
      ChannelIsNear(original.r, a);
      ChannelIsNear(original.g, a);
      ChannelIsNear(original.b, a);
    }
  }

  /** An opaque pixel comes back as it was. */
  lemma OpaqueComesBack(original: Pixel, black: Pixel, white: Pixel)
    requires Composite(original, black, white) && original.a == 255
    ensures Recovered(black, white) == original
  {
    PixelComesBack(original, black, white);
    assert forall c: Byte :: c * 255 / 255 == c;
  }

  /** The bound is met, by the brightest colour lost on a nearly transparent pixel. */
  lemma BoundIsMet()
    ensures var v := Channel(254 * 1 / 255, 1); Near(254, 1, v) && 1 * (254 - v) == 253 + 1
  {
  }

  /** The whole image: every pixel of the buffer comes back so. */
  lemma ImageComesBack(original: seq<Byte>, black: seq<Byte>, white: seq<Byte>, pix: seq<Byte>, p: nat)
    requires |original| == |black| == |white| == |pix| && 4 * p + 4 <= |pix|
    requires forall q :: 0 <= q && 4 * q + 4 <= |pix| ==> Composite(Rgba(original, q), Bgra(black, q), Bgra(white, q))
    requires forall q :: 0 <= q && 4 * q + 4 <= |pix| ==> Rgba(pix, q) == Recovered(Bgra(black, q), Bgra(white, q))
    ensures var o, v := Rgba(original, p), Rgba(pix, p);
            v.a == o.a && (o.a > 0 ==> Near(o.r, o.a, v.r) && Near(o.g, o.a, v.g) && Near(o.b, o.a, v.b))
  {
    assert Composite(Rgba(original, p), Bgra(black, p), Bgra(white, p));
    PixelComesBack(Rgba(original, p), Bgra(black, p), Bgra(white, p));
  }

  // ---- What any two drawings give ----

  /** How much lighter one byte is than the other. */
  function Lighter(light: Byte, dark: Byte): nat
  {
    if light > dark then light - dark else 0
  }

  /** Opacity falls by a third of how much lighter the three channels are together, rounded
      down. */
  lemma AlphaAverages(black: Pixel, white: Pixel)
    ensures var v := Recovered(black, white);
            var lighter := Lighter(white.r, black.r) + Lighter(white.g, black.g) + Lighter(white.b, black.b);
            3 * (255 - v.a) <= lighter < 3 * (255 - v.a) + 3
  {
  }

  /** v is black scaled up by 255 over a, rounded down and cut off at 255. */
  predicate Scaled(black: Byte, a: Byte, v: Byte)
    requires a > 0
  {
    && a * v <= 255 * black
    && (v < 255 ==> 255 * black < a * v + a)
  }

  lemma ChannelScales(black: Byte, a: Byte)
    requires a > 0
    ensures Scaled(black, a, Channel(black, a))
  {
    var n := black * 255;
    QuotientBounds(n, a);
    var q := n / a;
    if q > 255 {
      assert a * q == a * 255 + a * (q - 255);
    }
  }

  /** Each channel is scaled up from the drawing over black, unless nothing is opaque. */
  lemma ChannelsScale(black: Pixel, white: Pixel)
    ensures var v := Recovered(black, white);
            && (v.a == 0 ==> v.r == 0 && v.g == 0 && v.b == 0)
            && (v.a > 0 ==> Scaled(black.r, v.a, v.r) && Scaled(black.g, v.a, v.g) && Scaled(black.b, v.a, v.b))
  {
    var a := Alpha(black, white);
    if a > 0 {
      ChannelScales(black.r, a);
      ChannelScales(black.g, a);
      ChannelScales(black.b, a);
    }
  }
}
