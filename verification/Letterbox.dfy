/** Letterboxing over exact rationals: the window on the square canvas, and how far a point can
    move when it is placed on the canvas and mapped back. */
module Letterbox {
  import opened Suppression
  import opened Detections

  type Pixel = (nat, nat, nat)

  /** Nearest integer, halves to the even one. */
  function Round(x: real): int {
    var d := x - x.Floor as real;
    if d < 0.5 then x.Floor
    else if d > 0.5 then x.Floor + 1
    else if x.Floor % 2 == 0 then x.Floor else x.Floor + 1
  }

  lemma RoundIsNear(x: real)
    ensures Round(x) as real - 0.5 <= x <= Round(x) as real + 0.5
  {
  }

  /** Rounding is to the nearest integer, and of two equally near ones to the even one. */
  lemma RoundsTo(x: real, n: int)
    ensures Round(x) == n <==>
      || (n as real - 0.5 < x < n as real + 0.5)
      || ((x == n as real - 0.5 || x == n as real + 0.5) && n % 2 == 0)
  {
    var f := x.Floor;
    assert f as real <= x < f as real + 1.0;
    if x == n as real + 0.5 {
      assert f == n;
    } else if x == n as real - 0.5 {
      assert f == n - 1;
    }
  }

  lemma RoundMonotone(x: real, n: int)
    ensures x <= n as real ==> Round(x) <= n
    ensures x >= n as real ==> Round(x) >= n
  {
  }

  function Gain(origW: nat, origH: nat, size: nat): real
    requires origW > 0 && origH > 0
  {
    MinR(size as real / origH as real, size as real / origW as real)
  }

  function Scaled(orig: nat, gain: real): int { Round(orig as real * gain) }

  function Pad(size: nat, scaled: int): real { (size - scaled) as real / 2.0 }

  function Offset(size: nat, scaled: int): int { Round(Pad(size, scaled) - 0.1) }

  lemma DivTimes(s: real, w: real)
    requires w > 0.0
    ensures s / w * w == s
    ensures s >= 0.0 ==> s / w >= 0.0
    ensures s > 0.0 ==> s / w > 0.0
  {
  }

  lemma ScaleLe(k: real, a: real, b: real)
    requires k >= 0.0 && a <= b
    ensures k * a <= k * b
  {
    assert k * (b - a) >= 0.0;
  }

  /** The gain is a factor that makes both sides fit. */
  lemma GainFits(origW: nat, origH: nat, size: nat)
    requires origW > 0 && origH > 0
    ensures var g := Gain(origW, origH, size);
      && g >= 0.0 && (size > 0 ==> g > 0.0)
      && origW as real * g <= size as real && origH as real * g <= size as real
  {
    var w, h, s := origW as real, origH as real, size as real;
    var a, b := s / h, s / w;
    DivTimes(s, h);
    DivTimes(s, w);
    if a <= b {
      ScaleLe(w, a, b);
    } else {
      ScaleLe(h, b, a);
    }
  }

  lemma HeightFills(origW: nat, origH: nat, size: nat)
    requires 0 < origW <= origH
    ensures origH as real * Gain(origW, origH, size) == size as real
  {
    LongerSideDecides(size as real, origW as real, origH as real);
    DivTimes(size as real, origH as real);
  }

  /** And the largest such factor: the longer side, whichever it is, fills the canvas. */
  lemma LongerSideFills(origW: nat, origH: nat, size: nat)
    requires origW > 0 && origH > 0
    ensures (if origW <= origH then origH else origW) as real * Gain(origW, origH, size) == size as real
  {
    if origW <= origH {
      HeightFills(origW, origH, size);
    } else {
      HeightFills(origH, origW, size);
      GainSymmetric(origW, origH, size);
    }
  }

  lemma GainSymmetric(origW: nat, origH: nat, size: nat)
    requires origW > 0 && origH > 0
    ensures Gain(origW, origH, size) == Gain(origH, origW, size)
  {
  }

  lemma LongerSideDecides(s: real, w: real, h: real)
    requires 0.0 < w <= h && s >= 0.0
    ensures s / h <= s / w
  {
    DivTimes(s, h);
    DivTimes(s, w);
    ScaleLe(s / h, w, h);
    assert (s / w - s / h) * w >= 0.0;
  }

  /** A scaled side fits the canvas. */
  lemma ScaledFits(orig: nat, gain: real, size: nat)
    requires gain >= 0.0 && orig as real * gain <= size as real
    ensures 0 <= Scaled(orig, gain) <= size
  {
    var x := orig as real * gain;
    ScaleLe(orig as real, 0.0, gain);
    RoundMonotone(x, 0);
    RoundMonotone(x, size);
  }

  lemma SidesFit(origW: nat, origH: nat, size: nat)
    requires origW > 0 && origH > 0
    ensures 0 <= Scaled(origW, Gain(origW, origH, size)) <= size && 0 <= Scaled(origH, Gain(origW, origH, size)) <= size
  {
    GainFits(origW, origH, size);
    ScaledFits(origW, Gain(origW, origH, size), size);
    ScaledFits(origH, Gain(origW, origH, size), size);
  }

  /** The window lies on the canvas, centred up to the floor of a half pixel. */
  lemma WindowInside(size: nat, scaled: int)
    requires 0 <= scaled <= size
    ensures Offset(size, scaled) == (size - scaled) / 2
    ensures 0 <= Offset(size, scaled) && Offset(size, scaled) + scaled <= size
  {
    var n := size - scaled;
    assert n == 2 * (n / 2) + n % 2;
    assert Pad(size, scaled) == (n / 2) as real + (n % 2) as real / 2.0;
    var x := Pad(size, scaled) - 0.1;
    if n % 2 == 0 {
      assert (n / 2 - 1) as real <= x < (n / 2) as real;
      assert x.Floor == n / 2 - 1;
    } else {
      assert (n / 2) as real <= x < (n / 2 + 1) as real;
      assert x.Floor == n / 2;
    }
  }

  /** A side is scaled by the gain and rounded; the two pads fill up what is left, one half each. */
  lemma PadsFillUp(orig: nat, gain: real, size: nat)
    ensures Scaled(orig, gain) == Round(orig as real * gain)
    ensures Pad(size, Scaled(orig, gain)) + Pad(size, Scaled(orig, gain)) + Scaled(orig, gain) as real == size as real
  {
  }

  datatype Outcome = Boxed(meta: LetterboxMeta) | EmptyImage | EmptyResize

  /** Pastes an image on the canvas. */
  method Paste(canvas: array2<Pixel>, pixels: (int, int) -> Pixel, top: nat, left: nat, height: nat, width: nat)
    requires top + height <= canvas.Length0 && left + width <= canvas.Length1
    modifies canvas
    ensures forall y, x :: 0 <= y < height && 0 <= x < width ==> canvas[top + y, left + x] == pixels(y, x)
    ensures forall y, x :: 0 <= y < canvas.Length0 && 0 <= x < canvas.Length1
                           && !(top <= y < top + height && left <= x < left + width) ==>
      canvas[y, x] == old(canvas[y, x])
  {
    forall y, x | top <= y < top + height && left <= x < left + width {
      canvas[y, x] := pixels(y - top, x - left);
    }
  }

  /** The canvas an image of `newW` by `newH` pixels ends up on. */
  ghost predicate IsBoxed(canvas: array2<Pixel>, size: nat, color: Pixel, newH: int, newW: int,
                          pixels: (int, int) -> Pixel)
    requires canvas.Length0 == size && canvas.Length1 == size
    reads canvas
  {
    var left, top := (size - newW) / 2, (size - newH) / 2;
    && 0 <= left && 0 <= newW && left + newW <= size && 0 <= top && 0 <= newH && top + newH <= size
    && (forall y, x :: 0 <= y < newH && 0 <= x < newW ==> canvas[top + y, left + x] == pixels(y, x))
    && (forall y, x :: 0 <= y < size && 0 <= x < size && !(top <= y < top + newH && left <= x < left + newW) ==>
          canvas[y, x] == color)
  }

  /** A canvas of one colour with an image centred on it. */
  method CentredOnCanvas(size: nat, color: Pixel, newH: nat, newW: nat, pixels: (int, int) -> Pixel)
    returns (canvas: array2<Pixel>)
    requires newH <= size && newW <= size
    ensures fresh(canvas) && canvas.Length0 == size && canvas.Length1 == size
    ensures IsBoxed(canvas, size, color, newH, newW, pixels)
  {
    canvas := new Pixel[size, size]((i, j) => color);
    var left, top := Offset(size, newW), Offset(size, newH);
    WindowInside(size, newW);
    WindowInside(size, newH);
    Paste(canvas, pixels, top, left, newH, newW);
  }

  /** `resized(h, w)` is the foreign resize: its pixels by row and column. */
  method Letterbox(origH: nat, origW: nat, resized: (int, int) -> (int, int) -> Pixel, size: nat, color: Pixel)
    returns (r: Outcome, canvas: array2<Pixel>)
    ensures r.EmptyImage? <==> origW == 0 || origH == 0
    ensures r.EmptyResize? ==>
      Scaled(origW, Gain(origW, origH, size)) == 0 || Scaled(origH, Gain(origW, origH, size)) == 0
    ensures r.Boxed? ==>
      var g := Gain(origW, origH, size);
      var newW, newH := Scaled(origW, g), Scaled(origH, g);
      && newW > 0 && newH > 0 && canvas.Length0 == size && canvas.Length1 == size
      && r.meta == LetterboxMeta(g, Pad(size, newW), Pad(size, newH), origW, origH)
      && IsBoxed(canvas, size, color, newH, newW, resized(newH, newW))
  {
    canvas := new Pixel[0, 0];
    if origW == 0 || origH == 0 {
      return EmptyImage, canvas;
    }
    var gain := Gain(origW, origH, size);
    var newW, newH := Scaled(origW, gain), Scaled(origH, gain);
    if newW == 0 || newH == 0 {
      return EmptyResize, canvas;
    }
    SidesFit(origW, origH, size);
    var pixels := resized(newH, newW);
    canvas := CentredOnCanvas(size, color, newH, newW, pixels);
    r := Boxed(LetterboxMeta(gain, Pad(size, newW), Pad(size, newH), origW, origH));
  }

  lemma RoundsToZeroIff(x: real)
    requires x >= 0.0
    ensures Round(x) == 0 <==> x <= 0.5
  {
    if x < 1.0 {
      assert x.Floor == 0;
    }
  }

  /** Exactly when an image is too thin for the canvas, so that the resize is asked for a side of
      zero pixels. The longer side always fills the canvas. */
  lemma ResizeFailsIff(origW: nat, origH: nat, size: nat)
    requires 0 < origW <= origH && size > 0
    ensures Scaled(origW, Gain(origW, origH, size)) == 0 <==> 2 * (size * origW) <= origH
    ensures Scaled(origH, Gain(origW, origH, size)) == size
    ensures Gain(origH, origW, size) == Gain(origW, origH, size)
  {
    GainSymmetric(origW, origH, size);
    HeightIsSize(origW, origH, size);
    WidthVanishesIff(origW, origH, size);
  }

  lemma HeightIsSize(origW: nat, origH: nat, size: nat)
    requires 0 < origW <= origH && size > 0
    ensures Scaled(origH, Gain(origW, origH, size)) == size
  {
    HeightFills(origW, origH, size);
    RoundMonotone(origH as real * Gain(origW, origH, size), size);
  }

  lemma WidthVanishesIff(origW: nat, origH: nat, size: nat)
    requires 0 < origW <= origH && size > 0
    ensures Scaled(origW, Gain(origW, origH, size)) == 0 <==> 2 * (size * origW) <= origH
  {
    GainFits(origW, origH, size);
    HeightFills(origW, origH, size);
    ThinSideIff(origW, origW as real, origH as real, size as real, Gain(origW, origH, size));
    AsReals(size, origW, origH);
  }

  lemma ThinSideIff(origW: nat, w: real, h: real, s: real, g: real)
    requires w == origW as real && h > 0.0 && g > 0.0 && h * g == s
    ensures Scaled(origW, g) == 0 <==> 2.0 * (w * s) <= h
  {
    ScaleLe(w, 0.0, g);
    RoundsToZeroIff(w * g);
    ThinIff(w, h, s, g);
  }

  lemma AsReals(size: nat, origW: nat, origH: nat)
    ensures 2 * (size * origW) <= origH <==> 2.0 * (origW as real * size as real) <= origH as real
  {
    assert (size * origW) as real == origW as real * size as real;
  }

  lemma ThinIff(w: real, h: real, s: real, g: real)
    requires h > 0.0 && h * g == s
    ensures w * g <= 0.5 <==> 2.0 * (w * s) <= h
  {
    var x := w * g;
    assert x * h == w * s;
    if x <= 0.5 {
      ScaleLe(h, x, 0.5);
    } else {
      assert h * (x - 0.5) > 0.0;
    }
  }

  function Share(x: real, n: real, w: real): real
    requires w > 0.0
  {
    x * (n / w)
  }

  /** Where a point of the original lands on the canvas, along one axis. */
  function Place(x: real, orig: nat, scaled: int, size: nat): real
    requires orig > 0
  {
    Share(x, scaled as real, orig as real) + Offset(size, scaled) as real
  }

  function MapBack(b: real, pad: real, gain: real): real
    requires gain != 0.0
  {
    (b - pad) / gain
  }

  /** The offset falls short of the true half pad by at most half a pixel. */
  lemma OffsetIsNear(size: nat, scaled: int)
    requires 0 <= scaled <= size
    ensures 0.0 <= Offset(size, scaled) as real - Pad(size, scaled) + 0.5
    ensures Offset(size, scaled) as real <= Pad(size, scaled)
  {
    WindowInside(size, scaled);
    var n := size - scaled;
    assert n == 2 * (n / 2) + n % 2;
  }

  lemma ShareAtMostHalf(t: real, e: real)
    requires 0.0 <= t <= 1.0 && e <= 0.5
    ensures t * e <= 0.5
  {
    ScaleLe(t, e, 0.5);
    assert t * 0.5 <= 0.5;
  }

  lemma ShareAtLeastMinusHalf(t: real, e: real)
    requires 0.0 <= t <= 1.0 && 0.0 <= e + 0.5
    ensures 0.0 <= t * e + 0.5
  {
    ScaleLe(t, 0.0, e + 0.5);
    assert t * (e + 0.5) == t * e + t * 0.5;
    assert t * 0.5 <= 0.5;
  }

  lemma ShareAtMostOne(x: real, w: real)
    requires w > 0.0 && 0.0 <= x <= w
    ensures 0.0 <= x / w <= 1.0
  {
    DivTimes(x, w);
    assert (1.0 - x / w) * w >= 0.0;
  }

  /** A share x/w of the scaled side n, against the exact x * gain. */
  lemma ShareIsNear(x: real, w: real, n: real, gain: real)
    requires w > 0.0 && 0.0 <= x <= w
    requires n - w * gain <= 0.5 && 0.0 <= n - w * gain + 0.5
    ensures Share(x, n, w) <= x * gain + 0.5 && x * gain <= Share(x, n, w) + 0.5
  {
    var e, t := n - w * gain, x / w;
    DivTimes(x, w);
    DivTimes(n, w);
    ShareAtMostOne(x, w);
    ShareAtMostHalf(t, e);
    ShareAtLeastMinusHalf(t, e);
    assert t * n == t * (w * gain) + t * e;
    assert t * (w * gain) == (t * w) * gain == x * gain;
    assert t * n == t * (n / w * w) == x * (n / w);
  }

  /** On the canvas, the point is off its exact place by what the two roundings add up to. */
  lemma PlacedNear(x: real, orig: nat, gain: real, size: nat)
    requires orig > 0 && 0.0 <= x <= orig as real
    requires 0 <= Scaled(orig, gain) <= size
    ensures var off := Place(x, orig, Scaled(orig, gain), size) - Pad(size, Scaled(orig, gain)) - x * gain;
      0.0 <= off + 1.0 && off <= 0.5
  {
    RoundIsNear(orig as real * gain);
    OffsetIsNear(size, Scaled(orig, gain));
    ShareIsNear(x, orig as real, Scaled(orig, gain) as real, gain);
  }

  /** Round trip: despite the rounding of the scaled side and of the offset, a point comes back
      to within one canvas pixel, that is 1/gain original pixels. */
  lemma RoundTripBound(x: real, orig: nat, gain: real, size: nat)
    requires orig > 0 && gain > 0.0 && 0.0 <= x <= orig as real
    requires orig as real * gain <= size as real
    ensures var scaled := Scaled(orig, gain);
      var back := MapBack(Place(x, orig, scaled, size), Pad(size, scaled), gain);
      x - 1.0 / gain <= back <= x + 0.5 / gain
  {
    ScaledFits(orig, gain, size);
    PlacedNear(x, orig, gain, size);
    var scaled := Scaled(orig, gain);
    DivideBound(Place(x, orig, scaled, size) - Pad(size, scaled), x, gain);
  }

  lemma DivideBound(d: real, x: real, gain: real)
    requires gain > 0.0 && 0.0 <= d - x * gain + 1.0 && d - x * gain <= 0.5
    ensures x - 1.0 / gain <= d / gain <= x + 0.5 / gain
  {
    Divided(d, gain);
    Divided(1.0, gain);
    Divided(0.5, gain);
    QuotientBound(d / gain, 1.0 / gain, 0.5 / gain, d, x, gain);
  }

  lemma QuotientBound(q: real, u: real, v: real, d: real, x: real, gain: real)
    requires gain > 0.0 && 0.0 <= d - x * gain + 1.0 && d - x * gain <= 0.5
    requires q * gain == d && u * gain == 1.0 && v * gain == 0.5
    ensures x - u <= q <= x + v
  {
    Difference(x, u, q, gain);
    Difference(q, x, v, gain);
  }

  /** Comparing differences before and after scaling by a positive gain. */
  lemma Difference(a: real, b: real, c: real, gain: real)
    requires gain > 0.0
    ensures a - b - c > 0.0 ==> a * gain - b * gain - c * gain > 0.0
  {
    assert (a - b - c) * gain == a * gain - b * gain - c * gain;
    Positive(a - b - c, gain);
  }

  lemma Positive(a: real, gain: real)
    requires gain > 0.0
    ensures a > 0.0 ==> a * gain > 0.0
  {
  }

  lemma Divided(a: real, gain: real)
    requires gain > 0.0
    ensures a / gain * gain == a
  {
  }

  predicate Near(a: real, b: real, bound: real) { b - bound <= a <= b + bound }

  /** Cutting to the image does not move a point away from one inside it. */
  lemma ClipKeepsNear(a: real, x: real, hi: nat, bound: real)
    requires 0.0 <= x <= hi as real && Near(a, x, bound) && bound >= 0.0
    ensures Near(Clip(a, hi), x, bound)
  {
  }

  /** One coordinate, letterboxed and decoded. */
  function Returned(x: real, orig: nat, gain: real, size: nat): real
    requires orig > 0 && gain != 0.0
  {
    Clip(MapBack(Place(x, orig, Scaled(orig, gain), size), Pad(size, Scaled(orig, gain)), gain), orig)
  }

  lemma CoordinateRoundTrip(x: real, orig: nat, gain: real, size: nat)
    requires orig > 0 && gain > 0.0 && 0.0 <= x <= orig as real && orig as real * gain <= size as real
    ensures Near(Returned(x, orig, gain, size), x, 1.0 / gain)
  {
    var scaled := Scaled(orig, gain);
    var back := MapBack(Place(x, orig, scaled, size), Pad(size, scaled), gain);
    RoundTripBound(x, orig, gain, size);
    DivTimes(1.0, gain);
    DivTimes(0.5, gain);
    assert 0.5 / gain <= 1.0 / gain by { assert (1.0 / gain - 0.5 / gain) * gain >= 0.0; }
    ClipKeepsNear(back, x, orig, 1.0 / gain);
  }

  /** A box of the original, put on the canvas as the letterbox puts the image. */
  function Placed(b: Box, origW: nat, origH: nat, gain: real, size: nat): Box
    requires origW > 0 && origH > 0
  {
    var newW, newH := Scaled(origW, gain), Scaled(origH, gain);
    Box(Place(b.x1, origW, newW, size), Place(b.y1, origH, newH, size),
        Place(b.x2, origW, newW, size), Place(b.y2, origH, newH, size))
  }

  predicate InImage(b: Box, origW: nat, origH: nat) {
    && 0.0 <= b.x1 <= origW as real && 0.0 <= b.x2 <= origW as real
    && 0.0 <= b.y1 <= origH as real && 0.0 <= b.y2 <= origH as real
  }

  predicate BoxesNear(a: Box, b: Box, bound: real) {
    Near(a.x1, b.x1, bound) && Near(a.x2, b.x2, bound) && Near(a.y1, b.y1, bound) && Near(a.y2, b.y2, bound)
  }

  function MetaOf(origW: nat, origH: nat, gain: real, size: nat): LetterboxMeta {
    LetterboxMeta(gain, Pad(size, Scaled(origW, gain)), Pad(size, Scaled(origH, gain)), origW, origH)
  }

  /** What the detector finds exactly where the object is on the canvas is reported within one
      canvas pixel, 1/gain original pixels, of where it is in the image, in each coordinate. */
  predicate DecodeUndoesPlacing(b: Box, origW: nat, origH: nat, gain: real, size: nat)
    requires origW > 0 && origH > 0
  {
    && gain > 0.0
    && BoxesNear(OnImage(Placed(b, origW, origH, gain, size), MetaOf(origW, origH, gain, size)), b, 1.0 / gain)
  }

  lemma SideReturns(x: real, y: real, orig: nat, gain: real, size: nat)
    requires orig > 0 && gain > 0.0 && orig as real * gain <= size as real
    requires 0.0 <= x <= orig as real && 0.0 <= y <= orig as real
    ensures Near(Returned(x, orig, gain, size), x, 1.0 / gain) && Near(Returned(y, orig, gain, size), y, 1.0 / gain)
  {
    CoordinateRoundTrip(x, orig, gain, size);
    CoordinateRoundTrip(y, orig, gain, size);
  }

  lemma BoxReturns(b: Box, origW: nat, origH: nat, gain: real, size: nat)
    requires origW > 0 && origH > 0 && gain > 0.0 && InImage(b, origW, origH)
    requires origW as real * gain <= size as real && origH as real * gain <= size as real
    ensures BoxesNear(Box(Returned(b.x1, origW, gain, size), Returned(b.y1, origH, gain, size),
                          Returned(b.x2, origW, gain, size), Returned(b.y2, origH, gain, size)), b, 1.0 / gain)
  {
    SideReturns(b.x1, b.x2, origW, gain, size);
    SideReturns(b.y1, b.y2, origH, gain, size);
  }

  lemma DecodeUndoesPlacingWith(b: Box, origW: nat, origH: nat, gain: real, size: nat)
    requires origW > 0 && origH > 0 && gain > 0.0 && InImage(b, origW, origH)
    requires origW as real * gain <= size as real && origH as real * gain <= size as real
    ensures DecodeUndoesPlacing(b, origW, origH, gain, size)
  {
    BoxReturns(b, origW, origH, gain, size);
  }

  /** Letterbox and decode undo each other up to 1/gain, for images of any positive size. */
  lemma DecodeUndoesLetterbox(b: Box, origW: nat, origH: nat, size: nat)
    requires origW > 0 && origH > 0 && size > 0 && InImage(b, origW, origH)
    ensures DecodeUndoesPlacing(b, origW, origH, Gain(origW, origH, size), size)
  {
    GainFits(origW, origH, size);
    DecodeUndoesPlacingWith(b, origW, origH, Gain(origW, origH, size), size);
  }
}
