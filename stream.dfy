/**
 * The magnify-and-crop arithmetic of StreamBase::prepareImage.
 *
 * A stream is shown at `scale` percent and zoomed in by `zoom` percent; the
 * product, divided by the scale base, is the magnification `mag`.  When the
 * magnified (virtual) image is larger than what is displayed, a window of the
 * displayed size is cut out of it around the point the viewer last clicked.
 * The window is remembered between calls (a function-level static in the
 * source) and recomputed only when the magnification or the click moved.
 * Scaling and cropping the pixels themselves is left to the image class; the
 * model says whether each happens and which window is used.
 */
module Stream {
  import opened CArith

  /** ZM_SCALE_BASE: 100 means 100 percent. */
  const ScaleBase: int := 100

  /** A crop window, both corners inclusive. */
  datatype Box = Box(loX: int, loY: int, hiX: int, hiY: int)

  /** What `Box()` constructs: the empty window at the origin. */
  const EmptyBox: Box := Box(0, 0, 0, 0)

  /** `(scale * zoom) / ZM_SCALE_BASE`. */
  function Magnification(scale: int, zoom: int): (m: int)
    ensures scale >= 0 && zoom >= 0 ==> m >= 0
    ensures scale >= 0 && zoom == ScaleBase ==> m == scale
  {
    MagnificationFacts(scale, zoom);
    CDiv(scale * zoom, ScaleBase)
  }

  /** The facts behind Magnification's contract. */
  lemma MagnificationFacts(scale: int, zoom: int)
    ensures scale >= 0 && zoom >= 0 ==> CDiv(scale * zoom, ScaleBase) >= 0
    ensures scale >= 0 && zoom == ScaleBase ==> CDiv(scale * zoom, ScaleBase) == scale
  {
    if scale >= 0 && zoom >= 0 {
      MulNonNegative(scale, zoom);
    }
    if scale >= 0 && zoom == ScaleBase {
      CDivExact(scale, ScaleBase);
    }
  }

  /** A base length multiplied by a percentage factor, as `(len * factor) / ZM_SCALE_BASE`. */
  function Scaled(len: int, factor: int): int
  {
    CDiv(len * factor, ScaleBase)
  }

  /**
   * The clamp along one axis: centre a window of `send` pixels on `click`,
   * push it right if it starts before 0, then push it left if it ends past
   * the last pixel of an image `act` pixels wide.  The result is (lo, hi).
   */
  function ClampSpan(click: int, send: int, act: int): (span: (int, int))
    ensures span.1 - span.0 == send - 1
    ensures span.1 <= act - 1
    ensures send <= act ==> span.0 >= 0
    ensures click - CDiv(send, 2) >= 0 && click - CDiv(send, 2) + send - 1 < act ==>
              span.0 == click - CDiv(send, 2)
  {
    var lo := click - CDiv(send, 2);
    var lo' := if lo < 0 then 0 else lo;
    var hi := lo' + (send - 1);
    if hi >= act then (act - 1 - (send - 1), act - 1) else (lo', hi)
  }

  /**
   * The recomputation of the crop window from the previous window `prev`
   * and the click (x, y): the click is turned into percentages of the
   * previous image, then into pixels of the current one, and the window is
   * clamped around it.
   */
  function CropBox(prev: Box, x: int, y: int,
                   lastActW: int, lastVirtW: int, lastActH: int, lastVirtH: int,
                   actW: int, actH: int, sendW: int, sendH: int): (b: Box)
    requires lastActW != 0 && lastVirtW != 0 && lastActH != 0 && lastVirtH != 0
    ensures b.hiX - b.loX == sendW - 1 && b.hiY - b.loY == sendH - 1
    ensures b.hiX <= actW - 1 && b.hiY <= actH - 1
    ensures sendW <= actW ==> b.loX >= 0
    ensures sendH <= actH ==> b.loY >= 0
  {
    var pctX := CDiv(prev.loX * 100, lastActW) + CDiv(x * 100, lastVirtW);
    var pctY := CDiv(prev.loY * 100, lastActH) + CDiv(y * 100, lastVirtH);
    var clickX := CDiv(pctX * actW, 100);
    var clickY := CDiv(pctY * actH, 100);
    var spanX := ClampSpan(clickX, sendW, actW);
    var spanY := ClampSpan(clickY, sendH, actH);
    Box(spanX.0, spanY.0, spanX.1, spanY.1)
  }

  /** `last_act_mag`: unlike the current magnification, the previous one is capped at the scale base. */
  function CappedMagnification(mag: int): int
  {
    if mag > ScaleBase then ScaleBase else mag
  }

  /** Whether an image of this size shown at `scale` and magnified by `mag` is cropped (line 198, line 204). */
  predicate IsCropped(width: int, height: int, scale: int, mag: int): (c: bool)
    ensures width >= 0 && height >= 0 && 0 <= mag <= scale ==> !c
  {
    NotMagnifiedFacts(width, height, scale, mag);
    Scaled(width, scale) < Scaled(width, mag) || Scaled(height, scale) < Scaled(height, mag)
  }

  /** An image magnified no more than it is shown fits the display on both axes. */
  lemma NotMagnifiedFacts(width: int, height: int, scale: int, mag: int)
    ensures width >= 0 && height >= 0 && 0 <= mag <= scale ==>
              Scaled(width, mag) <= Scaled(width, scale) && Scaled(height, mag) <= Scaled(height, scale)
  {
    if width >= 0 && height >= 0 && 0 <= mag <= scale {
      ScaledMonotone(width, mag, scale);
      ScaledMonotone(height, mag, scale);
    }
  }

  /** The divisors of lines 208-211 (the previous actual and virtual sizes) are non-zero. */
  predicate CropDivisorsNonZero(width: int, height: int, lastScale: int, lastZoom: int)
  {
    var lastMag := Magnification(lastScale, lastZoom);
    var lastActMag := CappedMagnification(lastMag);
    Scaled(width, lastActMag) != 0 && Scaled(width, lastMag) != 0 &&
    Scaled(height, lastActMag) != 0 && Scaled(height, lastMag) != 0
  }

  /**
   * The window prepareImage computes for an image of `width` x `height`
   * shown at (scale, zoom) after one shown at (lastScale, lastZoom), from the
   * previous window `prev` (already reset when the previous image was not
   * cropped) and the click (x, y).
   */
  function CropFor(prev: Box, x: int, y: int, width: int, height: int,
                   scale: int, zoom: int, lastScale: int, lastZoom: int): (b: Box)
    requires Magnification(scale, zoom) != 0
    requires CropDivisorsNonZero(width, height, lastScale, lastZoom)
    ensures var mag := Magnification(scale, zoom);
            b.hiX <= Scaled(width, mag) - 1 && b.hiY <= Scaled(height, mag) - 1
    ensures width >= 0 && height >= 0 && scale >= 0 && Magnification(scale, zoom) > 0 ==>
              b.hiX - b.loX == Scaled(width, scale) - 1 && b.hiY - b.loY == Scaled(height, scale) - 1
  {
    SendSizeFacts(width, scale, Magnification(scale, zoom));
    SendSizeFacts(height, scale, Magnification(scale, zoom));
    var mag := Magnification(scale, zoom);
    var lastMag := Magnification(lastScale, lastZoom);
    var lastActMag := CappedMagnification(lastMag);
    // optimisedScaling is false, so the actual magnification is mag itself
    CropBox(prev, x, y,
            Scaled(width, lastActMag), Scaled(width, lastMag),
            Scaled(height, lastActMag), Scaled(height, lastMag),
            Scaled(width, mag), Scaled(height, mag),
            CDiv(Scaled(width, scale) * mag, mag), CDiv(Scaled(height, scale) * mag, mag))
  }

  /** The send size `(disp * act_mag) / mag` is the display size when the magnification is positive. */
  lemma SendSizeFacts(len: int, scale: int, mag: int)
    ensures len >= 0 && scale >= 0 && mag > 0 ==> CDiv(Scaled(len, scale) * mag, mag) == Scaled(len, scale)
  {
    if len >= 0 && scale >= 0 && mag > 0 {
      MulNonNegative(len, scale);
      CDivExact(Scaled(len, scale), mag);
    }
  }

  /** Dividing by ZM_SCALE_BASE is monotone on the values prepareImage divides. */
  lemma ScaledMonotone(len: int, f: int, g: int)
    requires len >= 0 && 0 <= f <= g
    ensures 0 <= Scaled(len, f) <= Scaled(len, g)
  {
    assert len * f <= len * g by {
      assert len * (g - f) >= 0;
    }
    CDivNonNegative(len * f, ScaleBase);
    CDivNonNegative(len * g, ScaleBase);
  }

  /** A zoom of at least 100 % magnifies at least as much as the scale alone. */
  lemma MagnificationAtLeastScale(scale: int, zoom: int)
    requires scale >= 0 && zoom >= ScaleBase
    ensures Magnification(scale, zoom) >= scale
  {
    assert scale * zoom >= scale * ScaleBase by {
      assert scale * (zoom - ScaleBase) >= 0;
    }
    CDivNonNegative(scale * zoom, ScaleBase);
  }

  /** The send size `(disp * act_mag) / mag` is the display size, because `act_mag` is `mag` here. */
  lemma SendIsDisplay(disp: int, mag: int)
    requires disp >= 0 && mag > 0
    ensures CDiv(disp * mag, mag) == disp
  {
    CDivExact(disp, mag);
  }

  /**
   * With a zoom of at least 100 % and a non-negative scale, every crop window
   * prepareImage computes has the displayed size and lies inside the
   * magnified image on both axes.
   */
  lemma {:induction false} CropWindowInsideImage(prev: Box, x: int, y: int, width: int, height: int,
                                                 scale: int, zoom: int, lastScale: int, lastZoom: int)
    requires width >= 0 && height >= 0 && scale >= 0 && zoom >= ScaleBase
    requires Magnification(scale, zoom) > 0
    requires CropDivisorsNonZero(width, height, lastScale, lastZoom)
    ensures var b := CropFor(prev, x, y, width, height, scale, zoom, lastScale, lastZoom);
            var mag := Magnification(scale, zoom);
            && b.hiX - b.loX == Scaled(width, scale) - 1 && b.hiY - b.loY == Scaled(height, scale) - 1
            && 0 <= b.loX && b.hiX <= Scaled(width, mag) - 1
            && 0 <= b.loY && b.hiY <= Scaled(height, mag) - 1
  {
    var mag := Magnification(scale, zoom);
    MagnificationAtLeastScale(scale, zoom);
    ScaledMonotone(width, scale, mag);
    ScaledMonotone(height, scale, mag);
    SendIsDisplay(Scaled(width, scale), mag);
    SendIsDisplay(Scaled(height, scale), mag);
  }

  /**
   * The state prepareImage reads and writes: the current view (scale, zoom
   * and click point), the view it last prepared (`last_*`) and the
   * remembered crop window.
   */
  class StreamBase {
    var scale: int
    var zoom: int
    var x: int
    var y: int
    var lastScale: int
    var lastZoom: int
    var lastX: int
    var lastY: int
    /**
     * The function-level static `last_crop`, shared by every call of every
     * stream in the process; keeping it here assumes one stream per process.
     */
    var lastCrop: Box

    constructor (scale: int, zoom: int, x: int, y: int)
      ensures this.scale == scale && this.zoom == zoom && this.x == x && this.y == y
      ensures lastScale == scale && lastZoom == zoom && lastX == x && lastY == y
      ensures lastCrop == EmptyBox
    {
      this.scale, this.zoom, this.x, this.y := scale, zoom, x, y;
      lastScale, lastZoom, lastX, lastY := scale, zoom, x, y;
      lastCrop := EmptyBox;
    }

    /** Whether this call recomputes the crop window (lines 198 and 201). */
    predicate RecomputesCrop(width: int, height: int)
      reads this
    {
      var mag := Magnification(scale, zoom);
      IsCropped(width, height, scale, mag) &&
      (mag != Magnification(lastScale, lastZoom) || x != lastX || y != lastY)
    }

    /**
     * Prepares an image of `width` x `height` pixels for sending.  Returns
     * whether it is rescaled, whether it is cropped and the crop window used.
     */
    method PrepareImage(width: int, height: int) returns (rescaled: bool, cropped: bool, crop: Box)
      requires Magnification(scale, zoom) != 0 && Magnification(lastScale, lastZoom) != 0
      requires RecomputesCrop(width, height) ==> CropDivisorsNonZero(width, height, lastScale, lastZoom)
      modifies this
      ensures scale == old(scale) && zoom == old(zoom) && x == old(x) && y == old(y)
      ensures var mag := Magnification(scale, zoom);
              && rescaled == (mag != ScaleBase)
              && cropped == IsCropped(width, height, scale, mag)
      ensures !old(RecomputesCrop(width, height)) ==> lastCrop == old(lastCrop)
      ensures old(RecomputesCrop(width, height)) ==>
                var lastMag := Magnification(old(lastScale), old(lastZoom));
                var prev := if IsCropped(width, height, old(lastScale), lastMag) then old(lastCrop) else EmptyBox;
                lastCrop == CropFor(prev, x, y, width, height, scale, zoom, old(lastScale), old(lastZoom))
      ensures crop == lastCrop
      ensures lastScale == scale && lastZoom == zoom && lastX == x && lastY == y
    {
      // optimisedScaling is false, so the actual magnification is the magnification
      var mag := Magnification(scale, zoom);
      var actMag := mag;
      var lastMag := Magnification(lastScale, lastZoom);
      var virtW, virtH := Scaled(width, mag), Scaled(height, mag);
      var lastVirtW, lastVirtH := Scaled(width, lastMag), Scaled(height, lastMag);
      var dispW, dispH := Scaled(width, scale), Scaled(height, scale);
      var lastDispW, lastDispH := Scaled(width, lastScale), Scaled(height, lastScale);

      rescaled := mag != ScaleBase && actMag != ScaleBase;

      cropped := dispW < virtW || dispH < virtH;
      if cropped {
        if mag != lastMag || x != lastX || y != lastY {
          // the previous window counts only if the previous image was cropped
          var prev := if lastDispW < lastVirtW || lastDispH < lastVirtH then lastCrop else EmptyBox;
          lastCrop := CropFor(prev, x, y, width, height, scale, zoom, lastScale, lastZoom);
        }
      }
      crop := lastCrop;

      lastScale := scale;
      lastZoom := zoom;
      lastX := x;
      lastY := y;
    }
  }
}
