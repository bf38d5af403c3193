/**
 * The `image_resize_dimensions` filter of the plugin: when WordPress crops
 * one of the plugin's sizes, the stored anchor for that platform decides
 * where in the original the crop window starts.
 *
 * Host inputs are parameters: the size name that the plugin recovers from
 * the call stack (`currentSize`) and the stored option `ssfi_crop_positions`
 * (`positions`).
 */
module CropAnchor {
  import opened Wrappers
  import opened ImageSizes

  /** A stored anchor: the horizontal and the vertical keyword, as free strings. */
  datatype Position = Position(x: string, y: string)

  /**
   * The eight values WordPress expects back from the filter, in its order:
   * destination offset, source offset, destination size, source size.
   */
  datatype Dims = Dims(dstX: int, dstY: int, srcX: int, srcY: int,
                       dstW: int, dstH: int, srcW: int, srcH: int)

  const CenterPosition: Position := Position("center", "center")

  /**
   * The offset on one axis. `nearEdge`/`farEdge` are "left"/"right" for x and
   * "top"/"bottom" for y; any other anchor centres the window, rounding the
   * half excess away from zero, which for a positive excess e is (e + 1) / 2.
   */
  function AxisOffset(orig: int, dest: int, anchor: string, nearEdge: string, farEdge: string): (offset: int)
    ensures orig <= dest ==> offset == 0
    ensures orig > dest ==> 0 <= offset <= orig - dest
  {
    if orig > dest then
      var excess := orig - dest;
      if anchor == nearEdge then 0
      else if anchor == farEdge then excess
      else (excess + 1) / 2
    else 0
  }

  /** The filter rewrites the payload only for a crop of a size that has a stored anchor. */
  predicate CropApplies(crop: bool, currentSize: Option<string>, positions: map<string, Position>) {
    crop && currentSize.Some? && !EmptyString(currentSize.value) && currentSize.value in positions
  }

  /** The anchor the filter reads; meaningful only when `CropApplies`. */
  function StoredPosition(currentSize: Option<string>, positions: map<string, Position>): Position
    requires currentSize.Some? && currentSize.value in positions
  {
    positions[currentSize.value]
  }

  /**
   * `customize_crop_position`, as written: the source size slots carry the
   * original's width and height (see `SourceWindowOverhangs`).
   */
  function CustomizeCropPosition(payload: Option<Dims>, origW: int, origH: int, destW: int, destH: int,
                                 crop: bool, currentSize: Option<string>, positions: map<string, Position>): (r: Option<Dims>)
    ensures !CropApplies(crop, currentSize, positions) ==> r == payload
    ensures CropApplies(crop, currentSize, positions) ==>
      && r.Some?
      && r.value.dstX == 0 && r.value.dstY == 0
      && r.value.dstW == destW && r.value.dstH == destH
      && r.value.srcW == origW && r.value.srcH == origH
      && 0 <= r.value.srcX && (origW > destW ==> r.value.srcX + destW <= origW)
      && 0 <= r.value.srcY && (origH > destH ==> r.value.srcY + destH <= origH)
  {
    if !CropApplies(crop, currentSize, positions) then payload
    else
      var pos := StoredPosition(currentSize, positions);
      var srcX := AxisOffset(origW, destW, pos.x, "left", "right");
      var srcY := AxisOffset(origH, destH, pos.y, "top", "bottom");
      Some(Dims(0, 0, srcX, srcY, destW, destH, origW, origH))
  }

  /** `get_crop_position`: the stored anchor, or centre/centre when none is stored. */
  function GetCropPosition(positions: map<string, Position>, platform: string): (p: Position)
    ensures platform in positions ==> p == positions[platform]
    ensures platform !in positions ==> p.x == "center" && p.y == "center"
  {
    if platform in positions then positions[platform] else CenterPosition
  }

  // ----- Offsets per anchor -----

  /** An axis on which the original is not larger than the target is never offset. */
  lemma NoExcessNoOffset(payload: Option<Dims>, origW: int, origH: int, destW: int, destH: int,
                         currentSize: Option<string>, positions: map<string, Position>)
    requires CropApplies(true, currentSize, positions)
    ensures var r := CustomizeCropPosition(payload, origW, origH, destW, destH, true, currentSize, positions);
      && (origW <= destW ==> r.value.srcX == 0)
      && (origH <= destH ==> r.value.srcY == 0)
  {
  }

  /** "left" and "top" keep the window at the near edge. */
  lemma NearAnchorsGiveZero(payload: Option<Dims>, origW: int, origH: int, destW: int, destH: int,
                            currentSize: Option<string>, positions: map<string, Position>)
    requires CropApplies(true, currentSize, positions)
    ensures var r := CustomizeCropPosition(payload, origW, origH, destW, destH, true, currentSize, positions);
      var pos := positions[currentSize.value];
      && (pos.x == "left" ==> r.value.srcX == 0)
      && (pos.y == "top" ==> r.value.srcY == 0)
  {
  }

  /** "right" and "bottom" push the window against the far edge: the offset is the whole excess. */
  lemma FarAnchorsGiveExcess(payload: Option<Dims>, origW: int, origH: int, destW: int, destH: int,
                             currentSize: Option<string>, positions: map<string, Position>)
    requires CropApplies(true, currentSize, positions)
    ensures var r := CustomizeCropPosition(payload, origW, origH, destW, destH, true, currentSize, positions);
      var pos := positions[currentSize.value];
      && (pos.x == "right" && origW > destW ==> r.value.srcX == origW - destW)
      && (pos.y == "bottom" && origH > destH ==> r.value.srcY == origH - destH)
  {
  }

  /**
   * Every other keyword centres the window: the offset is the half excess
   * rounded up, so the two margins differ by at most one pixel.
   */
  lemma OtherAnchorsCentre(payload: Option<Dims>, origW: int, origH: int, destW: int, destH: int,
                           currentSize: Option<string>, positions: map<string, Position>)
    requires CropApplies(true, currentSize, positions)
    ensures var r := CustomizeCropPosition(payload, origW, origH, destW, destH, true, currentSize, positions);
      var pos := positions[currentSize.value];
      && (pos.x != "left" && pos.x != "right" && origW > destW ==>
            var margin := origW - destW - r.value.srcX;
            2 * r.value.srcX == origW - destW + (origW - destW) % 2 && 0 <= r.value.srcX - margin <= 1)
      && (pos.y != "top" && pos.y != "bottom" && origH > destH ==>
            var margin := origH - destH - r.value.srcY;
            2 * r.value.srcY == origH - destH + (origH - destH) % 2 && 0 <= r.value.srcY - margin <= 1)
  {
  }

  /**
   * Two different stored anchors give results that agree on every slot
   * except the source offsets.
   */
  lemma AnchorsMoveOnlySourceOffsets(payload: Option<Dims>, origW: int, origH: int, destW: int, destH: int,
                                     size: string, positions: map<string, Position>, positions': map<string, Position>)
    requires CropApplies(true, Some(size), positions) && CropApplies(true, Some(size), positions')
    ensures var r := CustomizeCropPosition(payload, origW, origH, destW, destH, true, Some(size), positions).value;
      var r' := CustomizeCropPosition(payload, origW, origH, destW, destH, true, Some(size), positions').value;
      r' == r.(srcX := r'.srcX, srcY := r'.srcY)
  {
  }

  /**
   * If the fallback of `GetCropPosition` were stored for a size, the filter
   * would centre the window on both axes.
   */
  lemma DefaultAnchorCentres(payload: Option<Dims>, origW: int, origH: int, destW: int, destH: int,
                             size: string, positions: map<string, Position>)
    requires !EmptyString(size) && size !in positions
    ensures var r := CustomizeCropPosition(payload, origW, origH, destW, destH, true, Some(size),
                                           positions[size := GetCropPosition(positions, size)]).value;
      && r.srcX == (if origW > destW then (origW - destW + 1) / 2 else 0)
      && r.srcY == (if origH > destH then (origH - destH + 1) / 2 else 0)
  {
  }

  // ----- Finding: the source window as written -----

  /**
   * As written, the source window starts at the offset and spans the whole
   * original, so it runs past the original's right (bottom) edge by exactly
   * the offset whenever the offset is positive.
   */
  lemma SourceWindowOverhangs(payload: Option<Dims>, origW: int, origH: int, destW: int, destH: int,
                              currentSize: Option<string>, positions: map<string, Position>)
    requires CropApplies(true, currentSize, positions)
    ensures var r := CustomizeCropPosition(payload, origW, origH, destW, destH, true, currentSize, positions).value;
      && (r.srcX > 0 ==> r.srcX + r.srcW - origW == r.srcX)
      && (r.srcY > 0 ==> r.srcY + r.srcH - origH == r.srcY)
  {
  }

  /**
   * A concrete input: a 1200x1600 original cropped to the Instagram square
   * with the centre anchor gives a source window starting at (60, 260) that
   * is 1200x1600 large, i.e. 60 and 260 pixels past the edges.
   */
  lemma InstagramCentreOverhangs()
    ensures var r := CustomizeCropPosition(None, 1200, 1600, InstagramSize, InstagramSize, true,
                                           Some("instagram"), map["instagram" := CenterPosition]).value;
      r == Dims(0, 0, 60, 260, 1080, 1080, 1200, 1600) && r.srcX + r.srcW > 1200 && r.srcY + r.srcH > 1600
  {
  }

  /** The source extent on one axis: the target's where the original is larger, otherwise the whole axis. */
  function SourceExtent(orig: int, dest: int): (extent: int)
    ensures extent <= orig && extent <= dest
    ensures extent == orig || extent == dest
  {
    if orig > dest then dest else orig
  }

  /**
   * The evidently intended filter: the same offsets, with a source window
   * of the target's size on every axis where the original is larger. The
   * window always lies inside the original.
   */
  function CorrectedCropPosition(payload: Option<Dims>, origW: int, origH: int, destW: int, destH: int,
                                 crop: bool, currentSize: Option<string>, positions: map<string, Position>): (r: Option<Dims>)
    ensures !CropApplies(crop, currentSize, positions) ==> r == payload
    ensures CropApplies(crop, currentSize, positions) ==>
      && r.Some?
      && r.value.dstX == 0 && r.value.dstY == 0
      && r.value.dstW == destW && r.value.dstH == destH
      && 0 <= r.value.srcX && r.value.srcX + r.value.srcW <= origW
      && 0 <= r.value.srcY && r.value.srcY + r.value.srcH <= origH
      && (origW > destW ==> r.value.srcW == destW)
      && (origH > destH ==> r.value.srcH == destH)
  {
    match CustomizeCropPosition(payload, origW, origH, destW, destH, crop, currentSize, positions)
    case None => None
    case Some(d) =>
      if CropApplies(crop, currentSize, positions)
      then Some(d.(srcW := SourceExtent(origW, destW), srcH := SourceExtent(origH, destH)))
      else Some(d)
  }

  /** The correction moves no offset: it only shrinks the source size slots. */
  lemma CorrectionKeepsOffsets(payload: Option<Dims>, origW: int, origH: int, destW: int, destH: int,
                               crop: bool, currentSize: Option<string>, positions: map<string, Position>)
    ensures var r := CustomizeCropPosition(payload, origW, origH, destW, destH, crop, currentSize, positions);
      var c := CorrectedCropPosition(payload, origW, origH, destW, destH, crop, currentSize, positions);
      r.Some? <==> c.Some?
    ensures var r := CustomizeCropPosition(payload, origW, origH, destW, destH, crop, currentSize, positions);
      var c := CorrectedCropPosition(payload, origW, origH, destW, destH, crop, currentSize, positions);
      r.Some? ==> c.value == r.value.(srcW := c.value.srcW, srcH := c.value.srcH)
  {
  }

  /**
   * Every registered size, cut from a 1200x1600 original with the centre
   * anchor by the corrected filter, lies inside the original.
   */
  lemma SocialSizesFitPortrait(i: nat)
    requires i < |SocialSizes|
    ensures var s := SocialSizes[i];
      var r := CorrectedCropPosition(None, 1200, 1600, s.width, s.height, true,
                                     Some("p"), map["p" := CenterPosition]).value;
      r.srcX + r.srcW <= 1200 && r.srcY + r.srcH <= 1600 && r.srcW > 0 && r.srcH > 0
  {
    ImageSizes.SocialSizesWellFormed();
  }

  /** Facebook size from a 1200x800 original with the centre anchor: offset (0, 85). */
  lemma FacebookCentreExample()
    ensures CorrectedCropPosition(None, 1200, 800, FbWidth, FbHeight, true,
                                  Some("facebook"), map["facebook" := CenterPosition])
         == Some(Dims(0, 0, 0, 85, 1200, 630, 1200, 630))
  {
  }
}
