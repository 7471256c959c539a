/** Five crop (the four corners and the center) and ten crop (five crop of the image
    and of its mirror image). */
module MultiCrop {
  import opened Errors
  import opened Images
  import opened SizeParsing
  import opened CenterCrop

  /** The five crops in the order five_crop returns them. */
  datatype FiveCrops = FiveCrops(tl: Image, tr: Image, bl: Image, br: Image, center: Image)
  {
    function AsSeq(): seq<Image> {
      [tl, tr, bl, br, center]
    }

    /** Every crop is a valid h x w image with the given number of channels. */
    predicate Shaped(channels: nat, h: int, w: int) {
      forall k :: 0 <= k < 5 ==> var c := AsSeq()[k];
        c.Valid() && c.channels == channels && c.height == h && c.width == w
    }
  }

  /** five_crop: the top-left, top-right, bottom-left and bottom-right crops and the
      center crop, each cropHeight x cropWidth; a size that is not (h, w) or that does
      not fit inside the image is a ValueError. */
  function FiveCrop(img: Image, size: SizeArg): (r: Result<FiveCrops>)
    requires img.Valid() && NonNegativeSize(size)
    ensures r.Err? <==> (ParseFiveCropSize(size).Err? ||
      ParseFiveCropSize(size).value.0 > img.height || ParseFiveCropSize(size).value.1 > img.width)
    ensures r.Err? ==> r.error == (if ParseFiveCropSize(size).Err? then BadSizeArity else CropLargerThanImage)
    ensures r.Ok? ==> r.value.Shaped(img.channels, ParseFiveCropSize(size).value.0, ParseFiveCropSize(size).value.1)
  {
    match ParseFiveCropSize(size)
    case Err(e) => Err(e)
    case Ok((cropHeight, cropWidth)) =>
      if cropWidth > img.width || cropHeight > img.height then Err(CropLargerThanImage)
      else Ok(FiveCropAt(img, cropHeight, cropWidth))
  }

  /** The five crops of a size that fits: the corners at (0, 0), (0, width - w),
      (height - h, 0), (height - h, width - w), and the center crop of the same size. */
  function FiveCropAt(img: Image, h: nat, w: nat): (r: FiveCrops)
    requires img.Valid() && h <= img.height && w <= img.width
    ensures r.Shaped(img.channels, h, w)
  {
    FiveCrops(
      Crop(img, 0, 0, h, w),
      Crop(img, 0, img.width - w, h, w),
      Crop(img, img.height - h, 0, h, w),
      Crop(img, img.height - h, img.width - w, h, w),
      CenterCropTo(img, h, w))
  }

  /** The center crop of a size that fits is the plain crop at the center-crop anchor,
      which lies inside the image. */
  lemma {:induction false} FiveCropCenter(img: Image, h: nat, w: nat)
    requires img.Valid() && h <= img.height && w <= img.width
    ensures 0 <= CropAnchor(h, w, img.height, img.width).0 <= img.height - h
    ensures 0 <= CropAnchor(h, w, img.height, img.width).1 <= img.width - w
    ensures FiveCropAt(img, h, w).center ==
      Crop(img, CropAnchor(h, w, img.height, img.width).0, CropAnchor(h, w, img.height, img.width).1, h, w)
  {
  }

  /** The center of five crop is what center_crop returns for the size [h, w]. */
  lemma {:induction false} FiveCropCenterIsCenterCrop(img: Image, h: nat, w: nat)
    requires img.Valid() && h <= img.height && w <= img.width
    ensures CenterCropImage(img, Sizes([h, w])) == Ok(FiveCropAt(img, h, w).center)
  {
    assert ParseOutputSize(Sizes([h, w])) == [h, w];
  }

  /** A size of more than two values is refused with a ValueError by center crop and by
      five crop, whatever its values, negative ones included. */
  lemma {:induction false} LongSizeIsRefused(img: Image, items: seq<int>)
    requires img.Valid() && |items| > 2
    ensures CenterCropImage(img, Sizes(items)) == Err(BadSizeArity)
    ensures FiveCrop(img, Sizes(items)) == Err(BadSizeArity)
  {
  }

  /** The four corner crops sit in the four corners of the image: pixel (i, j) of each is the
      image pixel i rows below the top edge (or above the bottom edge less h) and j columns
      right of the left edge (or of width - w). */
  lemma {:induction false} FiveCropCorners(img: Image, h: nat, w: nat, i: nat, j: nat)
    requires img.Valid() && h <= img.height && w <= img.width && i < h && j < w
    ensures FiveCropAt(img, h, w).tl.px[i][j] == img.px[i][j]
    ensures FiveCropAt(img, h, w).tr.px[i][j] == img.px[i][img.width - w + j]
    ensures FiveCropAt(img, h, w).bl.px[i][j] == img.px[img.height - h + i][j]
    ensures FiveCropAt(img, h, w).br.px[i][j] == img.px[img.height - h + i][img.width - w + j]
  {
  }

  /** The flip ten_crop applies before its second five crop. */
  function Flip(img: Image, verticalFlip: bool): (r: Image)
    requires img.Valid()
    ensures r.Valid() && r.channels == img.channels && r.height == img.height && r.width == img.width
  {
    if verticalFlip then VFlip(img) else HFlip(img)
  }

  /** ten_crop: the five crops of the image followed by the five crops of its flip
      (vertical when verticalFlip, horizontal otherwise); it fails exactly when five_crop does. */
  function TenCrop(img: Image, size: SizeArg, verticalFlip: bool): (r: Result<seq<Image>>)
    requires img.Valid() && NonNegativeSize(size)
    ensures r.Err? <==> FiveCrop(img, size).Err?
    ensures r.Err? ==> r.error == FiveCrop(img, size).error
    ensures r.Ok? ==> |r.value| == 10
    ensures r.Ok? ==> r.value[..5] == FiveCrop(img, size).value.AsSeq()
    ensures r.Ok? ==> (FiveCrop(Flip(img, verticalFlip), size).Ok? &&
      r.value[5..] == FiveCrop(Flip(img, verticalFlip), size).value.AsSeq())
  {
    match FiveCrop(img, size)
    case Err(e) => Err(e)
    case Ok(first) =>
      match FiveCrop(Flip(img, verticalFlip), size)
      case Err(e) => Err(e)
      case Ok(second) => Ok(first.AsSeq() + second.AsSeq())
  }

  /** A crop of the horizontally flipped image is the mirror of the crop at the mirrored left edge. */
  lemma {:induction false} CropOfHFlip(img: Image, top: nat, left: nat, h: nat, w: nat)
    requires img.Valid() && top + h <= img.height && left + w <= img.width
    ensures Crop(HFlip(img), top, left, h, w) == HFlip(Crop(img, top, img.width - w - left, h, w))
  {
    SameImage(Crop(HFlip(img), top, left, h, w), HFlip(Crop(img, top, img.width - w - left, h, w)));
  }

  /** A crop of the vertically flipped image is the mirror of the crop at the mirrored top edge. */
  lemma {:induction false} CropOfVFlip(img: Image, top: nat, left: nat, h: nat, w: nat)
    requires img.Valid() && top + h <= img.height && left + w <= img.width
    ensures Crop(VFlip(img), top, left, h, w) == VFlip(Crop(img, img.height - h - top, left, h, w))
  {
    SameImage(Crop(VFlip(img), top, left, h, w), VFlip(Crop(img, img.height - h - top, left, h, w)));
  }

  /** The five crops of the horizontally flipped image: the left and right corners trade
      places and are mirrored, and the center crop mirrors the crop at the mirrored anchor. */
  lemma {:induction false} FiveCropOfHFlip(img: Image, h: nat, w: nat)
    requires img.Valid() && h <= img.height && w <= img.width
    ensures var a := FiveCropAt(img, h, w);
            var anchor := CropAnchor(h, w, img.height, img.width);
            FiveCropAt(HFlip(img), h, w) == FiveCrops(HFlip(a.tr), HFlip(a.tl), HFlip(a.br), HFlip(a.bl),
              HFlip(Crop(img, anchor.0, img.width - w - anchor.1, h, w)))
  {
    CornersOfHFlip(img, h, w);
    CenterOfHFlip(img, h, w);
  }

  /** The corner half of FiveCropOfHFlip. */
  lemma {:induction false} CornersOfHFlip(img: Image, h: nat, w: nat)
    requires img.Valid() && h <= img.height && w <= img.width
    ensures FiveCropAt(HFlip(img), h, w).tl == HFlip(FiveCropAt(img, h, w).tr)
    ensures FiveCropAt(HFlip(img), h, w).tr == HFlip(FiveCropAt(img, h, w).tl)
    ensures FiveCropAt(HFlip(img), h, w).bl == HFlip(FiveCropAt(img, h, w).br)
    ensures FiveCropAt(HFlip(img), h, w).br == HFlip(FiveCropAt(img, h, w).bl)
  {
    CropOfHFlip(img, 0, 0, h, w);
    CropOfHFlip(img, 0, img.width - w, h, w);
    CropOfHFlip(img, img.height - h, 0, h, w);
    CropOfHFlip(img, img.height - h, img.width - w, h, w);
  }

  /** The center half of FiveCropOfHFlip. */
  lemma {:induction false} CenterOfHFlip(img: Image, h: nat, w: nat)
    requires img.Valid() && h <= img.height && w <= img.width
    ensures var anchor := CropAnchor(h, w, img.height, img.width);
            FiveCropAt(HFlip(img), h, w).center == HFlip(Crop(img, anchor.0, img.width - w - anchor.1, h, w))
  {
    var anchor := CropAnchor(h, w, img.height, img.width);
    FiveCropCenter(HFlip(img), h, w);
    CropOfHFlip(img, anchor.0, anchor.1, h, w);
  }

  /** The five crops of the vertically flipped image: the top and bottom corners trade
      places and are mirrored, and the center crop mirrors the crop at the mirrored anchor. */
  lemma {:induction false} FiveCropOfVFlip(img: Image, h: nat, w: nat)
    requires img.Valid() && h <= img.height && w <= img.width
    ensures var a := FiveCropAt(img, h, w);
            var anchor := CropAnchor(h, w, img.height, img.width);
            FiveCropAt(VFlip(img), h, w) == FiveCrops(VFlip(a.bl), VFlip(a.br), VFlip(a.tl), VFlip(a.tr),
              VFlip(Crop(img, img.height - h - anchor.0, anchor.1, h, w)))
  {
    CornersOfVFlip(img, h, w);
    CenterOfVFlip(img, h, w);
  }

  /** The corner half of FiveCropOfVFlip. */
  lemma {:induction false} CornersOfVFlip(img: Image, h: nat, w: nat)
    requires img.Valid() && h <= img.height && w <= img.width
    ensures FiveCropAt(VFlip(img), h, w).tl == VFlip(FiveCropAt(img, h, w).bl)
    ensures FiveCropAt(VFlip(img), h, w).tr == VFlip(FiveCropAt(img, h, w).br)
    ensures FiveCropAt(VFlip(img), h, w).bl == VFlip(FiveCropAt(img, h, w).tl)
    ensures FiveCropAt(VFlip(img), h, w).br == VFlip(FiveCropAt(img, h, w).tr)
  {
    CropOfVFlip(img, 0, 0, h, w);
    CropOfVFlip(img, 0, img.width - w, h, w);
    CropOfVFlip(img, img.height - h, 0, h, w);
    CropOfVFlip(img, img.height - h, img.width - w, h, w);
  }

  /** The center half of FiveCropOfVFlip. */
  lemma {:induction false} CenterOfVFlip(img: Image, h: nat, w: nat)
    requires img.Valid() && h <= img.height && w <= img.width
    ensures var anchor := CropAnchor(h, w, img.height, img.width);
            FiveCropAt(VFlip(img), h, w).center == VFlip(Crop(img, img.height - h - anchor.0, anchor.1, h, w))
  {
    var anchor := CropAnchor(h, w, img.height, img.width);
    FiveCropCenter(VFlip(img), h, w);
    CropOfVFlip(img, anchor.0, anchor.1, h, w);
  }

  /** A ten crop that succeeds is the five crops of the image followed by those of its flip. */
  lemma {:induction false} TenCropHalves(img: Image, size: SizeArg, verticalFlip: bool, h: nat, w: nat)
    requires img.Valid() && NonNegativeSize(size) && TenCrop(img, size, verticalFlip).Ok?
    requires ParseFiveCropSize(size) == Ok((h, w))
    ensures h <= img.height && w <= img.width
    ensures TenCrop(img, size, verticalFlip).value ==
      FiveCropAt(img, h, w).AsSeq() + FiveCropAt(Flip(img, verticalFlip), h, w).AsSeq()
  {
  }

  /** ten_crop with the horizontal flip: crops 5..9 are the mirror images of crops 1, 0, 3, 2
      and of the crop at the mirrored center anchor, which is crop 4 itself when the
      horizontal margin width - w is even. */
  lemma {:induction false} TenCropHorizontalMirrors(img: Image, size: SizeArg, h: nat, w: nat)
    requires img.Valid() && NonNegativeSize(size) && TenCrop(img, size, false).Ok?
    requires ParseFiveCropSize(size) == Ok((h, w))
    ensures TenCrop(img, size, false).value[5] == HFlip(TenCrop(img, size, false).value[1])
    ensures TenCrop(img, size, false).value[6] == HFlip(TenCrop(img, size, false).value[0])
    ensures TenCrop(img, size, false).value[7] == HFlip(TenCrop(img, size, false).value[3])
    ensures TenCrop(img, size, false).value[8] == HFlip(TenCrop(img, size, false).value[2])
    ensures TenCrop(img, size, false).value[9] == HFlip(Crop(img,
      CropAnchor(h, w, img.height, img.width).0,
      img.width - w - CropAnchor(h, w, img.height, img.width).1, h, w))
    ensures (img.width - w) % 2 == 0 ==>
      TenCrop(img, size, false).value[9] == HFlip(TenCrop(img, size, false).value[4])
  {
    TenCropHalves(img, size, false, h, w);
    var a := FiveCropAt(img, h, w);
    var b := FiveCropAt(HFlip(img), h, w);
    var crops := a.AsSeq() + b.AsSeq();
    assert crops[..5] == [a.tl, a.tr, a.bl, a.br, a.center];
    assert crops[5..] == [b.tl, b.tr, b.bl, b.br, b.center];
    FiveCropOfHFlip(img, h, w);
    FiveCropCenter(img, h, w);
  }

  /** ten_crop with the vertical flip: crops 5..9 are the mirror images of crops 2, 3, 0, 1
      and of the crop at the mirrored center anchor, which is crop 4 itself when the
      vertical margin height - h is even. */
  lemma {:induction false} TenCropVerticalMirrors(img: Image, size: SizeArg, h: nat, w: nat)
    requires img.Valid() && NonNegativeSize(size) && TenCrop(img, size, true).Ok?
    requires ParseFiveCropSize(size) == Ok((h, w))
    ensures TenCrop(img, size, true).value[5] == VFlip(TenCrop(img, size, true).value[2])
    ensures TenCrop(img, size, true).value[6] == VFlip(TenCrop(img, size, true).value[3])
    ensures TenCrop(img, size, true).value[7] == VFlip(TenCrop(img, size, true).value[0])
    ensures TenCrop(img, size, true).value[8] == VFlip(TenCrop(img, size, true).value[1])
    ensures TenCrop(img, size, true).value[9] == VFlip(Crop(img,
      img.height - h - CropAnchor(h, w, img.height, img.width).0,
      CropAnchor(h, w, img.height, img.width).1, h, w))
    ensures (img.height - h) % 2 == 0 ==>
      TenCrop(img, size, true).value[9] == VFlip(TenCrop(img, size, true).value[4])
  {
    TenCropHalves(img, size, true, h, w);
    var a := FiveCropAt(img, h, w);
    var b := FiveCropAt(VFlip(img), h, w);
    var crops := a.AsSeq() + b.AsSeq();
    assert crops[..5] == [a.tl, a.tr, a.bl, a.br, a.center];
    assert crops[5..] == [b.tl, b.tr, b.bl, b.br, b.center];
    FiveCropOfVFlip(img, h, w);
    FiveCropCenter(img, h, w);
  }
}
