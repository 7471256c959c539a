/** Center crop: symmetric zero padding when the image is too small, then a crop
    anchored at the rounded geometric center. */
module CenterCrop {
  import opened Errors
  import opened Images
  import opened SizeParsing

  /** Python's round() on a float: to the nearest integer, ties to the even one. */
  function RoundHalfEven(x: real): (n: int)
    ensures (n as real - x) * 2.0 <= 1.0 && (x - n as real) * 2.0 <= 1.0
    ensures (n as real - x) * 2.0 == 1.0 || (x - n as real) * 2.0 == 1.0 ==> n % 2 == 0
  {
    var f := x.Floor;
    var frac := x - f as real;
    if frac < 0.5 then f
    else if frac > 0.5 then f + 1
    else if f % 2 == 0 then f else f + 1
  }

  /** The integer nearest to x that the two ensures of RoundHalfEven single out is unique. */
  lemma {:induction false} RoundHalfEvenUnique(x: real, m: int)
    requires (m as real - x) * 2.0 <= 1.0 && (x - m as real) * 2.0 <= 1.0
    requires (m as real - x) * 2.0 == 1.0 || (x - m as real) * 2.0 == 1.0 ==> m % 2 == 0
    ensures m == RoundHalfEven(x)
  {
  }

  /** Padding [left, top, right, bottom] that brings the image up to the crop size on every
      axis where the crop is larger: the deficit d is split as d / 2 before and (d + 1) / 2
      after, so right and bottom take the extra pixel of an odd deficit; no padding elsewhere. */
  function ComputePadding(cropHeight: int, cropWidth: int, imageHeight: int, imageWidth: int): (r: seq<int>)
    ensures |r| == 4
    ensures forall k :: 0 <= k < 4 ==> r[k] >= 0
    ensures cropWidth <= imageWidth ==> r[0] == 0 && r[2] == 0
    ensures cropHeight <= imageHeight ==> r[1] == 0 && r[3] == 0
    ensures cropWidth > imageWidth ==> r[0] + imageWidth + r[2] == cropWidth
    ensures cropHeight > imageHeight ==> r[1] + imageHeight + r[3] == cropHeight
    ensures r[2] - r[0] == (if cropWidth > imageWidth then (cropWidth - imageWidth) % 2 else 0)
    ensures r[3] - r[1] == (if cropHeight > imageHeight then (cropHeight - imageHeight) % 2 else 0)
  {
    [
      if cropWidth > imageWidth then (cropWidth - imageWidth) / 2 else 0,
      if cropHeight > imageHeight then (cropHeight - imageHeight) / 2 else 0,
      if cropWidth > imageWidth then (cropWidth - imageWidth + 1) / 2 else 0,
      if cropHeight > imageHeight then (cropHeight - imageHeight + 1) / 2 else 0
    ]
  }

  /** The margin before a crop of `crop` out of `extent` pixels: half the difference,
      with an odd difference rounded to the even neighbour (MarginIsRound shows this is
      Python's round((extent - crop) / 2.0)). */
  function Margin(crop: int, extent: int): (m: int)
    ensures -1 <= 2 * m - (extent - crop) <= 1
    ensures crop <= extent ==> 0 <= m <= extent - crop
    ensures (extent - crop) % 2 == 0 ==> 2 * m == extent - crop
    ensures (extent - crop) % 2 == 1 ==> m % 2 == 0
  {
    var k := extent - crop;
    if k % 2 == 0 then k / 2
    else if (k / 2) % 2 == 0 then k / 2
    else k / 2 + 1
  }

  /** The margin is round((extent - crop) / 2.0) with Python's ties-to-even rounding. */
  lemma {:induction false} MarginIsRound(crop: int, extent: int)
    ensures Margin(crop, extent) == RoundHalfEven((extent - crop) as real / 2.0)
  {
    var k := extent - crop;
    var m := Margin(crop, extent);
    var x := k as real / 2.0;
    assert (m as real - x) * 2.0 == (2 * m - k) as real;
    assert (x - m as real) * 2.0 == (k - 2 * m) as real;
    RoundHalfEvenUnique(x, m);
  }

  /** The crop anchor (top, left): the rounded center offset on each axis. */
  function CropAnchor(cropHeight: int, cropWidth: int, imageHeight: int, imageWidth: int): (r: (int, int))
    ensures cropHeight <= imageHeight ==> 0 <= r.0 <= imageHeight - cropHeight
    ensures cropWidth <= imageWidth ==> 0 <= r.1 <= imageWidth - cropWidth
    ensures -1 <= (imageHeight - cropHeight - r.0) - r.0 <= 1
    ensures -1 <= (imageWidth - cropWidth - r.1) - r.1 <= 1
  {
    (Margin(cropHeight, imageHeight), Margin(cropWidth, imageWidth))
  }

  /** center_crop with the crop size unpacked: pad with zeros when the image is smaller than
      the crop on either axis, return the padded image when it already has the crop size,
      and otherwise crop at the anchor of the (possibly padded) image. */
  function CenterCropTo(img: Image, cropHeight: nat, cropWidth: nat): (r: Image)
    requires img.Valid()
    ensures r.Valid() && r.channels == img.channels
    ensures r.height == cropHeight && r.width == cropWidth
  {
    var needsPadding := cropHeight > img.height || cropWidth > img.width;
    var p := ComputePadding(cropHeight, cropWidth, img.height, img.width);
    var current := if needsPadding then Pad(img, p[0], p[1], p[2], p[3], 0) else img;
    if needsPadding && cropWidth == current.width && cropHeight == current.height then current
    else
      var anchor := CropAnchor(cropHeight, cropWidth, current.height, current.width);
      Crop(current, anchor.0, anchor.1, cropHeight, cropWidth)
  }

  /** center_crop: parse the size, then crop. A size that does not normalise to two
      values fails when it is unpacked into (crop_height, crop_width). */
  function CenterCropImage(img: Image, outputSize: SizeArg): (r: Result<Image>)
    requires img.Valid()
    requires NonNegativeSize(outputSize)
    ensures r.Err? <==> |ParseOutputSize(outputSize)| != 2
    ensures r.Err? ==> r.error == BadSizeArity
    ensures r.Ok? ==> r.value.Valid() && r.value.channels == img.channels
    ensures r.Ok? ==> r.value.height == ParseOutputSize(outputSize)[0]
    ensures r.Ok? ==> r.value.width == ParseOutputSize(outputSize)[1]
  {
    var size := ParseOutputSize(outputSize);
    if |size| != 2 then Err(BadSizeArity)
    else Ok(CenterCropTo(img, size[0], size[1]))
  }

  /** Where row (or column) 0 of the crop sits in the source image: a negative offset is
      the padding before the image, a non-negative one the anchor inside it. */
  function Offset(crop: int, extent: int): int {
    if crop > extent then -((crop - extent) / 2) else Margin(crop, extent)
  }

  /** Every pixel of the center crop is the source pixel shifted by the centered offsets,
      or the fill value 0 where the shifted position lies in the padding. */
  lemma {:induction false} CenterCropAt(img: Image, cropHeight: nat, cropWidth: nat, i: nat, j: nat)
    requires img.Valid() && i < cropHeight && j < cropWidth
    ensures var si := i + Offset(cropHeight, img.height);
            var sj := j + Offset(cropWidth, img.width);
            CenterCropTo(img, cropHeight, cropWidth).px[i][j] == PixelOr(img, si, sj, 0)
  {
    if cropHeight > img.height || cropWidth > img.width {
      PaddedCenterCropAt(img, cropHeight, cropWidth, i, j);
    }
  }

  /** CenterCropAt on the branch that pads first. */
  lemma {:induction false} PaddedCenterCropAt(img: Image, cropHeight: nat, cropWidth: nat, i: nat, j: nat)
    requires img.Valid() && i < cropHeight && j < cropWidth
    requires cropHeight > img.height || cropWidth > img.width
    ensures var si := i + Offset(cropHeight, img.height);
            var sj := j + Offset(cropWidth, img.width);
            CenterCropTo(img, cropHeight, cropWidth).px[i][j] == PixelOr(img, si, sj, 0)
  {
    if cropHeight >= img.height && cropWidth >= img.width {
      EarlyReturnAt(img, cropHeight, cropWidth, i, j);
    } else {
      PaddedThenCroppedAt(img, cropHeight, cropWidth, i, j);
    }
  }

  /** CenterCropAt when the image is padded on one axis and cropped on the other. */
  lemma {:induction false} PaddedThenCroppedAt(img: Image, cropHeight: nat, cropWidth: nat, i: nat, j: nat)
    requires img.Valid() && i < cropHeight && j < cropWidth
    requires cropHeight > img.height || cropWidth > img.width
    requires cropHeight < img.height || cropWidth < img.width
    ensures var si := i + Offset(cropHeight, img.height);
            var sj := j + Offset(cropWidth, img.width);
            CenterCropTo(img, cropHeight, cropWidth).px[i][j] == PixelOr(img, si, sj, 0)
  {
    var p := ComputePadding(cropHeight, cropWidth, img.height, img.width);
    var current := Pad(img, p[0], p[1], p[2], p[3], 0);
    var anchor := CropAnchor(cropHeight, cropWidth, current.height, current.width);
    PaddingOffsets(cropHeight, cropWidth, img.height, img.width);
    assert CenterCropTo(img, cropHeight, cropWidth).px[i][j]
        == Crop(current, anchor.0, anchor.1, cropHeight, cropWidth).px[i][j];
    CropOfPadAt(img, p[0], p[1], p[2], p[3], 0, anchor.0, anchor.1, cropHeight, cropWidth, i, j,
                i + Offset(cropHeight, img.height), j + Offset(cropWidth, img.width));
  }

  /** When padding alone brings the image to the crop size, the padded image is returned
      as it is, so its pixels are the source pixels shifted by the padding before them. */
  lemma {:induction false} EarlyReturnAt(img: Image, cropHeight: nat, cropWidth: nat, i: nat, j: nat)
    requires img.Valid() && i < cropHeight && j < cropWidth
    requires cropHeight >= img.height && cropWidth >= img.width
    requires cropHeight > img.height || cropWidth > img.width
    ensures var si := i + Offset(cropHeight, img.height);
            var sj := j + Offset(cropWidth, img.width);
            CenterCropTo(img, cropHeight, cropWidth).px[i][j] == PixelOr(img, si, sj, 0)
  {
    var p := ComputePadding(cropHeight, cropWidth, img.height, img.width);
    var padded := Pad(img, p[0], p[1], p[2], p[3], 0);
    assert CenterCropTo(img, cropHeight, cropWidth) == padded;
    assert padded.px[i][j] == PixelOr(img, i - p[1], j - p[0], 0);
  }

  /** Both axes at once: the anchor in the padded image less the padding before the image
      is the offset of the crop in the unpadded image. */
  lemma {:induction false} PaddingOffsets(cropHeight: nat, cropWidth: nat, imageHeight: nat, imageWidth: nat)
    ensures var p := ComputePadding(cropHeight, cropWidth, imageHeight, imageWidth);
            cropHeight <= p[1] + imageHeight + p[3] && cropWidth <= p[0] + imageWidth + p[2] &&
            Margin(cropHeight, p[1] + imageHeight + p[3]) - p[1] == Offset(cropHeight, imageHeight) &&
            Margin(cropWidth, p[0] + imageWidth + p[2]) - p[0] == Offset(cropWidth, imageWidth) &&
            (cropHeight >= imageHeight && cropWidth >= imageWidth ==>
              p[1] + imageHeight + p[3] == cropHeight && p[0] + imageWidth + p[2] == cropWidth)
  {
    var p := ComputePadding(cropHeight, cropWidth, imageHeight, imageWidth);
    PaddedAxis(cropHeight, imageHeight, p[1], p[3]);
    PaddedAxis(cropWidth, imageWidth, p[0], p[2]);
  }

  /** On one axis, the anchor in the padded extent less the padding before the image is
      the offset of the crop in the unpadded image. */
  lemma {:induction false} PaddedAxis(crop: nat, extent: nat, before: int, after: int)
    requires before == (if crop > extent then (crop - extent) / 2 else 0)
    requires after == (if crop > extent then (crop - extent + 1) / 2 else 0)
    ensures crop <= before + extent + after
    ensures Margin(crop, before + extent + after) - before == Offset(crop, extent)
  {
    if crop > extent {
      assert before + extent + after == crop;
      assert Margin(crop, crop) == 0;
    }
  }

  /** When padding alone brings the image to the crop size, returning the padded image
      early is the same as cropping it at its anchor, which is (0, 0). */
  lemma {:induction false} EarlyReturnIsCrop(img: Image, cropHeight: nat, cropWidth: nat)
    requires img.Valid() && cropHeight >= img.height && cropWidth >= img.width
    ensures var p := ComputePadding(cropHeight, cropWidth, img.height, img.width);
            var padded := Pad(img, p[0], p[1], p[2], p[3], 0);
            padded.height == cropHeight && padded.width == cropWidth &&
            CropAnchor(cropHeight, cropWidth, padded.height, padded.width) == (0, 0) &&
            Crop(padded, 0, 0, cropHeight, cropWidth) == padded
  {
    var p := ComputePadding(cropHeight, cropWidth, img.height, img.width);
    var padded := Pad(img, p[0], p[1], p[2], p[3], 0);
    SameImage(Crop(padded, 0, 0, cropHeight, cropWidth), padded);
  }
}
