# Geometry helpers of torchvision's prototype transforms, modelled in Dafny

This project models the geometric core of `torchvision/prototype/transforms/functional/_geometry.py`.
It covers:

- **Center crop.** The size argument is normalised. Zero padding is added when the image is smaller
  than the crop. When padding alone reaches the crop size, the padded image is returned early.
  Otherwise the crop is anchored at the rounded center.
- **Five crop and ten crop.** Five crop takes the four corner crops and the center crop. Ten crop adds
  the five crops of the horizontally or vertically flipped image.
- **Bounding boxes.** The horizontal flip of XYXY boxes is done in place. The resize scales each box
  by the ratio of the new extent to the old one.
- **Affine arguments.** `_affine_parse_args` validates and normalises the affine transform's arguments.

The tensor and PIL variants of each image operation have the same control flow and differ only in the
kernels they call. They are modelled once, and the tables cite the tensor lines:

- `center_crop_image_pil` is lines 277-290;
- `five_crop_image_pil` is lines 350-366;
- `ten_crop_image_pil` is lines 382-392.

Layout, one module per file:

- `Errors.dfy`: the `Result` type. Each error kind stands for the exception the source raises: a
  `ValueError`, or a `ZeroDivisionError` for `DivisionByZero`.
- `Images.dfy`: an image as channels, height, width and a grid of pixels. It also holds the pixel
  kernels that the module delegates to: pad, crop and the two flips. Each kernel is given by what it
  does to every pixel.
- `SizeParsing.dfy`: `_center_crop_parse_output_size` and `_parse_five_crop_size`.
- `CenterCrop.dfy`: padding, anchor, `center_crop_image_*`, and the pixel-level statement of what a
  center crop is.
- `MultiCrop.dfy`: `five_crop_image_*`, `ten_crop_image_*`, and how the flipped half of a ten crop
  relates to the first half.
- `BoundingBoxes.dfy`: `horizontal_flip_bounding_box` and `resize_bounding_box`.
- `AffineArgs.dfy`: `_affine_parse_args`.

Two details of the source the model keeps:

- `_affine_parse_args` returns `center` exactly as it was given, so a tuple stays a tuple. It does not
  turn it into a list.
- `center_crop_image_*` does not check the arity of the size. A normalised size that is not two values
  fails when `crop_height, crop_width` is unpacked. That failure is a `ValueError`, modelled as
  `Err(BadSizeArity)`.

## Model

| member | source | states |
|---|---|---|
| Images.Pad | torchvision/prototype/transforms/functional/_geometry.py:210-211 | the padded image is top + height + bottom by left + width + right; each pixel is the source pixel shifted by the padding before it, or the fill value outside the source |
| Images.Crop | torchvision/prototype/transforms/functional/_geometry.py:213-214 | an in-bounds crop has the requested size, and pixel (i, j) is source pixel (top + i, left + j) |
| Images.HFlip | torchvision/prototype/transforms/functional/_geometry.py:14-15 | same size; column j comes from column width - 1 - j |
| Images.VFlip | torchvision/prototype/transforms/functional/_geometry.py:76-77 | same size; row i comes from row height - 1 - i |
| Images.CropOfPad | torchvision/prototype/transforms/functional/_geometry.py:210-214 | cropping the original rectangle back out of a padded image returns the image |
| Images.CropOfPadAt | torchvision/prototype/transforms/functional/_geometry.py:210-214 | a pixel of a crop of a padded image is the source pixel at the crop corner less the padding, or the fill value |
| Images.FlipsAreInvolutions | torchvision/prototype/transforms/functional/_geometry.py:14-15 | flipping twice, horizontally or vertically, returns the image |
| SizeParsing.Truncate | torchvision/prototype/transforms/functional/_geometry.py:237 | int() truncates toward zero: the result is within 1 of x, on the side of 0 |
| SizeParsing.ParseOutputSize | torchvision/prototype/transforms/functional/_geometry.py:235-241 | a number n gives [int(n), int(n)], a one-element sequence [a] gives [a, a], any other sequence is kept; the result has two values exactly for a number or a sequence of one or two |
| SizeParsing.ParseFiveCropSize | torchvision/prototype/transforms/functional/_geometry.py:319-328 | succeeds exactly when the center-crop normalisation yields two values and then returns those values; otherwise a ValueError |
| SizeParsing.ParseOutputSizeIdempotent | torchvision/prototype/transforms/functional/_geometry.py:235-241 | normalising a normalised size changes nothing |
| CenterCrop.RoundHalfEven | torchvision/prototype/transforms/functional/_geometry.py:256-257 | round() is within 1/2 of x and picks the even integer on a tie |
| CenterCrop.RoundHalfEvenUnique | torchvision/prototype/transforms/functional/_geometry.py:256-257 | those two properties single out one integer |
| CenterCrop.ComputePadding | torchvision/prototype/transforms/functional/_geometry.py:244-250 | four non-negative values [left, top, right, bottom]; zero on an axis where the crop fits; otherwise before + image + after equals the crop, and after exceeds before by the parity of the deficit |
| CenterCrop.Margin | torchvision/prototype/transforms/functional/_geometry.py:256-257 | twice the margin is within 1 of extent - crop, exact when that difference is even and even otherwise; it lies in [0, extent - crop] when the crop fits |
| CenterCrop.MarginIsRound | torchvision/prototype/transforms/functional/_geometry.py:256-257 | the margin equals int(round((extent - crop) / 2.0)) with ties to even |
| CenterCrop.CropAnchor | torchvision/prototype/transforms/functional/_geometry.py:253-258 | the anchor lies inside the image when the crop fits, and the space before the crop and after it differ by at most 1 on each axis |
| CenterCrop.CenterCropTo | torchvision/prototype/transforms/functional/_geometry.py:261-274 | the result is a valid image of the crop size with the source's channels, whichever branch is taken |
| CenterCrop.CenterCropImage | torchvision/prototype/transforms/functional/_geometry.py:261-274 | fails, with a ValueError, exactly when the normalised size is not two values; otherwise the image has the normalised height and width |
| CenterCrop.CenterCropAt | torchvision/prototype/transforms/functional/_geometry.py:261-274 | every pixel of the center crop is the source pixel shifted by the centered offset on each axis, or 0 where that position falls in the padding |
| CenterCrop.PaddedCenterCropAt | torchvision/prototype/transforms/functional/_geometry.py:265-274 | the same pixel statement on the branch that pads |
| CenterCrop.PaddedThenCroppedAt | torchvision/prototype/transforms/functional/_geometry.py:265-274 | the same when the image is padded on one axis and cropped on the other |
| CenterCrop.EarlyReturnAt | torchvision/prototype/transforms/functional/_geometry.py:265-271 | the same for the early return of the padded image |
| CenterCrop.PaddingOffsets | torchvision/prototype/transforms/functional/_geometry.py:265-269 | after padding, the crop fits; the anchor in the padded image less the padding before it is the crop offset in the original; padding alone reaches the crop size when the crop is at least the image on both axes |
| CenterCrop.PaddedAxis | torchvision/prototype/transforms/functional/_geometry.py:246-257 | the same facts on one axis |
| CenterCrop.EarlyReturnIsCrop | torchvision/prototype/transforms/functional/_geometry.py:265-274 | when padding reaches the crop size, the anchor is (0, 0) and cropping there gives the padded image, so the early return agrees with the crop |
| MultiCrop.FiveCrop | torchvision/prototype/transforms/functional/_geometry.py:331-347 | fails exactly when the size does not parse or the crop is taller or wider than the image, with the matching ValueError; otherwise five valid crops of the parsed size |
| MultiCrop.FiveCropAt | torchvision/prototype/transforms/functional/_geometry.py:341-345 | each of the five crops has the crop size and the source's channels |
| MultiCrop.FiveCropCenter | torchvision/prototype/transforms/functional/_geometry.py:345 | the center crop of a size that fits is the plain crop at the center-crop anchor, which lies inside the image |
| MultiCrop.FiveCropCenterIsCenterCrop | torchvision/prototype/transforms/functional/_geometry.py:345 | the center is what center_crop returns for the size [h, w] |
| MultiCrop.LongSizeIsRefused | torchvision/prototype/transforms/functional/_geometry.py:262-326 | a size of more than two values, whatever its values, is a ValueError for center crop and five crop |
| MultiCrop.FiveCropCorners | torchvision/prototype/transforms/functional/_geometry.py:341-344 | each corner crop reads the image from its corner: (0, 0), (0, width - w), (height - h, 0), (height - h, width - w) |
| MultiCrop.Flip | torchvision/prototype/transforms/functional/_geometry.py:372-375 | the flip keeps the image's size and channels |
| MultiCrop.TenCrop | torchvision/prototype/transforms/functional/_geometry.py:369-379 | fails exactly when five crop fails, with its error; otherwise ten images: the five crops of the image, then the five crops of its flip |
| MultiCrop.CropOfHFlip | torchvision/prototype/transforms/functional/_geometry.py:372-377 | a crop of the mirrored image is the mirror of the crop at the mirrored left edge |
| MultiCrop.CropOfVFlip | torchvision/prototype/transforms/functional/_geometry.py:372-377 | a crop of the upside-down image is the flip of the crop at the mirrored top edge |
| MultiCrop.CornersOfHFlip | torchvision/prototype/transforms/functional/_geometry.py:372-377 | the corner crops of the mirrored image are the mirrors of the opposite corners of the image |
| MultiCrop.CenterOfHFlip | torchvision/prototype/transforms/functional/_geometry.py:372-377 | the center crop of the mirrored image is the mirror of the crop at the mirrored anchor |
| MultiCrop.FiveCropOfHFlip | torchvision/prototype/transforms/functional/_geometry.py:372-377 | the five crops of the mirrored image, written as mirrors of crops of the image |
| MultiCrop.CornersOfVFlip | torchvision/prototype/transforms/functional/_geometry.py:372-377 | the corner crops of the upside-down image are the flips of the vertically opposite corners |
| MultiCrop.CenterOfVFlip | torchvision/prototype/transforms/functional/_geometry.py:372-377 | the center crop of the upside-down image is the flip of the crop at the mirrored anchor |
| MultiCrop.FiveCropOfVFlip | torchvision/prototype/transforms/functional/_geometry.py:372-377 | the five crops of the upside-down image, written as flips of crops of the image |
| MultiCrop.TenCropHalves | torchvision/prototype/transforms/functional/_geometry.py:369-379 | a successful ten crop is the five crops of the image followed by the five crops of its flip |
| MultiCrop.TenCropHorizontalMirrors | torchvision/prototype/transforms/functional/_geometry.py:369-379 | with the horizontal flip, crops 5-8 are the mirrors of crops 1, 0, 3 and 2; crop 9 is the mirror of the crop at the mirrored anchor, and of crop 4 when width - w is even |
| MultiCrop.TenCropVerticalMirrors | torchvision/prototype/transforms/functional/_geometry.py:369-379 | with the vertical flip, crops 5-8 are the flips of crops 2, 3, 0 and 1; crop 9 is the flip of the crop at the mirrored anchor, and of crop 4 when height - h is even |
| BoundingBoxes.FlipBox | torchvision/prototype/transforms/functional/_geometry.py:27 | y values are unchanged; each new x plus the other old x is the image width; the box keeps its width, its x order and its containment in [0, width] |
| BoundingBoxes.FlipAll | torchvision/prototype/transforms/functional/_geometry.py:27 | every box is flipped and the count is kept |
| BoundingBoxes.FlipBoxInvolution | torchvision/prototype/transforms/functional/_geometry.py:27 | flipping a box twice returns it |
| BoundingBoxes.FlipAllInvolution | torchvision/prototype/transforms/functional/_geometry.py:18-31 | flipping all boxes twice returns them |
| BoundingBoxes.HorizontalFlipBoundingBox | torchvision/prototype/transforms/functional/_geometry.py:18-31 | the array afterwards holds exactly the flips of the boxes it held before, against the width image_size[1] |
| BoundingBoxes.ResizeBoundingBox | torchvision/prototype/transforms/functional/_geometry.py:69-73 | fails exactly when the size is not two values or an old extent is zero, in that order; otherwise each box scaled by the old extents equals the input box scaled by the new ones |
| BoundingBoxes.ScaleBoxInverse | torchvision/prototype/transforms/functional/_geometry.py:72-73 | scaling by a ratio and then by its reciprocal returns the box |
| BoundingBoxes.ResizeRoundTrip | torchvision/prototype/transforms/functional/_geometry.py:69-73 | resizing to a new size and back returns the boxes |
| BoundingBoxes.ResizeUniformScale | torchvision/prototype/transforms/functional/_geometry.py:69-73 | resizing to k times the old size multiplies every coordinate by k |
| BoundingBoxes.ResizeKeepsOrder | torchvision/prototype/transforms/functional/_geometry.py:69-73 | with positive extents, a box with ordered corners keeps them ordered |
| AffineArgs.ShearList | torchvision/prototype/transforms/functional/_geometry.py:112-119 | a number s gives [s, 0.0], a one-value sequence gives [s, s], any other sequence is kept; two values exactly when the shear is accepted |
| AffineArgs.ParseAffineArgs | torchvision/prototype/transforms/functional/_geometry.py:80-127 | succeeds exactly when translate has two values, scale is positive and shear comes to two values; the ValueErrors are checked in that order; on success the angle is a float, translate its values, shear two values from the input, and center unchanged |
| AffineArgs.ParseAffineArgsIdempotent | torchvision/prototype/transforms/functional/_geometry.py:80-127 | parsing the parsed arguments again returns them unchanged |

## Left out

- Pixel kernels (`_FT.pad`, `_FT.crop`, `_FT.hflip`, `_FT.vflip` and their PIL forms): modelled by their effect on each pixel position. A pixel stands for the whole channel vector, and modes, dtypes and the leading batch shape are not modelled.
- Crop: modelled only on in-bounds rectangles, which is every rectangle the center, five and ten crops request.
- CenterCropImage, FiveCrop, TenCrop: require that a size which normalises to (height, width) has no negative value. The source does not check the sign, and such a size reaches the pad and crop kernels with results the module does not define. Sizes of any other length, negative values included, are modelled and refused with a ValueError.
- Type checks: the `TypeError` branches of `_affine_parse_args` and `isinstance` dispatch are excluded by the Dafny types of the arguments.
- `interpolation` in `_affine_parse_args`: it is only type-checked, so it is not a parameter of the model.
- AffineArgs.ParseAffineArgs: `float(angle)` is modelled as the exact real, not a 64-bit float.
- Floating point: every Python float is an exact real, so NaN, infinity and IEEE rounding are not modelled. This covers box coordinates and the ratio `new / old` in BoundingBoxes.ResizeBoundingBox, the number size in SizeParsing.ParseOutputSize and SizeParsing.ParseFiveCropSize (where `int()` of NaN raises ValueError and of infinity OverflowError), and `angle`, `translate`, `scale` and `shear` in AffineArgs.ParseAffineArgs (where a NaN scale passes the `scale <= 0.0` check).
- CenterCrop.MarginIsRound: it assumes `(extent - crop) / 2.0` is exact, which holds for every extent below 2^53.
- `convert_bounding_box_format`: not part of this model. `HorizontalFlipBoundingBox` works on boxes already in XYXY form, and the reshape to `(-1, 4)` and back is the array itself.
- `resize_bounding_box`: ignores `max_size`, as the source's TODO says.
- `resize_image_*`, `resize_segmentation_mask`, `affine_image_*`, `rotate_image_*`, `perspective_image_*`, `resized_crop_image_*` and `_get_inverse_affine_matrix`: resampling kernels and matrix code outside the modelled core.
- `get_dimensions_image_*`: replaced by the image's own height and width fields.
