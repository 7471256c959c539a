/** An image as its (channels, height, width) dimensions and a grid of pixels,
    with the pixel kernels the geometry helpers delegate to (pad, crop, flips).
    A pixel stands for the whole channel vector at one position; 0 is the fill value. */
module Images {

  type Pixel = int

  datatype Image = Image(channels: nat, height: nat, width: nat, px: seq<seq<Pixel>>)
  {
    /** The grid has exactly `height` rows of `width` pixels each. */
    predicate Valid() {
      |px| == height && forall i :: 0 <= i < |px| ==> |px[i]| == width
    }
  }

  /** Two valid images of the same dimensions that agree on every pixel are equal. */
  lemma {:induction false} SameImage(a: Image, b: Image)
    requires a.Valid() && b.Valid()
    requires a.channels == b.channels && a.height == b.height && a.width == b.width
    requires forall i, j :: 0 <= i < a.height && 0 <= j < a.width ==> a.px[i][j] == b.px[i][j]
    ensures a == b
  {
    forall i | 0 <= i < a.height
      ensures a.px[i] == b.px[i]
    {
      assert forall j :: 0 <= j < a.width ==> a.px[i][j] == b.px[i][j];
    }
  }

  /** The pixel at row si, column sj, or `fill` when that position lies outside the image. */
  function PixelOr(img: Image, si: int, sj: int, fill: Pixel): Pixel
    requires img.Valid()
  {
    if 0 <= si < img.height && 0 <= sj < img.width then img.px[si][sj] else fill
  }

  /** The padding kernel: `left`, `top`, `right`, `bottom` pixels of value `fill` around the image. */
  function Pad(img: Image, left: nat, top: nat, right: nat, bottom: nat, fill: Pixel): (r: Image)
    requires img.Valid()
    ensures r.Valid() && r.channels == img.channels
    ensures r.height == top + img.height + bottom && r.width == left + img.width + right
    ensures forall i, j :: 0 <= i < r.height && 0 <= j < r.width ==>
      r.px[i][j] == PixelOr(img, i - top, j - left, fill)
  {
    var h := top + img.height + bottom;
    var w := left + img.width + right;
    Image(img.channels, h, w,
      seq(h, i requires 0 <= i < h =>
        seq(w, j requires 0 <= j < w => PixelOr(img, i - top, j - left, fill))))
  }

  /** The crop kernel on an in-bounds rectangle: `h` rows and `w` columns from (`top`, `left`). */
  function Crop(img: Image, top: int, left: int, h: nat, w: nat): (r: Image)
    requires img.Valid()
    requires 0 <= top && top + h <= img.height && 0 <= left && left + w <= img.width
    ensures r.Valid() && r.channels == img.channels && r.height == h && r.width == w
    ensures forall i, j :: 0 <= i < h && 0 <= j < w ==> r.px[i][j] == img.px[top + i][left + j]
  {
    Image(img.channels, h, w,
      seq(h, i requires 0 <= i < h => seq(w, j requires 0 <= j < w => img.px[top + i][left + j])))
  }

  /** The horizontal flip kernel: column j becomes column width - 1 - j. */
  function HFlip(img: Image): (r: Image)
    requires img.Valid()
    ensures r.Valid() && r.channels == img.channels
    ensures r.height == img.height && r.width == img.width
    ensures forall i, j :: 0 <= i < r.height && 0 <= j < r.width ==>
      r.px[i][j] == img.px[i][img.width - 1 - j]
  {
    Image(img.channels, img.height, img.width,
      seq(img.height, i requires 0 <= i < img.height =>
        seq(img.width, j requires 0 <= j < img.width => img.px[i][img.width - 1 - j])))
  }

  /** The vertical flip kernel: row i becomes row height - 1 - i. */
  function VFlip(img: Image): (r: Image)
    requires img.Valid()
    ensures r.Valid() && r.channels == img.channels
    ensures r.height == img.height && r.width == img.width
    ensures forall i, j :: 0 <= i < r.height && 0 <= j < r.width ==>
      r.px[i][j] == img.px[img.height - 1 - i][j]
  {
    Image(img.channels, img.height, img.width,
      seq(img.height, i requires 0 <= i < img.height =>
        seq(img.width, j requires 0 <= j < img.width => img.px[img.height - 1 - i][j])))
  }

  /** Cropping the original rectangle back out of a padded image gives the image back. */
  lemma {:induction false} CropOfPad(img: Image, left: nat, top: nat, right: nat, bottom: nat, fill: Pixel)
    requires img.Valid()
    ensures Crop(Pad(img, left, top, right, bottom, fill), top, left, img.height, img.width) == img
  {
    var p := Pad(img, left, top, right, bottom, fill);
    SameImage(Crop(p, top, left, img.height, img.width), img);
  }

  /** A pixel of a rectangle cropped out of a padded image, read back in the image itself:
      the source pixel shifted by the crop corner less the padding, or `fill` in the padding. */
  lemma {:induction false} CropOfPadAt(img: Image, left: nat, top: nat, right: nat, bottom: nat, fill: Pixel,
                                       cropTop: int, cropLeft: int, h: nat, w: nat, i: nat, j: nat,
                                       si: int, sj: int)
    requires img.Valid() && i < h && j < w
    requires si == cropTop + i - top && sj == cropLeft + j - left
    requires 0 <= cropTop && cropTop + h <= top + img.height + bottom
    requires 0 <= cropLeft && cropLeft + w <= left + img.width + right
    ensures Crop(Pad(img, left, top, right, bottom, fill), cropTop, cropLeft, h, w).px[i][j]
      == PixelOr(img, si, sj, fill)
  {
    var padded := Pad(img, left, top, right, bottom, fill);
    assert Crop(padded, cropTop, cropLeft, h, w).px[i][j] == padded.px[cropTop + i][cropLeft + j];
  }

  /** Flipping twice, either way, gives the image back. */
  lemma {:induction false} FlipsAreInvolutions(img: Image)
    requires img.Valid()
    ensures HFlip(HFlip(img)) == img
    ensures VFlip(VFlip(img)) == img
  {
    SameImage(HFlip(HFlip(img)), img);
    SameImage(VFlip(VFlip(img)), img);
  }
}
