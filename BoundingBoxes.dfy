/** Coordinate maps on bounding boxes: the horizontal flip and the resize. */
module BoundingBoxes {
  import opened Errors

  /** One box as two points: (x1, y1) and (x2, y2). In the XYXY format these are the
      top-left and bottom-right corners. */
  datatype Box = Box(x1: real, y1: real, x2: real, y2: real)

  /** The mirror image of an XYXY box in an image `width` pixels wide: each x is reflected
      about width / 2, and the two x values trade places so that x1 stays the left edge. */
  function FlipBox(b: Box, width: int): (r: Box)
    ensures r.y1 == b.y1 && r.y2 == b.y2
    ensures r.x1 + b.x2 == width as real && r.x2 + b.x1 == width as real
    ensures b.x1 <= b.x2 ==> r.x1 <= r.x2
    ensures r.x2 - r.x1 == b.x2 - b.x1
    ensures 0.0 <= b.x1 <= b.x2 <= width as real ==> 0.0 <= r.x1 <= r.x2 <= width as real
  {
    Box(width as real - b.x2, b.y1, width as real - b.x1, b.y2)
  }

  /** Every box of a sequence flipped. */
  function FlipAll(boxes: seq<Box>, width: int): (r: seq<Box>)
    ensures |r| == |boxes|
    ensures forall k :: 0 <= k < |r| ==> r[k] == FlipBox(boxes[k], width)
  {
    seq(|boxes|, k requires 0 <= k < |boxes| => FlipBox(boxes[k], width))
  }

  /** Flipping a box twice gives it back. */
  lemma {:induction false} FlipBoxInvolution(b: Box, width: int)
    ensures FlipBox(FlipBox(b, width), width) == b
  {
  }

  /** Flipping every box twice gives the boxes back. */
  lemma {:induction false} FlipAllInvolution(boxes: seq<Box>, width: int)
    ensures FlipAll(FlipAll(boxes, width), width) == boxes
  {
    var twice := FlipAll(FlipAll(boxes, width), width);
    forall k | 0 <= k < |boxes|
      ensures twice[k] == boxes[k]
    {
      FlipBoxInvolution(boxes[k], width);
    }
  }

  /** horizontal_flip_bounding_box on boxes already in XYXY form, updated in place; the
      width is the second component of the image size (height, width). */
  method HorizontalFlipBoundingBox(boxes: array<Box>, imageSize: (int, int))
    modifies boxes
    ensures boxes[..] == FlipAll(old(boxes[..]), imageSize.1)
  {
    forall k | 0 <= k < boxes.Length {
      boxes[k] := FlipBox(boxes[k], imageSize.1);
    }
  }

  /** A box with its x values scaled by xRatio and its y values by yRatio. */
  function ScaleBox(b: Box, xRatio: real, yRatio: real): Box {
    Box(b.x1 * xRatio, b.y1 * yRatio, b.x2 * xRatio, b.y2 * yRatio)
  }

  /** resize_bounding_box: from an image of imageSize = (height, width) to one of
      size = [height, width], every x is scaled by the ratio of the widths and every y by
      the ratio of the heights. A size that is not two values fails to unpack; a zero old
      extent is a division by zero. */
  function ResizeBoundingBox(boxes: seq<Box>, size: seq<int>, imageSize: (int, int)): (r: Result<seq<Box>>)
    ensures r.Err? <==> |size| != 2 || imageSize.0 == 0 || imageSize.1 == 0
    ensures r.Err? ==> r.error == if |size| != 2 then BadSizeArity else DivisionByZero
    ensures r.Ok? ==> |r.value| == |boxes|
    ensures r.Ok? ==> forall k :: 0 <= k < |boxes| ==>
      ScaleBox(r.value[k], imageSize.1 as real, imageSize.0 as real) ==
      ScaleBox(boxes[k], size[1] as real, size[0] as real)
  {
    var (oldHeight, oldWidth) := imageSize;
    if |size| != 2 then Err(BadSizeArity)
    else
      var (newHeight, newWidth) := (size[0], size[1]);
      if oldWidth == 0 || oldHeight == 0 then Err(DivisionByZero)
      else
        var xRatio := newWidth as real / oldWidth as real;
        var yRatio := newHeight as real / oldHeight as real;
        Ok(seq(|boxes|, k requires 0 <= k < |boxes| => ScaleBox(boxes[k], xRatio, yRatio)))
  }

  /** Scaling by a ratio and then by its reciprocal changes nothing. */
  lemma {:induction false} ScaleBoxInverse(b: Box, xNew: real, xOld: real, yNew: real, yOld: real)
    requires xNew != 0.0 && xOld != 0.0 && yNew != 0.0 && yOld != 0.0
    ensures ScaleBox(ScaleBox(b, xNew / xOld, yNew / yOld), xOld / xNew, yOld / yNew) == b
  {
    assert (xNew / xOld) * (xOld / xNew) == 1.0;
    assert (yNew / yOld) * (yOld / yNew) == 1.0;
  }

  /** Resizing the boxes to a new size and back to the old one gives them back. */
  lemma {:induction false} ResizeRoundTrip(boxes: seq<Box>, size: seq<int>, imageSize: (int, int))
    requires |size| == 2 && size[0] != 0 && size[1] != 0
    requires imageSize.0 != 0 && imageSize.1 != 0
    ensures ResizeBoundingBox(ResizeBoundingBox(boxes, size, imageSize).value,
                              [imageSize.0, imageSize.1], (size[0], size[1])) == Ok(boxes)
  {
    var there := ResizeBoundingBox(boxes, size, imageSize).value;
    var back := ResizeBoundingBox(there, [imageSize.0, imageSize.1], (size[0], size[1])).value;
    var (xNew, xOld) := (size[1] as real, imageSize.1 as real);
    var (yNew, yOld) := (size[0] as real, imageSize.0 as real);
    forall k | 0 <= k < |boxes|
      ensures back[k] == boxes[k]
    {
      assert there[k] == ScaleBox(boxes[k], xNew / xOld, yNew / yOld);
      assert back[k] == ScaleBox(there[k], xOld / xNew, yOld / yNew);
      ScaleBoxInverse(boxes[k], xNew, xOld, yNew, yOld);
    }
    assert back == boxes;
  }

  /** Resizing to k times the old height and width multiplies every coordinate by k. */
  lemma {:induction false} ResizeUniformScale(boxes: seq<Box>, imageSize: (int, int), factor: int)
    requires imageSize.0 != 0 && imageSize.1 != 0
    ensures ResizeBoundingBox(boxes, [factor * imageSize.0, factor * imageSize.1], imageSize) ==
            Ok(seq(|boxes|, k requires 0 <= k < |boxes| => ScaleBox(boxes[k], factor as real, factor as real)))
  {
    var (h, w) := imageSize;
    assert (factor * w) as real / w as real == factor as real;
    assert (factor * h) as real / h as real == factor as real;
  }

  /** With positive extents a resize keeps every box's corner order on both axes. */
  lemma {:induction false} ResizeKeepsOrder(boxes: seq<Box>, size: seq<int>, imageSize: (int, int), k: nat)
    requires |size| == 2 && size[0] > 0 && size[1] > 0 && imageSize.0 > 0 && imageSize.1 > 0
    requires k < |boxes| && boxes[k].x1 <= boxes[k].x2 && boxes[k].y1 <= boxes[k].y2
    ensures var r := ResizeBoundingBox(boxes, size, imageSize).value;
            r[k].x1 <= r[k].x2 && r[k].y1 <= r[k].y2
  {
    var xRatio := size[1] as real / imageSize.1 as real;
    var yRatio := size[0] as real / imageSize.0 as real;
    assert xRatio > 0.0 && yRatio > 0.0;
    assert boxes[k].x1 * xRatio <= boxes[k].x2 * xRatio;
    assert boxes[k].y1 * yRatio <= boxes[k].y2 * yRatio;
  }
}
