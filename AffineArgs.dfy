/** Validation and normalisation of the arguments of the affine transform. */
module AffineArgs {
  import opened Errors

  /** A Python number: an int or a float. */
  datatype Number = IntNumber(i: int) | FloatNumber(f: real)
  {
    /** The number as a float. */
    function AsFloat(): real {
      match this
      case IntNumber(i) => i as real
      case FloatNumber(f) => f
    }
  }

  /** Whether a Python sequence is a list or a tuple. */
  datatype SeqKind = List | Tuple

  /** A Python list or tuple of numbers. */
  datatype PySeq = PySeq(kind: SeqKind, items: seq<real>)

  /** The shear argument: a single number or a list or tuple of numbers. */
  datatype Shear = ShearNumber(s: real) | ShearSeq(values: PySeq)

  datatype Option<T> = None | Some(value: T)

  /** What the parser hands on: the angle as a float, translate and shear as lists of
      two values, and center as it was given. */
  datatype ParsedArgs = ParsedArgs(angle: real, translate: seq<real>, shear: seq<real>, center: Option<PySeq>)

  /** The shear forms the parser accepts: a number, or a sequence of one or two values. */
  predicate ShearAccepted(shear: Shear) {
    shear.ShearNumber? || |shear.values.items| == 1 || |shear.values.items| == 2
  }

  /** The shear as a list: a number s becomes [s, 0.0], a one-value sequence [s] becomes
      [s, s], and any other sequence is kept. */
  function ShearList(shear: Shear): (r: seq<real>)
    ensures |r| == 2 <==> ShearAccepted(shear)
    ensures shear.ShearNumber? ==> r == [shear.s, 0.0]
    ensures shear.ShearSeq? && |shear.values.items| == 1 ==> |r| == 2 && r[0] == r[1] == shear.values.items[0]
    ensures shear.ShearSeq? && |shear.values.items| != 1 ==> r == shear.values.items
  {
    match shear
    case ShearNumber(s) => [s, 0.0]
    case ShearSeq(values) =>
      if |values.items| == 1 then [values.items[0], values.items[0]] else values.items
  }

  /** _affine_parse_args: translate must hold two values, scale must be positive and shear
      must come to two values, checked in that order; on success the angle is a float,
      translate and shear are lists and center is passed on unchanged. */
  function ParseAffineArgs(angle: Number, translate: PySeq, scale: real, shear: Shear, center: Option<PySeq>)
    : (r: Result<ParsedArgs>)
    ensures r.Ok? <==> |translate.items| == 2 && scale > 0.0 && ShearAccepted(shear)
    ensures |translate.items| != 2 ==> r == Err(BadTranslateArity)
    ensures |translate.items| == 2 && scale <= 0.0 ==> r == Err(NonPositiveScale)
    ensures |translate.items| == 2 && scale > 0.0 && !ShearAccepted(shear) ==> r == Err(BadShearArity)
    ensures r.Ok? ==> r.value.angle == angle.AsFloat() && r.value.translate == translate.items
    ensures r.Ok? ==> r.value.center == center && |r.value.shear| == 2
    ensures r.Ok? && shear.ShearNumber? ==> r.value.shear == [shear.s, 0.0]
    ensures r.Ok? && shear.ShearSeq? ==> r.value.shear[0] == shear.values.items[0]
    ensures r.Ok? && shear.ShearSeq? ==> r.value.shear[1] == shear.values.items[|shear.values.items| - 1]
  {
    if |translate.items| != 2 then Err(BadTranslateArity)
    else if scale <= 0.0 then Err(NonPositiveScale)
    else
      var angleF := angle.AsFloat();
      var translateList := translate.items;
      var shearList := ShearList(shear);
      if |shearList| != 2 then Err(BadShearArity)
      else Ok(ParsedArgs(angleF, translateList, shearList, center))
  }

  /** Parsing what the parser returned, passed back as a float and lists, returns it unchanged. */
  lemma {:induction false} ParseAffineArgsIdempotent(
    angle: Number, translate: PySeq, scale: real, shear: Shear, center: Option<PySeq>)
    requires ParseAffineArgs(angle, translate, scale, shear, center).Ok?
    ensures var p := ParseAffineArgs(angle, translate, scale, shear, center).value;
            ParseAffineArgs(FloatNumber(p.angle), PySeq(List, p.translate), scale,
                            ShearSeq(PySeq(List, p.shear)), p.center) == Ok(p)
  {
  }
}
