/** Normalisation of the `size` / `output_size` arguments of the crop helpers. */
module SizeParsing {
  import opened Errors

  /** A size as a caller passes it: a single number, or a list or tuple of integers. */
  datatype SizeArg = Number(x: real) | Sizes(items: seq<int>)

  /** Python's int() on a number: truncation toward zero. */
  function Truncate(x: real): (n: int)
    ensures 0.0 <= x ==> n as real <= x < n as real + 1.0
    ensures x <= 0.0 ==> n as real - 1.0 < x <= n as real
  {
    if x >= 0.0 then x.Floor else -((-x).Floor)
  }

  /** The center-crop size: a number n is the square [n, n], a one-element
      sequence [a] is the square [a, a], any other sequence is kept as it is. */
  function ParseOutputSize(size: SizeArg): (r: seq<int>)
    ensures |r| == 2 <==> size.Number? || |size.items| == 1 || |size.items| == 2
    ensures size.Number? ==> |r| == 2 && r[0] == r[1] == Truncate(size.x)
    ensures size.Sizes? && |size.items| == 1 ==> |r| == 2 && r[0] == r[1] == size.items[0]
    ensures size.Sizes? && |size.items| != 1 ==> r == size.items
    ensures |r| != 1
  {
    match size
    case Number(x) => [Truncate(x), Truncate(x)]
    case Sizes(items) => if |items| == 1 then [items[0], items[0]] else items
  }

  /** The five-crop size: normalised as the center-crop size, then anything that
      is not exactly (height, width) is a ValueError. */
  function ParseFiveCropSize(size: SizeArg): (r: Result<(int, int)>)
    ensures r.Ok? <==> |ParseOutputSize(size)| == 2
    ensures r.Err? ==> r.error == BadSizeArity
    ensures r.Ok? ==> r.value.0 == ParseOutputSize(size)[0] && r.value.1 == ParseOutputSize(size)[1]
  {
    var s := ParseOutputSize(size);
    if |s| != 2 then Err(BadSizeArity) else Ok((s[0], s[1]))
  }

  /** A size that normalises to (height, width) has no negative value; sizes of any other
      length are refused before their values are used. */
  predicate NonNegativeSize(size: SizeArg) {
    |ParseOutputSize(size)| == 2 ==> ParseOutputSize(size)[0] >= 0 && ParseOutputSize(size)[1] >= 0
  }

  /** Normalising an already normalised size changes nothing. */
  lemma {:induction false} ParseOutputSizeIdempotent(size: SizeArg)
    ensures ParseOutputSize(Sizes(ParseOutputSize(size))) == ParseOutputSize(size)
  {
  }
}
