/** Errors raised by the geometry helpers, and the result type that carries them. */
module Errors {

  /** The exceptions the helpers raise. Every kind is a Python ValueError,
      except DivisionByZero, which is a ZeroDivisionError. */
  datatype Error =
    | BadSizeArity          // a crop or output size that does not normalise to (h, w)
    | CropLargerThanImage   // five/ten crop asked for more than the image holds
    | BadTranslateArity     // affine translate is not of length 2
    | NonPositiveScale      // affine scale <= 0
    | BadShearArity         // affine shear does not normalise to two values
    | DivisionByZero        // a resize ratio with a zero old extent

  /** Either the value a helper returns or the exception it raises. */
  datatype Result<T> = Ok(value: T) | Err(error: Error)
}
