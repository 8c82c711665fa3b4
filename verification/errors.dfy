/** Failure values of the upscaler and the two wrapper datatypes that carry them.

    Every exception the Python upscaler can raise on the paths modelled here becomes
    one constructor of `Error`; the comment on each names the Python exception. */
module Errors {

  datatype Error =
    /** `ValueError`: the backend name is none of torch, onnx, triton, huggingface. */
    | UnknownBackend(name: string)
    /** `NotImplementedError`: tiled inference requested on the onnx or triton backend. */
    | TilingUnsupported(name: string)
    /** `AssertionError`: a list of model paths whose length differs from the weight list. */
    | LengthMismatch
    /** `TypeError`: a list of model paths given without any interpolation weights. */
    | MissingWeights
    /** `IndexError`: fewer than two model paths or interpolation weights. */
    | MissingIndex
    /** `KeyError`: a checkpoint lacks the named parameter group. */
    | MissingKey(key: string)
    /** `KeyError`: the second checkpoint lacks a parameter of the first. */
    | MissingParam
    /** `ValueError`: an image array of rank below two (height and width cannot be unpacked). */
    | BadShape
    /** `ValueError`: the maximum of an image without samples. */
    | EmptyImage
    /** `cv2.error`: the final resize to a target extent with a side of zero or less. */
    | EmptyResize
    /** `cv2.error`: a colour conversion or resize of a network output without pixels. */
    | EmptyOutput

  datatype Option<+T> = None | Some(value: T)

  datatype Result<+T> = Ok(value: T) | Err(error: Error) {
    predicate IsFailure() {
      Err?
    }

    function PropagateFailure<U>(): Result<U>
      requires Err?
    {
      Err(error)
    }

    function Extract(): T
      requires Ok?
    {
      value
    }
  }
}
