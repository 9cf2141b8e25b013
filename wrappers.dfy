/** Values that stand for "a result, or the Python exception that was raised instead". */
module Wrappers {

  datatype Option<+T> = None | Some(value: T)

  /** The built-in Python exceptions the postprocessing code can raise on malformed input. */
  datatype PythonError =
    | IndexError   // indexing past the end: `outputs[0]` of an empty batch, `input_shape[2]` of a short shape
    | ValueError   // a reduction over an empty array (`np.max`, `np.argmax`) or a short tuple unpack
    | TypeError    // an ordering comparison between a float and `None`

  datatype Result<+T> = Ok(value: T) | Err(error: PythonError)
}
