/** Optional values, results, and the exceptions the converter can raise. */
module Results {

  /** Python's `None`-or-value. */
  datatype Option<+T> = None | Some(value: T) {
    /** `x if x is not None else default` */
    function GetOr(default: T): T {
      if Some? then value else default
    }
  }

  /** The exceptions raised on the paths the model covers. */
  datatype PyError =
    | ShapeMismatch(elements: nat, extents: seq<nat>)  // ValueError from `ndarray.reshape`
    | NoneSubscript(field: string)                     // TypeError: a `None` field indexed
    | NoneLength(field: string)                        // TypeError: `len` of a `None` field
    | IndexOutOfRange(field: string, index: nat)       // IndexError: sequence or axis too short
    | TooManyIndices(ndim: nat)                        // IndexError: `data[i, :, :]` on fewer than 3 axes
    | EmptyMinimum                                     // ValueError: `np.min` of a zero-size array

  datatype Result<+T> = Ok(value: T) | Err(error: PyError)
}
