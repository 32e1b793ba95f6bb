/** Option and Result types shared by the model. A Python exception raised by
    the cheat-sheet builder becomes an `Err` carrying the kind of exception. */
module Common {

  datatype Option<+T> = None | Some(value: T)

  /** The Python exception kinds the modelled code can raise. */
  datatype Error =
    | AssertionFailed(what: string)   // a failed `assert`
    | KeyMissing(key: string)         // KeyError on a dict lookup
    | IndexOutOfRange(what: string)   // IndexError, e.g. `"".split()[0]`
    | UnpackMismatch(what: string)    // ValueError from a tuple unpacking
    | TypeMismatch(what: string)      // TypeError, e.g. `str.find` given an int

  /** A value or the exception that stopped the computation; usable with `:-`. */
  datatype Result<+T> = Ok(value: T) | Err(error: Error) {
    predicate IsFailure() { Err? }

    function PropagateFailure<U>(): Result<U>
      requires Err?
    {
      Err(error)
    }

    function Extract(): T
      requires Ok?
    {
      value
    }
  }

  /** Python truthiness of an optional string (None and "" are falsy). */
  predicate Truthy(o: Option<string>) {
    o.Some? && o.value != ""
  }

  /** Python truthiness of an optional integer (None and 0 are falsy). */
  predicate TruthyInt(o: Option<int>) {
    o.Some? && o.value != 0
  }
}
