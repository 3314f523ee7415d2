/** Failure-compatible result types shared by every module of the model. */
module Wrappers {

  /** The Python exception class an operation of the source raises. */
  datatype Error =
    | IndexError           // list / memoryview index out of range, pop from an empty list
    | StructError          // struct.unpack on too few bytes
    | ValueError           // an enum built from a value it does not define
    | KeyError             // a dict lookup of an absent key
    | AttributeError       // an attribute read on `None`
    | TypeError            // an operator or builtin applied to values of the wrong type
    | AssertionError       // a failed `assert`
    | NotImplementedError  // an instruction without `execute`, an unimplemented helper
    | Unmodelled           // the source calls into something this model keeps abstract

  datatype Option<+T> = None | Some(value: T)

  datatype Result<+T> = Ok(value: T) | Err(error: Error) {
    predicate IsFailure() { Err? }

    function PropagateFailure<U>(): Result<U>
      requires Err?
    {
      Err(error)
    }

    function Extract(): T
      requires Ok?
    {
      value
    }
  }
}
