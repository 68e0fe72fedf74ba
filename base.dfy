/** Outcomes shared by the whole model: an optional value (Python's None),
    and the result of an evaluation that may raise one of the uncaught
    Python exceptions the probe scripts can run into. An uncaught exception
    ends the script before it prints its report, so every such path is a
    `Fail` that the callers propagate unchanged. */
module Base {

  datatype Option<+T> = None | Some(value: T)

  /** The Python exceptions the probe scripts can raise and do not catch. */
  datatype PyError =
    | KeyError           // a missing dictionary key
    | ValueError         // int()/float() of a string that is not a number
    | TypeError          // int()/float() or subscripting of the wrong kind of object
    | ZeroDivisionError  // the unguarded hit-ratio division of the first-generation probe
    | AttributeError     // a derived command without a method behind it

  datatype Result<+T> = Ok(value: T) | Fail(error: PyError)
}
