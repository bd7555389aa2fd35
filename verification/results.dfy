/** Error kinds of the placement-rule constraint compiler, and the
    failure-compatible wrappers the rest of the model returns. */
module Results {

  /** The five classified failures of NewRules. Each stands for one of the
      placement package's sentinel errors; message text and wrapping are not
      modelled. */
  datatype Error =
    | InvalidReplicas          // ErrInvalidConstraintsRelicas
    | InvalidFormat            // ErrInvalidConstraintsFormat
    | InvalidConstraintFormat  // ErrInvalidConstraintFormat (one malformed token of a map key)
    | InvalidMapCount          // ErrInvalidConstraintsMapcnt
    | InvalidMappingSeparator  // ErrInvalidConstraintsMappingWrongSeparator

  datatype Option<+T> = None | Some(value: T)

  datatype Result<+T> = Ok(value: T) | Err(error: Error) {

    predicate IsFailure() {
      Err?
    }

    function PropagateFailure<U>(): Result<U>
      requires Err?
    {
      Err(error)
    }

    function Extract(): T
      requires Ok?
    {
      value
    }
  }
}
