/** Datatypes shared by every model in the project. */
module Prelude {

  /** A value that may be missing. */
  datatype Option<T> = None | Some(value: T) {

    /** This value when present, otherwise `other`. */
    function Or(other: Option<T>): Option<T> {
      if None? then other else this
    }
  }

  /** The outcome of an operation that can fail for reasons outside the model. */
  datatype Result<T> = Ok(value: T) | Err
}
