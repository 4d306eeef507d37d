/** An optional value (an empty field or relation) and a pass/fail outcome
    (a blocking check), as used by the Session rules. */
module Options {

  /** An optional value; `None` plays the part of an empty field. */
  datatype Option<+T> = None | Some(value: T)

  /** The outcome of a blocking check: it passes, or fails with an error. */
  datatype Outcome<+E> = Pass | Fail(error: E)
}
