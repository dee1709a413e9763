/** Shared result types: nullable values, the .NET exceptions the modelled code can
    raise, and the two ways a call can end. */
module Outcomes {

  /** A value that may be absent; `None` stands for a C# `null` reference. */
  datatype Option<+T> = None | Some(value: T)

  /** The exceptions that escape the modelled code. */
  datatype Fault =
    | NullReference     // a member used on a null JsonData or string
    | InvalidOperation  // a JsonData used as a container of the wrong kind
    | ArgumentNull      // a null key given to ToDictionary
    | DuplicateKey      // the same key given twice to ToDictionary
    | ParseError        // the stored text is not JSON

  /** A call either returns a value or an exception escapes it. */
  datatype Outcome<+T> = Returned(value: T) | Threw(fault: Fault)
}
