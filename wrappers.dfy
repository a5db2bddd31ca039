/** Option and Result: the nullable references and the success-or-exception outcomes of the editor. */
module Wrappers {

  /** A C# reference or string that may be null. */
  datatype Option<+T> = None | Some(value: T) {
    function GetOr(default: T): T
    {
      match this
      case Some(v) => v
      case None => default
    }
  }

  /** The outcome of a call into a collaborator that may throw: the value, or the exception's message. */
  datatype Result<+T> = Ok(value: T) | Err(message: string)
}
