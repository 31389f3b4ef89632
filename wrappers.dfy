/** Small value wrappers shared by the other modules. */
module Wrappers {

  /** A value that may be absent, such as a photo's caption. */
  datatype Option<+T> = None | Some(value: T) {
    function GetOr(default: T): T {
      match this
      case Some(v) => v
      case None => default
    }
  }

  /** The outcome of a call into the chat platform or the AI service:
      either it raised an exception or it returned a value. */
  datatype Call<+T> = Raised | Returned(value: T)
}
