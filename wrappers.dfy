/** Small value wrappers shared by the rest of the model. */
module Wrappers {

  /** An optional value: `undefined` / `null` in the hook is `None`. */
  datatype Option<+T> = None | Some(value: T) {
    function GetOr(default: T): T {
      match this
      case Some(v) => v
      case None => default
    }
  }

  /** The outcome of one awaited call into code outside the model (a contract read
      or write, the FHE SDK, the signature cache): it either answers or throws. */
  datatype Reply<+T> = Answer(value: T) | Throws
}
