/** The optional value used throughout the model: `None` stands for JavaScript's
    `undefined` and for Python's "no match". */
module Wrappers {
  datatype Option<+T> = None | Some(value: T) {
    function GetOr(default: T): T {
      match this
      case Some(v) => v
      case None => default
    }
  }
}
