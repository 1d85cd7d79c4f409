/** The optional values of the C# model: `int?`, `string?` and the
    "null-or-frame" results of the validation helpers. */
module Wrappers {

  datatype Option<+T> = None | Some(value: T) {

    /** The contained value, or `default` when there is none. */
    function GetOr(default: T): T
    {
      match this
      case Some(v) => v
      case None => default
    }
  }
}
