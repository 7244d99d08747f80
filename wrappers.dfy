/** The optional value the handlers read out of dictionaries and messages. */
module Wrappers {

  datatype Option<+T> = None | Some(value: T) {

    /** Python's `d.get(k, default)` once the lookup has been made. */
    function GetOr(default: T): T
    {
      match this
      case Some(v) => v
      case None => default
    }
  }
}
