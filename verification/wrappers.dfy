/** The optional-value datatype shared by the model: a parse that can fail,
    a configuration value that can be unset, a score that falls in no bin. */
module Wrappers {

  datatype Option<+T> = None | Some(value: T) {

    /** The encapsulated value, or `default` when there is none. */
    function GetOr(default: T): T {
      match this
      case Some(v) => v
      case None => default
    }
  }
}
