/** Optional values, used for `Option<T>` arguments and for BSON field
    accessors that may fail. */
module Wrappers {

  datatype Option<+T> = None | Some(value: T) {

    /** The supplied value, or `default` when there is none. */
    function GetOr(default: T): T {
      match this
      case Some(v) => v
      case None => default
    }
  }
}
