/** The optional value used for absent JSON fields, storage keys and
    not-yet-rendered views. */
module Wrappers {
  datatype Option<T> = None | Some(value: T) {
    function GetOr(default: T): T {
      if Some? then value else default
    }
  }
}
