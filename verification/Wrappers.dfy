/** A value that may be missing: what the programs express by null or undefined. */
module Wrappers {

  datatype Option<+T> = None | Some(value: T) {
    function GetOrElse(default: T): T { if this.Some? then this.value else default }
  }
}
