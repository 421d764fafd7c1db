/** Option type standing for the nullable pointers of the chart (a missing
    rectangle, a missing data point, a missing time range). */
module Wrappers {

  datatype Option<+T> = None | Some(value: T) {

    /** Returns the value in Some, or a default for None */
    function GetOr(default: T): T {
      match this
      case Some(v) => v
      case None => default
    }
  }
}
