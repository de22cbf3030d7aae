/** Failure-carrying results shared by every module. */
module Wrappers {
  datatype Option<+T> = None | Some(value: T) {
    function GetOr(other: T): T { if Some? then value else other }
  }

  datatype Result<+R, +E> = Success(value: R) | Failure(error: E)
}
