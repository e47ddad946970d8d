/** Small helper datatypes and functions shared by the other modules. */
module Util {

  /** A value that may be missing: a nullable column, an absent dictionary key, an input that did not parse. */
  datatype Option<+T> = None | Some(value: T) {
    function GetOr(default: T): T {
      match this
      case Some(v) => v
      case None => default
    }
  }

  /** Some element of a non-empty set, named so that proofs can use it as a witness. */
  ghost function PickFrom<T>(s: set<T>): (x: T)
    requires s != {}
    ensures x in s
  {
    var x :| x in s; x
  }
}
