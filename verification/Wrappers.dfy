/** An optional value, for the fields and lookups that may be `undefined` or `null` in TypeScript. */
module Wrappers {

  datatype Option<+T> = None | Some(value: T) {
    /** The `??` operator. */
    function GetOr(default: T): T {
      match this
      case Some(v) => v
      case None => default
    }
  }

  /** An element to choose from a set that is not empty. */
  lemma AnElement<T>(s: set<T>) returns (x: T)
    requires s != {}
    ensures x in s
  {
    assert s != {};
    x :| x in s;
  }
}
