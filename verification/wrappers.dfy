/** The optional-value datatype shared by the other modules: it stands for
    JavaScript's `undefined` (a missing persisted value, a missing
    `charChanges` array, a navigation that emits no editor effect). */
module Wrappers {

  datatype Option<+T> = None | Some(value: T) {

    /** The carried value, or `default` when there is none; this is what a
        JavaScript destructuring default `x = default` does with `undefined`. */
    function GetOr(default: T): (r: T)
      ensures Some? ==> r == value
      ensures None? ==> r == default
    {
      match this
      case Some(v) => v
      case None => default
    }
  }
}
