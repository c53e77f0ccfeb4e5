/** Optional values, and sequences without repeated elements, shared by the models. */
module Wrappers {
  /** The model of JavaScript's `undefined`-able fields and parameters. */
  datatype Option<+T> = None | Some(value: T)

  /** No element occurs twice. */
  ghost predicate NoRepeats<T>(s: seq<T>)
  {
    forall i, j :: 0 <= i < j < |s| ==> s[i] != s[j]
  }
}
