/** Option values and small facts about sequences that several modules share. */
module Wrappers {

  datatype Option<+T> = None | Some(value: T)

  /** No element occurs at two positions. */
  ghost predicate Distinct<T>(s: seq<T>) {
    forall i, j :: 0 <= i < j < |s| ==> s[i] != s[j]
  }
}
