/** What several of the models share. */
module Basics {

  datatype Option<+T> = None | Some(value: T)

  /** The size of a page of memory. */
  const PAGE: nat := 4096

  function Min(a: int, b: int): int { if a < b then a else b }

  function Max(a: int, b: int): int { if a < b then b else a }

  ghost predicate NoRepeats<T>(s: seq<T>) {
    forall i, j :: 0 <= i < j < |s| ==> s[i] != s[j]
  }
}
