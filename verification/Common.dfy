/**
  What several of the models share.
 */
module Common {

  datatype Option<T> = None | Some(value: T)

  type byte = x: int | 0 <= x < 256

  ghost predicate NoDup<T(!new)>(s: seq<T>) {
    forall i, j :: 0 <= i < j < |s| ==> s[i] != s[j]
  }
}
