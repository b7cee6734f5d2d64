/** Values shared by every module: an optional value, standing for the
    JavaScript `undefined`, `null` and `false` sentinels the source returns. */
module Common {

  datatype Option<+T> = None | Some(value: T)

  /** No element occurs twice. */
  predicate Distinct<T(==)>(s: seq<T>) {
    forall i, j :: 0 <= i < j < |s| ==> s[i] != s[j]
  }
}
