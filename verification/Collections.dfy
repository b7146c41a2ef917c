/** Vocabulary the models share. */
module Collections {

  datatype Option<+T> = None | Some(value: T)

  ghost predicate Distinct<T>(s: seq<T>) {
    forall i, j :: 0 <= i < j < |s| ==> s[i] != s[j]
  }

  function Elements<T>(s: seq<T>): set<T> {
    set x | x in s
  }

  ghost predicate Earlier<T>(s: seq<T>, x: T, y: T) {
    exists i, j :: 0 <= i < j < |s| && s[i] == x && s[j] == y
  }

  /** `order` enumerates the set. */
  ghost predicate Lists<T(!new)>(order: seq<T>, s: set<T>) {
    Distinct(order) && forall x :: x in order <==> x in s
  }
}
