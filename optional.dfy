/** An optional value: JavaScript's `T | undefined`. */
module Optional {

  datatype Option<+T> = None | Some(value: T)

  /** A `Fail` carries the error a JavaScript function would have thrown. */
  datatype Outcome<+E> = Pass | Fail(error: E)

  /** `s` holds no element twice: the shape of a JavaScript `Set`'s iteration order. */
  predicate NoDuplicates<T(==)>(s: seq<T>)
  {
    forall i, j :: 0 <= i < j < |s| ==> s[i] != s[j]
  }
}
