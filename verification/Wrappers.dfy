/** Types and predicates that components share. */
module Wrappers {

  datatype Option<T> = None | Some(value: T)

  datatype Result<T, E> = Ok(value: T) | Err(error: E)

  type Byte = x: int | 0 <= x < 256

  type Bytes = seq<Byte>

  /** Different values with the same hash. */
  predicate Collide<T(==)>(hash: T -> string, a: T, b: T) {
    a != b && hash(a) == hash(b)
  }

  predicate Distinct<T(==)>(s: seq<T>) {
    forall i, j :: 0 <= i < j < |s| ==> s[i] != s[j]
  }
}
