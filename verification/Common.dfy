/** Failure-carrying results shared by every component of the model. */
module Common {
  datatype Option<+T> = None | Some(value: T)

  /** The outcome of an operation that the server reports with an `error` value. */
  datatype Result<+T, +E> = Ok(value: T) | Err(error: E)

  predicate OccursAt(t: string, s: string, i: nat) {
    i + |s| <= |t| && t[i..i + |s|] == s
  }

  /** Whether `s` occurs in `t`. */
  predicate Contains(t: string, s: string) {
    exists i: nat :: i <= |t| && OccursAt(t, s, i)
  }

  predicate HasPrefix(t: string, s: string) {
    |s| <= |t| && t[..|s|] == s
  }

  predicate HasSuffix(t: string, s: string) {
    |s| <= |t| && t[|t| - |s|..] == s
  }

  /** No element occurs twice. */
  predicate Distinct<T(==)>(s: seq<T>) {
    forall i, j :: 0 <= i < j < |s| ==> s[i] != s[j]
  }
}
