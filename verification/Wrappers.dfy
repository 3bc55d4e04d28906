module Wrappers {
  datatype Option<+T> = None | Some(value: T)

  datatype Result<+T, +E> = Ok(value: T) | Err(error: E)

  /** Something to pick, if the set is not empty. */
  lemma SomeMember<T(0)>(s: set<T>) returns (x: T)
    ensures s != {} ==> x in s
  {
    if forall y :: y !in s {
      assert s == {};
      x := *;
    } else {
      x :| x in s;
    }
  }
}
