/** Shared vocabulary. */
module Wrappers {
  datatype Option<+T> = None | Some(value: T)

  /** A row's primary key. */
  type ProxyId = int

  lemma SomeMember(s: set<int>)
    requires s != {}
    ensures exists x: int :: x in s
  {
    assert (forall x: int :: x !in s) ==> s == {};
  }

  lemma SubsetSize<T>(a: set<T>, b: set<T>)
    requires a <= b
    ensures |a| <= |b|
  {
    assert b == a + (b - a);
  }
}
