/** The option type and a fact about sets, shared by the other modules. */
module Wrappers {
  datatype Option<+T> = None | Some(value: T)

  lemma SubsetIsSmaller<T>(a: set<T>, b: set<T>)
    requires a <= b
    ensures |a| <= |b|
  {
    assert b == a + (b - a);
  }
}
