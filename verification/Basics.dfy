/** What several modules share: an optional value, machine constants, and a fact about finite sets. */
module Basics {
  const UINT: int := 0x1_0000_0000
  const KERNBASE: int := 0x8000_0000

  datatype Option<T> = None | Some(value: T)

  lemma SubsetSize<T>(a: set<T>, b: set<T>)
    requires a <= b
    ensures |a| <= |b|
  {
    assert b == a + (b - a);
  }
}
