/** Lists without repetitions. */
module Strs {

  /** The first occurrence of each element. */
  method Unique<T(==)>(strs: seq<T>) returns (unique: seq<T>)
    ensures forall s :: s in unique <==> s in strs
    ensures forall i, j | 0 <= i < j < |unique| :: unique[i] != unique[j]
  {
    var seen: set<T> := {};
    unique := [];
    for n := 0 to |strs|
      invariant forall s :: s in seen <==> s in strs[..n]
      invariant forall s :: s in unique <==> s in seen
      invariant forall i, j | 0 <= i < j < |unique| :: unique[i] != unique[j]
    {
      assert strs[..n + 1] == strs[..n] + [strs[n]];
      if strs[n] !in seen {
        seen := seen + {strs[n]};
        unique := unique + [strs[n]];
      }
    }
    assert strs[..|strs|] == strs;
  }
}
