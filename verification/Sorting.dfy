/** sort.Slice seen from outside: some permutation that is sorted by key. How
    equal keys are ordered is not promised, so nothing here says it. */
module Sorting {

  ghost predicate Permutes(perm: seq<nat>, n: nat) {
    && |perm| == n
    && (forall k | 0 <= k < n :: perm[k] < n)
    && (forall i | 0 <= i < n :: i in perm)
  }

  /** One such permutation. Any other is that of keys which tell the equal ones
      apart. */
  function SortByKey(keys: seq<nat>): (perm: seq<nat>)
    ensures Permutes(perm, |keys|) && InOrder(keys, perm)
  {
    SortFirst(keys, |keys|)
  }

  ghost predicate InOrder(keys: seq<nat>, perm: seq<nat>) {
    && (forall k | 0 <= k < |perm| :: perm[k] < |keys|)
    && forall i, j | 0 <= i < j < |perm| :: keys[perm[i]] <= keys[perm[j]]
  }

  function SortFirst(keys: seq<nat>, n: nat): (perm: seq<nat>)
    requires n <= |keys|
    ensures Permutes(perm, n) && InOrder(keys, perm)
  {
    if n == 0 then []
    else
      var perm := SortFirst(keys, n - 1);
      var at := Place(keys, perm, keys[n - 1]);
      PermutesWith(perm, n - 1, at);
      InsertedInOrder(keys, perm, n - 1, at);
      perm[..at] + [n - 1] + perm[at..]
  }

  /** After all keys up to the given one. */
  function Place(keys: seq<nat>, perm: seq<nat>, key: nat): (at: nat)
    requires InOrder(keys, perm)
    ensures at <= |perm|
    ensures forall i | 0 <= i < at :: keys[perm[i]] <= key
    ensures forall i | at <= i < |perm| :: key <= keys[perm[i]]
  {
    var n := |perm|;
    if n == 0 || keys[perm[n - 1]] <= key then n else Place(keys, perm[..n - 1], key)
  }

  lemma InsertedInOrder(keys: seq<nat>, perm: seq<nat>, n: nat, at: nat)
    requires InOrder(keys, perm) && n < |keys| && at <= |perm|
    requires forall i | 0 <= i < at :: keys[perm[i]] <= keys[n]
    requires forall i | at <= i < |perm| :: keys[n] <= keys[perm[i]]
    ensures InOrder(keys, perm[..at] + [n] + perm[at..])
  {
  }

  lemma PermutesWith(perm: seq<nat>, n: nat, at: nat)
    requires Permutes(perm, n) && at <= n
    ensures Permutes(perm[..at] + [n] + perm[at..], n + 1)
  {
    var more := perm[..at] + [n] + perm[at..];
    assert more[at] == n;
    forall i | 0 <= i < n ensures i in more {
      assert i in perm;
      var k :| 0 <= k < n && perm[k] == i;
      assert more[if k < at then k else k + 1] == i;
    }
  }
}
