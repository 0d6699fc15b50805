/** Parent pointers and what it means to be an ancestor along them. Consensus digests and engine
    blocks are two such structures. */
module Ancestry {
  import opened Basics

  type Parents = map<Hash, Hash>

  /** The `k`-th ancestor of `d`, if the pointers lead that far. */
  function Up(parents: Parents, d: Hash, k: nat): Option<Hash>
    decreases k
  {
    if k == 0 then Some(d)
    else if d in parents then Up(parents, parents[d], k - 1)
    else None
  }

  /** `d` is `a` or a descendant of it. */
  ghost predicate Descends(parents: Parents, a: Hash, d: Hash) {
    exists k: nat :: Up(parents, d, k) == Some(a)
  }

  lemma DescendsReflexive(parents: Parents, d: Hash)
    ensures Descends(parents, d, d)
  {
    assert Up(parents, d, 0) == Some(d);
  }

  /** New pointers never disturb the ancestors already there. */
  lemma {:induction false} UpMonotone(parents: Parents, more: Parents, d: Hash, k: nat)
    requires parents.Keys <= more.Keys && forall h | h in parents :: more[h] == parents[h]
    requires Up(parents, d, k).Some?
    ensures Up(more, d, k) == Up(parents, d, k)
    decreases k
  {
    if k > 0 {
      UpMonotone(parents, more, parents[d], k - 1);
    }
  }

  lemma DescendsMonotone(parents: Parents, more: Parents, a: Hash, d: Hash)
    requires parents.Keys <= more.Keys && forall h | h in parents :: more[h] == parents[h]
    requires Descends(parents, a, d)
    ensures Descends(more, a, d)
  {
    var k: nat :| Up(parents, d, k) == Some(a);
    UpMonotone(parents, more, d, k);
  }

  /** `part` is obtained from `whole` by leaving elements out. */
  predicate Subsequence<T(==)>(part: seq<T>, whole: seq<T>) {
    if part == [] then true
    else if whole == [] then false
    else if part[|part| - 1] == whole[|whole| - 1] then Subsequence(part[..|part| - 1], whole[..|whole| - 1])
    else Subsequence(part, whole[..|whole| - 1])
  }
}
