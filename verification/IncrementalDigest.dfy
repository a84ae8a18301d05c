/**
 One digest call as a function of the records, the stored digests and the flags, and the
 condition under which it yields the Merkle root that a full rebuild would yield.
 */
module IncrementalDigest {
  import opened MerkleTree

  function Leaves<R, D>(leaf: R -> D, records: seq<R>): (s: seq<D>)
    ensures |s| == |records|
  {
    seq(|records|, i requires 0 <= i < |records| => leaf(records[i]))
  }

  /** Flagged leaves are hashed again. */
  ghost function LeafPass<R, D>(leaf: R -> D, records: seq<R>, d: seq<D>, f: seq<bool>): (e: seq<D>)
    requires |records| == |f| && |d| == 2 * |f| - 1
    ensures |e| == |d|
  {
    seq(|d|, m requires 0 <= m < |d| => if m < |f| && f[m] then leaf(records[m]) else d[m])
  }

  /** The digest array after a digest call. */
  ghost function DigestCall<R, D>(leaf: R -> D, node: (D, D) -> D, records: seq<R>, d: seq<D>, f: seq<bool>)
    : (e: seq<D>)
    requires |records| == |f| && |d| == 2 * |f| - 1
    ensures |e| == |d|
  {
    RefreshedAll(node, LeafPass(leaf, records, d, f), f)
  }

  /** Stored digests are right wherever no flag is raised. */
  ghost predicate Current<R, D>(leaf: R -> D, node: (D, D) -> D, records: seq<R>, d: seq<D>, f: seq<bool>) {
    && |records| == |f| && |d| == 2 * |f| - 1
    && Hashed(node, d, |f|)
    && forall i :: 0 <= i < |f| && !f[i] ==> d[i] == leaf(records[i])
  }

  function NoFlags(n: nat): seq<bool> {
    seq(n, _ => false)
  }

  function AllFlags(n: nat): seq<bool> {
    seq(n, _ => true)
  }

  lemma CurrentSizes<R, D>(leaf: R -> D, node: (D, D) -> D, records: seq<R>, d: seq<D>, f: seq<bool>)
    requires Current(leaf, node, records, d, f)
    ensures |f| == |records| && |d| == 2 * |records| - 1
  {
  }

  /** A node above unflagged leaves only is still the hash of its children after the leaves are hashed. */
  lemma {:induction false} CleanNodeStays<R, D>(leaf: R -> D, node: (D, D) -> D, records: seq<R>, d: seq<D>,
                                                f: seq<bool>, m: nat)
    requires Current(leaf, node, records, d, f) && |f| <= m < |d| && !Dirty(f, m)
    ensures NodeHashed(node, LeafPass(leaf, records, d, f), |f|, m)
  {
    assert NodeHashed(node, d, |f|, m);
    assert !Dirty(f, 2 * (m - |f|)) && !Dirty(f, 2 * (m - |f|) + 1);
  }

  /** The incremental call yields the tree, and so the root, of a rebuild from scratch. */
  lemma {:induction false} DigestCallIsRoot<R, D>(leaf: R -> D, node: (D, D) -> D, records: seq<R>, d: seq<D>,
                                                  f: seq<bool>)
    requires Current(leaf, node, records, d, f) && Pow2(|f|)
    ensures var e := DigestCall(leaf, node, records, d, f);
      && IsTree(node, e, Leaves(leaf, records))
      && e[|e| - 1] == Root(node, Leaves(leaf, records))
      && Current(leaf, node, records, e, NoFlags(|f|))
  {
    hide RefreshedAll, Root, Pow2, IsTree, Leaves, NodeHashed, Dirty;
    var d1 := LeafPass(leaf, records, d, f);
    forall m | |f| <= m < |d1| && !Dirty(f, m)
      ensures NodeHashed(node, d1, |f|, m)
    {
      CleanNodeStays(leaf, node, records, d, f, m);
    }
    TreeAfterPass(leaf, node, records, d1, f);
  }

  /** A call with every flag raised needs nothing from the stored digests. */
  lemma {:induction false} FullCallIsRoot<R, D>(leaf: R -> D, node: (D, D) -> D, records: seq<R>, d: seq<D>)
    requires |d| == 2 * |records| - 1 && Pow2(|records|)
    ensures var e := DigestCall(leaf, node, records, d, AllFlags(|records|));
      && IsTree(node, e, Leaves(leaf, records))
      && e[|e| - 1] == Root(node, Leaves(leaf, records))
      && Current(leaf, node, records, e, NoFlags(|records|))
  {
    hide RefreshedAll, Root, Pow2, IsTree, Leaves, NodeHashed, Dirty;
    var f := AllFlags(|records|);
    var d1 := LeafPass(leaf, records, d, f);
    forall m | |f| <= m < |d1|
      ensures Dirty(f, m)
    {
      FullPassIsDirty(f, m);
    }
    TreeAfterPass(leaf, node, records, d1, f);
  }

  lemma {:induction false} EitherCallIsRoot<R, D>(leaf: R -> D, node: (D, D) -> D, records: seq<R>, d: seq<D>,
                                                  f: seq<bool>, full: bool)
    requires |records| == |f| && |d| == 2 * |f| - 1 && Pow2(|f|)
    ensures full || Current(leaf, node, records, d, f) ==>
      DigestCall(leaf, node, records, d, if full then AllFlags(|f|) else f)[|d| - 1]
          == Root(node, Leaves(leaf, records))
  {
    hide Root, Leaves, DigestCall, Current, IsTree, Pow2;
    if full {
      FullCallIsRoot(leaf, node, records, d);
    } else if Current(leaf, node, records, d, f) {
      DigestCallIsRoot(leaf, node, records, d, f);
    }
  }

  lemma {:induction false} TreeAfterPass<R, D>(leaf: R -> D, node: (D, D) -> D, records: seq<R>, d1: seq<D>,
                                               f: seq<bool>)
    requires |records| == |f| && |d1| == 2 * |f| - 1 && Pow2(|f|)
    requires forall i :: 0 <= i < |f| ==> d1[i] == leaf(records[i])
    requires forall m :: |f| <= m < |d1| && !Dirty(f, m) ==> NodeHashed(node, d1, |f|, m)
    ensures var e := RefreshedAll(node, d1, f);
      && IsTree(node, e, Leaves(leaf, records))
      && e[|e| - 1] == Root(node, Leaves(leaf, records))
      && Current(leaf, node, records, e, NoFlags(|f|))
  {
    hide RefreshedAll, NodeHashed, Dirty, Root, Pow2;
    var e := RefreshedAll(node, d1, f);
    RefreshRestores(node, d1, f);
    assert d1[..|f|] == Leaves(leaf, records);
    TreeRoot(node, e, Leaves(leaf, records));
    assert forall i :: 0 <= i < |f| ==> e[..|f|][i] == e[i];
  }

  /** With no flag raised, a digest call changes nothing: calling it again leaves the root alone. */
  lemma {:induction false} IdleCallKeeps<R, D>(leaf: R -> D, node: (D, D) -> D, records: seq<R>, d: seq<D>)
    requires |d| == 2 * |records| - 1
    ensures DigestCall(leaf, node, records, d, NoFlags(|records|)) == d
  {
    var f := NoFlags(|records|);
    assert LeafPass(leaf, records, d, f) == d;
    forall m | 0 <= m < |d|
      ensures !Dirty(f, m)
    {
      DirtyMeansFlaggedLeaf(f, m);
    }
  }

  /** Changing records only in slots whose flags are raised keeps the stored digests current. */
  lemma ChangeKeepsCurrent<R, D>(leaf: R -> D, node: (D, D) -> D, records: seq<R>, records': seq<R>, d: seq<D>,
                                 f: seq<bool>, f': seq<bool>)
    requires Current(leaf, node, records, d, f) && |records'| == |records| && |f'| == |f|
    requires forall i :: 0 <= i < |f| && !f'[i] ==> !f[i] && records'[i] == records[i]
    ensures Current(leaf, node, records', d, f')
  {
  }
}
