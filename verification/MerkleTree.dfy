/**
 The incrementally maintained Merkle tree behind computeSpectrumDigest and
 getUniverseDigest. Digests are stored level by level in one array of 2C - 1 nodes, so
 the children of node m >= C are nodes 2(m - C) and 2(m - C) + 1. One bitset of change
 flags is reused in place for every level. The hash function is a parameter.
 */
module MerkleTree {
  import opened ChangeFlags

  predicate Pow2(n: nat) {
    n == 1 || (n > 1 && n % 2 == 0 && Pow2(n / 2))
  }

  // ----- The tree built from scratch -----

  /** One level up: neighbours hashed in pairs. */
  function Pairs<D>(node: (D, D) -> D, s: seq<D>): (r: seq<D>)
    requires |s| % 2 == 0
    ensures |r| == |s| / 2
  {
    seq(|s| / 2, i requires 0 <= i < |s| / 2 => node(s[2 * i], s[2 * i + 1]))
  }

  /** The Merkle root of a power-of-two number of leaves. */
  function Root<D>(node: (D, D) -> D, leaves: seq<D>): D
    requires Pow2(|leaves|)
    decreases |leaves|
  {
    if |leaves| == 1 then leaves[0] else Root(node, Pairs(node, leaves))
  }

  lemma PairsJoin<D>(node: (D, D) -> D, left: seq<D>, right: seq<D>)
    requires |left| == |right| && |left| % 2 == 0
    ensures |left + right| % 2 == 0 && Pairs(node, left + right) == Pairs(node, left) + Pairs(node, right)
  {
    forall i | 0 <= i < |left|
      ensures Pairs(node, left + right)[i] == (Pairs(node, left) + Pairs(node, right))[i]
    {
    }
  }

  /** The root is the hash of the root of the left half and the root of the right half, in this order. */
  lemma {:induction false} RootHalves<D>(node: (D, D) -> D, left: seq<D>, right: seq<D>)
    requires |left| == |right| && Pow2(|left|)
    ensures Pow2(|left + right|)
    ensures Root(node, left + right) == node(Root(node, left), Root(node, right))
    decreases |left|
  {
    if |left| > 1 {
      PairsJoin(node, left, right);
      RootHalves(node, Pairs(node, left), Pairs(node, right));
    } else {
      assert Pairs(node, left + right) == [node(left[0], right[0])];
    }
  }

  // ----- What one digest call computes -----

  /** Node m has a re-hashed leaf below it. */
  ghost predicate Dirty(f: seq<bool>, m: nat)
    requires m < 2 * |f| - 1
    decreases m
  {
    if m < |f| then f[m] else Dirty(f, 2 * (m - |f|)) || Dirty(f, 2 * (m - |f|) + 1)
  }

  /** Node m after the levels have been recomputed along dirty paths only. */
  ghost function Refreshed<D>(node: (D, D) -> D, d: seq<D>, f: seq<bool>, m: nat): D
    requires |d| == 2 * |f| - 1 && m < |d|
    decreases m
  {
    if m < |f| || !Dirty(f, m) then d[m]
    else node(Refreshed(node, d, f, 2 * (m - |f|)), Refreshed(node, d, f, 2 * (m - |f|) + 1))
  }

  /** The whole refreshed array. */
  ghost function RefreshedAll<D>(node: (D, D) -> D, d: seq<D>, f: seq<bool>): (e: seq<D>)
    requires |d| == 2 * |f| - 1
    ensures |e| == |d|
  {
    seq(|d|, m requires 0 <= m < |d| => Refreshed(node, d, f, m))
  }

  /** Nodes below k are refreshed, the others are as before. */
  ghost predicate Upto<D>(node: (D, D) -> D, d0: seq<D>, f0: seq<bool>, d: seq<D>, k: nat) {
    && |d| == |d0| == 2 * |f0| - 1
    && (forall m :: 0 <= m < k && m < |d| ==> d[m] == Refreshed(node, d0, f0, m))
    && (forall m :: k <= m < |d| ==> d[m] == d0[m])
  }

  lemma UptoStep<D>(node: (D, D) -> D, d0: seq<D>, f0: seq<bool>, d: seq<D>, k: nat)
    requires Upto(node, d0, f0, d, k) && |f0| <= k < |d|
    ensures Dirty(f0, k) ==> Upto(node, d0, f0, d[k := node(d[2 * (k - |f0|)], d[2 * (k - |f0|) + 1])], k + 1)
    ensures !Dirty(f0, k) ==> Upto(node, d0, f0, d, k + 1)
  {
  }

  /** The inner loop: one level of n nodes from `begin`. */
  method PropagateLevel<D>(node: (D, D) -> D, digests: array<D>, flags: array<bv64>, begin: nat, n: nat,
                           ghost d0: seq<D>, ghost f0: seq<bool>)
    requires |f0| == 64 * flags.Length && digests.Length == 2 * |f0| - 1 && n % 2 == 0
    requires LevelFlags(f0, Bits(flags[..]), begin, n, 0) && Upto(node, d0, f0, digests[..], begin + n)
    modifies digests, flags
    ensures LevelFlags(f0, Bits(flags[..]), begin, n, n) && Upto(node, d0, f0, digests[..], begin + n + n / 2)
  {
    var digestIndex := begin + n;
    var i := 0;
    while i < n
      invariant i % 2 == 0 && i <= n && digestIndex == begin + n + i / 2
      invariant LevelFlags(f0, Bits(flags[..]), begin, n, i)
      invariant Upto(node, d0, f0, digests[..], digestIndex)
    {
      PropagatePair(node, digests, flags, begin, n, i, digestIndex, d0, f0);
      digestIndex := digestIndex + 1;
      i := i + 2;
    }
  }

  /** The body of the inner loop: one parent is re-hashed if one of its children changed. */
  method PropagatePair<D>(node: (D, D) -> D, digests: array<D>, flags: array<bv64>, begin: nat, n: nat, i: nat,
                          digestIndex: nat,
                          ghost d0: seq<D>, ghost f0: seq<bool>)
    requires |f0| == 64 * flags.Length && digests.Length == 2 * |f0| - 1 && n % 2 == 0
    requires i % 2 == 0 && i < n && digestIndex == begin + n + i / 2
    requires LevelFlags(f0, Bits(flags[..]), begin, n, i) && Upto(node, d0, f0, digests[..], digestIndex)
    modifies digests, flags
    ensures LevelFlags(f0, Bits(flags[..]), begin, n, i + 2) && Upto(node, d0, f0, digests[..], digestIndex + 1)
  {
    hide LevelFlags, Upto, Dirty, Refreshed;
    ghost var f := Bits(flags[..]);
    ParentDirty(f0, f, begin, n, i);
    UptoStep(node, d0, f0, digests[..], digestIndex);
    var changed := TestPair(flags, i);
    if changed {
      ghost var d := digests[..];
      digests[digestIndex] := node(digests[begin + i], digests[begin + i + 1]);
      assert digests[..] == d[digestIndex := node(d[begin + i], d[begin + i + 1])];
      LowerPair(flags, i);
      Raise(flags, i / 2);
    }
    LevelStep(f0, f, begin, n, i, Bits(flags[..]));
  }

  /** The level loops: digests are refreshed bottom up and every flag ends up clear. */
  method PropagateUp<D>(node: (D, D) -> D, digests: array<D>, flags: array<bv64>)
    requires Pow2(64 * flags.Length) && digests.Length == 2 * (64 * flags.Length) - 1
    modifies digests, flags
    ensures digests[..] == RefreshedAll(node, old(digests[..]), old(Bits(flags[..])))
    ensures forall j :: 0 <= j < 64 * flags.Length ==> !Bits(flags[..])[j]
  {
    hide LevelFlags, Upto, RefreshedAll, Bits;
    ghost var d0, f0 := digests[..], Bits(flags[..]);
    var begin := 0;
    var n: nat := 64 * flags.Length;
    LevelsStart(node, d0, f0);
    while n > 1
      invariant Pow2(n) && n <= |f0| && begin == 2 * |f0| - 2 * n
      invariant LevelFlags(f0, Bits(flags[..]), begin, n, 0)
      invariant Upto(node, d0, f0, digests[..], begin + n)
    {
      PropagateLevel(node, digests, flags, begin, n, d0, f0);
      LevelDone(f0, Bits(flags[..]), begin, n);
      begin := begin + n;
      n := n / 2;
    }
    LevelsEnd(node, d0, f0, digests[..], Bits(flags[..]), begin);
    LowerFirstWord(flags);
  }

  lemma LevelsStart<D>(node: (D, D) -> D, d0: seq<D>, f0: seq<bool>)
    requires |f0| > 0 && |d0| == 2 * |f0| - 1
    ensures LevelFlags(f0, f0, 0, |f0|, 0) && Upto(node, d0, f0, d0, |f0|)
  {
  }

  lemma LevelsEnd<D>(node: (D, D) -> D, d0: seq<D>, f0: seq<bool>, d: seq<D>, f: seq<bool>, begin: nat)
    requires |d0| == 2 * |f0| - 1 && begin == 2 * |f0| - 2
    requires LevelFlags(f0, f, begin, 1, 0) && Upto(node, d0, f0, d, begin + 1)
    ensures d == RefreshedAll(node, d0, f0) && |f| == |f0| && forall j :: 1 <= j < |f| ==> !f[j]
  {
    hide Refreshed, Dirty;
  }

  /**
   The in-place bitset while the level with n nodes from `begin` is being processed, i of
   them done: finished parents in the low bits, then a clear gap, then this level's flags.
   */
  ghost predicate LevelFlags(f0: seq<bool>, f: seq<bool>, begin: nat, n: nat, i: nat) {
    && |f| == |f0| && n <= |f0| && i <= n && begin == 2 * |f0| - 2 * n
    && (forall j :: 0 <= j < i / 2 ==> f[j] == Dirty(f0, begin + n + j))
    && (forall j :: i / 2 <= j < i ==> !f[j])
    && (forall j :: i <= j < n ==> f[j] == Dirty(f0, begin + j))
    && (forall j :: n <= j < |f0| ==> !f[j])
  }

  /** The parent of the pair at i is dirty exactly if one of the pair's flags is raised. */
  lemma {:induction false} ParentDirty(f0: seq<bool>, f: seq<bool>, begin: nat, n: nat, i: nat)
    requires LevelFlags(f0, f, begin, n, i) && n % 2 == 0 && i % 2 == 0 && i < n
    ensures begin + n + i / 2 >= |f0| && 2 * (begin + n + i / 2 - |f0|) == begin + i
    ensures Dirty(f0, begin + n + i / 2) == (f[i] || f[i + 1])
  {
  }

  /** One iteration of the inner loop on the flags. */
  lemma LevelStep(f0: seq<bool>, f: seq<bool>, begin: nat, n: nat, i: nat, g: seq<bool>)
    requires LevelFlags(f0, f, begin, n, i) && n % 2 == 0 && i % 2 == 0 && i < n
    requires g == if f[i] || f[i + 1] then f[i := false][i + 1 := false][i / 2 := true] else f
    ensures LevelFlags(f0, g, begin, n, i + 2)
  {
    hide Dirty;
    ParentDirty(f0, f, begin, n, i);
    var h := i / 2;
    assert forall j :: 0 <= j < |f0| ==>
        g[j] == (if j == h then f[i] || f[i + 1] else if j == i || j == i + 1 then false else f[j]);
  }

  lemma LevelDone(f0: seq<bool>, f: seq<bool>, begin: nat, n: nat)
    requires LevelFlags(f0, f, begin, n, n) && n % 2 == 0
    ensures LevelFlags(f0, f, begin + n, n / 2, 0)
  {
  }

  // ----- Incremental equals from scratch -----

  /** Inner node m is the hash of its stored children. */
  ghost predicate NodeHashed<D>(node: (D, D) -> D, d: seq<D>, capacity: nat, m: nat)
    requires |d| == 2 * capacity - 1 && capacity <= m < |d|
  {
    d[m] == node(d[2 * (m - capacity)], d[2 * (m - capacity) + 1])
  }

  /** Every inner node is the hash of its stored children. */
  ghost predicate Hashed<D>(node: (D, D) -> D, d: seq<D>, capacity: nat) {
    && |d| == 2 * capacity - 1
    && forall m :: capacity <= m < |d| ==> NodeHashed(node, d, capacity, m)
  }

  /** A tree of hashed nodes over these leaf digests; they decide its root, see TreeRoot. */
  ghost predicate IsTree<D>(node: (D, D) -> D, d: seq<D>, leaves: seq<D>) {
    Hashed(node, d, |leaves|) && d[..|leaves|] == leaves
  }

  /** The last node of a hashed tree is the Merkle root of its leaves. */
  lemma {:induction false} LevelRoot<D>(node: (D, D) -> D, d: seq<D>, capacity: nat, begin: nat, level: seq<D>)
    requires Hashed(node, d, capacity) && Pow2(|level|) && |level| <= capacity
    requires begin == 2 * capacity - 2 * |level| && level == d[begin..begin + |level|]
    ensures Root(node, level) == d[2 * capacity - 2]
    decreases |level|
  {
    if |level| > 1 {
      var above := NextLevel(node, d, capacity, begin, level);
      LevelRoot(node, d, capacity, begin + |level|, above);
    }
  }

  lemma NextLevel<D>(node: (D, D) -> D, d: seq<D>, capacity: nat, begin: nat, level: seq<D>) returns (above: seq<D>)
    requires Hashed(node, d, capacity) && 1 < |level| <= capacity && |level| % 2 == 0
    requires begin == 2 * capacity - 2 * |level| && level == d[begin..begin + |level|]
    ensures above == Pairs(node, level) == d[begin + |level|..begin + |level| + |level| / 2]
  {
    above := d[begin + |level|..begin + |level| + |level| / 2];
    forall i | 0 <= i < |level| / 2
      ensures above[i] == node(level[2 * i], level[2 * i + 1])
    {
      assert NodeHashed(node, d, capacity, begin + |level| + i);
    }
  }

  lemma {:induction false} TreeRoot<D>(node: (D, D) -> D, d: seq<D>, leaves: seq<D>)
    requires Pow2(|leaves|) && IsTree(node, d, leaves)
    ensures d[|d| - 1] == Root(node, leaves)
  {
    LevelRoot(node, d, |leaves|, 0, leaves);
  }

  /**
   The incremental pass restores the tree. Before it, leaf digests are already re-hashed
   where flagged; inner nodes need to be right only where no flag lies below them.
   */
  lemma {:induction false} RefreshRestores<D>(node: (D, D) -> D, d: seq<D>, f: seq<bool>)
    requires |d| == 2 * |f| - 1
    requires forall m :: |f| <= m < |d| && !Dirty(f, m) ==> NodeHashed(node, d, |f|, m)
    ensures IsTree(node, RefreshedAll(node, d, f), d[..|f|])
  {
  }

  /** With every flag raised each node is recomputed, whatever was stored before. */
  lemma {:induction false} FullPassIsDirty(f: seq<bool>, m: nat)
    requires m < 2 * |f| - 1 && forall j :: 0 <= j < |f| ==> f[j]
    ensures Dirty(f, m)
    decreases m
  {
    if m >= |f| {
      FullPassIsDirty(f, 2 * (m - |f|));
    }
  }

  // ----- Dirty nodes are exactly the ancestors of flagged leaves -----

  /** Leaf j lies below node m. */
  ghost predicate Above(capacity: nat, m: nat, j: nat)
    requires m < 2 * capacity - 1
    decreases m
  {
    if m < capacity then m == j
    else Above(capacity, 2 * (m - capacity), j) || Above(capacity, 2 * (m - capacity) + 1, j)
  }

  /** The flags of a level mark exactly the subtrees with a re-hashed leaf. */
  lemma {:induction false} DirtyMeansFlaggedLeaf(f: seq<bool>, m: nat)
    requires m < 2 * |f| - 1
    ensures Dirty(f, m) <==> exists j :: 0 <= j < |f| && f[j] && Above(|f|, m, j)
    decreases m
  {
    if m < |f| {
      assert Above(|f|, m, m);
    } else {
      DirtyMeansFlaggedLeaf(f, 2 * (m - |f|));
      DirtyMeansFlaggedLeaf(f, 2 * (m - |f|) + 1);
    }
  }

  /** On the level of n nodes that starts at `begin`, node begin + i covers an interval of leaves. */
  lemma {:induction false} AboveIsInterval(capacity: nat, width: nat, n: nat, i: nat, j: nat)
    requires Pow2(width) && width * n == capacity && i < n && j < capacity
    ensures 2 * capacity - 2 * n + i < 2 * capacity - 1
    ensures Above(capacity, 2 * capacity - 2 * n + i, j) <==> i * width <= j < (i + 1) * width
    decreases width
  {
    if width > 1 {
      var half := width / 2;
      assert width == 2 * half && Pow2(half);
      hide Pow2;
      Halves(half, n);
      Halves(half, i);
      Halves(half, i + 1);
      AboveIsInterval(capacity, half, 2 * n, 2 * i, j);
      AboveIsInterval(capacity, half, 2 * n, 2 * i + 1, j);
    }
  }

  lemma Halves(half: nat, k: nat)
    ensures half * (2 * k) == (2 * half) * k == k * (2 * half) == (2 * k) * half
    ensures half > 0 && k > 0 ==> half * (2 * k) >= 2 * k
  {
  }
}
