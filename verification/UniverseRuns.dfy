/**
 Runs that mix asset operations and digest calls: after one full pass, every incremental
 digest call returns the Merkle root that a rebuild from scratch would return.
 */
module UniverseRuns {
  import opened AssetTable
  import opened AssetLedger
  import opened AssetRuns
  import opened ChangeFlags
  import opened MerkleTree
  import opened IncrementalDigest

  /** The arrays of the universe as values. */
  datatype State<D> = State(table: seq<Asset>, digests: seq<D>, flags: seq<bool>)

  datatype Action = Ledger(op: Op) | Digest(full: bool)

  /** The flags after an operation. */
  ghost function Flagged(t: seq<Asset>, op: Op, f: seq<bool>): (g: seq<bool>)
    requires WellFormed(t) && Completes(t, op)
    ensures |g| == |f|
  {
    match op
    case IssueOp(issuer, name, decimals, unit, shares, managing) =>
      Mark(f, Issue(t, issuer, name, decimals, unit, shares, managing).touched)
    case TransferOp(so, sp, destination, n) => Mark(f, Transfer(t, so, sp, destination, n).touched)
    case TransferKeysOp(name, issuer, owner, possessor, n, managing, destination) =>
      Mark(f, TransferByKey(t, name, issuer, owner, possessor, n, managing, destination).touched)
    case RightsOp(so, sp, ownerManaging, possessorManaging, n) =>
      Mark(f, Rights(t, so, sp, ownerManaging, possessorManaging, n).touched)
    case EndEpochOp => AllFlags(|f|)
  }

  // ----- Operations flag every slot they change -----

  lemma MoveFlags(t: seq<Asset>, so: nat, sp: nat, owner: nat, ownerManaging: nat, possessor: nat,
                  possessorManaging: nat, n: int, x: nat)
    requires so < |t| && sp < |t| && CanMove(t, so, sp, n) && WellFormed(t) && x < |t|
    requires MoveEnds(t, OwnershipId(owner, ownerManaging, t[so].issuance), possessor, possessorManaging)
    ensures var c := Move(t, so, sp, owner, ownerManaging, possessor, possessorManaging, n);
      c.table[x] != t[x] ==> x in c.touched
  {
  }

  lemma TransferFlags(t: seq<Asset>, so: nat, sp: nat, destination: nat, n: int, x: nat)
    requires WellFormed(t) && so < |t| && sp < |t| && TransferEnds(t, so, sp, destination, n) && x < |t|
    ensures var c := Transfer(t, so, sp, destination, n); c.table[x] != t[x] ==> x in c.touched
  {
  }

  lemma TransferByKeyFlags(t: seq<Asset>, name: nat, issuer: nat, owner: nat, possessor: nat, n: int, managing: nat,
                           destination: nat, x: nat)
    requires WellFormed(t) && TransferByKeyEnds(t, name, issuer, owner, possessor, n, managing, destination) && x < |t|
    ensures var c := TransferByKey(t, name, issuer, owner, possessor, n, managing, destination);
      c.table[x] != t[x] ==> x in c.touched
  {
    hide WellFormed;
    var i := Locate(t, IssuanceId(issuer, name));
    var o := Locate(t, OwnershipId(owner, managing, i));
    var p := LocatePossessor(t, possessor, o);
    if !t[i].Empty? && !t[o].Empty? && t[p].Possession? && t[p].managing == managing && t[p].shares >= n {
      TransferFlags(t, o, p, destination, n, x);
    }
  }

  lemma OperationFlags(t: seq<Asset>, op: Op, f: seq<bool>, x: nat)
    requires WellFormed(t) && Completes(t, op) && |f| == |t| && x < |t|
    ensures f[x] ==> Flagged(t, op, f)[x]
    ensures Step(t, op)[x] != t[x] ==> Flagged(t, op, f)[x]
  {
    match op
    case IssueOp(issuer, name, decimals, unit, shares, managing) =>
      IssueKeepsWellFormed(t, issuer, name, decimals, unit, shares, managing);
    case TransferOp(so, sp, destination, n) =>
      TransferFlags(t, so, sp, destination, n, x);
    case TransferKeysOp(name, issuer, owner, possessor, n, managing, destination) =>
      TransferByKeyFlags(t, name, issuer, owner, possessor, n, managing, destination, x);
    case RightsOp(so, sp, ownerManaging, possessorManaging, n) =>
      if CanMove(t, so, sp, n) {
        MoveFlags(t, so, sp, t[so].key, ownerManaging, t[sp].key, possessorManaging, n, x);
      }
    case EndEpochOp =>
  }

  // ----- Runs -----

  ghost predicate Ready<D>(leaf: Asset -> D, node: (D, D) -> D, s: State<D>) {
    WellFormed(s.table) && Pow2(|s.table|) && Current(leaf, node, s.table, s.digests, s.flags)
  }

  ghost function Act<D>(leaf: Asset -> D, node: (D, D) -> D, s: State<D>, a: Action): (s': State<D>)
    requires WellFormed(s.table) && |s.flags| == |s.table| && |s.digests| == 2 * |s.table| - 1
    requires a.Ledger? ==> Completes(s.table, a.op)
  {
    match a
    case Ledger(op) => State(Step(s.table, op), s.digests, Flagged(s.table, op, s.flags))
    case Digest(full) =>
      State(s.table, DigestCall(leaf, node, s.table, s.digests, if full then AllFlags(|s.flags|) else s.flags),
          NoFlags(|s.flags|))
  }

  /** One action keeps the digests current; a digest call returns the root from scratch. */
  lemma ActKeepsReady<D>(leaf: Asset -> D, node: (D, D) -> D, s: State<D>, a: Action)
    requires Ready(leaf, node, s) && (a.Ledger? ==> Completes(s.table, a.op))
    ensures Ready(leaf, node, Act(leaf, node, s, a))
    ensures var s' := Act(leaf, node, s, a); a.Digest? ==>
      s'.table == s.table && s'.digests != [] && s'.digests[|s'.digests| - 1] == Root(node, Leaves(leaf, s'.table))
  {
    match a
    case Ledger(op) =>
      StepKeepsWellFormed(s.table, op);
      LedgerKeepsCurrent(leaf, node, s, op);
      hide WellFormed, Current, Step;
    case Digest(full) =>
      DigestKeepsReady(leaf, node, s, full);
  }

  lemma DigestKeepsReady<D>(leaf: Asset -> D, node: (D, D) -> D, s: State<D>, full: bool)
    requires Ready(leaf, node, s)
    ensures var s' := Act(leaf, node, s, Digest(full));
      && Ready(leaf, node, s') && s'.table == s.table && s'.digests != []
      && s'.digests[|s'.digests| - 1] == Root(node, Leaves(leaf, s'.table))
  {
    hide WellFormed, Root, Leaves;
    if full {
      FullCallIsRoot(leaf, node, s.table, s.digests);
    } else {
      DigestCallIsRoot(leaf, node, s.table, s.digests, s.flags);
    }
  }

  lemma LedgerKeepsCurrent<D>(leaf: Asset -> D, node: (D, D) -> D, s: State<D>, op: Op)
    requires WellFormed(s.table) && Completes(s.table, op) && Current(leaf, node, s.table, s.digests, s.flags)
    ensures Current(leaf, node, Step(s.table, op), s.digests, Flagged(s.table, op, s.flags))
  {
    var u, g := Step(s.table, op), Flagged(s.table, op, s.flags);
    forall i | 0 <= i < |g| && !g[i]
      ensures !s.flags[i] && u[i] == s.table[i]
    {
      OperationFlags(s.table, op, s.flags, i);
    }
    ChangeKeepsCurrent(leaf, node, s.table, u, s.digests, s.flags, g);
  }

  /** Every probe of the run ends. */
  ghost predicate RunCompletes<D>(leaf: Asset -> D, node: (D, D) -> D, s: State<D>, run: seq<Action>)
    decreases |run|
  {
    run == [] ||
    ((run[0].Ledger? ==> |s.table| > 0 && Completes(s.table, run[0].op)) &&
     (Ready(leaf, node, s) ==> RunCompletes(leaf, node, Act(leaf, node, s, run[0]), run[1..])))
  }

  /** Along the run every state has current digests, and every digest call returns the root from scratch. */
  ghost predicate RootsAreExact<D>(leaf: Asset -> D, node: (D, D) -> D, s: State<D>, run: seq<Action>)
    decreases |run|
  {
    && Ready(leaf, node, s)
    && (run == [] ||
        ((run[0].Ledger? ==> Completes(s.table, run[0].op)) &&
         (var s' := Act(leaf, node, s, run[0]);
          && (run[0].Digest? && s'.digests != [] ==> s'.digests[|s'.digests| - 1] == Root(node, Leaves(leaf, s'.table)))
          && RootsAreExact(leaf, node, s', run[1..]))))
  }

  /** Exactness for every run of asset operations and digest calls. */
  lemma {:induction false} IncrementalRootsAreExact<D>(leaf: Asset -> D, node: (D, D) -> D, s: State<D>,
                                                       run: seq<Action>)
    requires Ready(leaf, node, s) && RunCompletes(leaf, node, s, run)
    ensures RootsAreExact(leaf, node, s, run)
    decreases |run|
  {
    if run != [] {
      ActKeepsReady(leaf, node, s, run[0]);
      IncrementalRootsAreExact(leaf, node, Act(leaf, node, s, run[0]), run[1..]);
    }
  }

  /** The first full pass establishes the invariant from any stored digests. */
  lemma FullPassStarts<D>(leaf: Asset -> D, node: (D, D) -> D, s: State<D>)
    requires WellFormed(s.table) && Pow2(|s.table|) && |s.flags| == |s.table| && |s.digests| == 2 * |s.table| - 1
    ensures var s' := Act(leaf, node, s, Digest(true));
      Ready(leaf, node, s') && s'.digests[|s'.digests| - 1] == Root(node, Leaves(leaf, s.table))
  {
    FullCallIsRoot(leaf, node, s.table, s.digests);
  }
}
