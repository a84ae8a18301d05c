/**
 Every holding over runs of asset operations: what it was, plus the shares that the
 operations of the run bring to its keys, minus those that they take from them.
 */
module HoldingRuns {
  import opened Options
  import opened AssetTable
  import opened AssetLedger
  import opened AssetConservation
  import opened AssetEpoch
  import opened AssetEpochResults
  import opened AssetHoldings
  import opened AssetRuns

  /** n shares that leave one holding or are new, and arrive at another or are burned. */
  datatype Flow = Flow(from: Option<Holding>, to: Option<Holding>, n: int)

  function NoFlow(): Flow {
    Flow(None, None, 0)
  }

  /** Where transferred shares arrive; those sent to the zero key are burned. */
  function SentTo(src: Holding, destination: nat): Option<Holding> {
    if destination == 0 then None else Some(src.(owner := destination, possessor := destination))
  }

  /** What an operation moves. */
  ghost function FlowOf(t: seq<Asset>, op: Op): Flow
    requires WellFormed(t)
  {
    match op
    case IssueOp(issuer, name, _, _, shares, managing) =>
      if Holds(t, IssuanceId(issuer, name)) then NoFlow()
      else Flow(None, Some(Holding(issuer, name, issuer, managing, issuer, managing)), shares)
    case TransferOp(so, sp, destination, n) =>
      if !HaveShares(t, so, sp, n) then NoFlow() else
      var src := KeysOf(t, sp);
      if destination == 0 && src.issuer == 0 then NoFlow()
      else Flow(Some(src), SentTo(src, destination), n)
    case TransferKeysOp(name, issuer, owner, possessor, n, managing, destination) =>
      var src := Holding(issuer, name, owner, managing, possessor, managing);
      if !Accepts(t, src, n, destination) then NoFlow()
      else Flow(Some(src), SentTo(src, destination), n)
    case RightsOp(so, sp, ownerManaging, possessorManaging, n) =>
      if !HaveShares(t, so, sp, n) then NoFlow() else
      var src := KeysOf(t, sp);
      Flow(Some(src), Some(src.(ownerManaging := ownerManaging, possessorManaging := possessorManaging)), n)
    case EndEpochOp => NoFlow()
  }

  ghost function KeysOf(t: seq<Asset>, p: nat): (h: Holding)
    requires WellFormed(t) && p < |t| && t[p].Possession?
    ensures h == HoldingAt(t, p)
  {
    KeysAt(t, p);
    HoldingAt(t, p)
  }

  /** What a flow adds to a holding, and to an ownership record. */
  function ToHolding(f: Flow, h: Holding): int {
    (if f.to == Some(h) then f.n else 0) - (if f.from == Some(h) then f.n else 0)
  }

  function ToOwning(f: Flow, w: Owning): int {
    (if f.to.Some? && OwningOf(f.to.value) == w then f.n else 0)
    - (if f.from.Some? && OwningOf(f.from.value) == w then f.n else 0)
  }

  lemma OwnerKept(t: seq<Asset>, u: seq<Asset>, from: map<nat, nat>, y: nat, w: Owning)
    requires WellFormed(t) && WellFormed(u) && FullTrace(t, u, from) && IsOwning(u, y, w)
    ensures OwnedOf(u, w) == OwnedOf(t, w)
  {
    OwningSlot(u, y, w);
    hide WellFormed, Accounted, OwnedOf;
    assert CameFrom(t, u, from, y);
    OwnsTraced(t, u, from, y, w.owner, w.issuer, w.name, w.managing);
    OwnedAt(t, from[y], w);
    OwnedAt(u, y, w);
  }

  lemma OwnerTraced(t: seq<Asset>, u: seq<Asset>, from: map<nat, nat>, o: nat, w: Owning)
    requires Sound(t) && WellFormed(u) && FullTrace(t, u, from) && IsOwning(t, o, w) && t[o].shares > 0
    ensures exists y: nat :: IsOwning(u, y, w)
  {
    hide WellFormed, Accounted, Balanced, NonNegative, IsOwning;
    OwningSlot(t, o, w);
    PositiveOwnershipTraced(t, u, from, o);
    var x :| x in from && from[x] == o;
    assert CameFrom(t, u, from, x);
    OwnsTraced(t, u, from, x, w.owner, w.issuer, w.name, w.managing);
    OwningMeans(t, o, w);
    OwningMeans(u, x, w);
  }

  lemma OwningMeans(t: seq<Asset>, o: nat, w: Owning)
    ensures IsOwning(t, o, w) <==> OwnsAt(t, o, w.owner, w.issuer, w.name, w.managing)
  {
  }

  lemma EndEpochKeepsOwned(t: seq<Asset>, w: Owning)
    requires Sound(t)
    ensures OwnedOf(EndEpoch(t), w) == OwnedOf(t, w)
  {
    hide WellFormed, FullTrace, Balanced, NonNegative, IsOwning, EndEpoch;
    var u := EndEpoch(t);
    EndEpochKeeps(t);
    var from := EndEpochTrace(t);
    if y: nat :| IsOwning(u, y, w) {
      OwnerKept(t, u, from, y, w);
    } else if o: nat :| IsOwning(t, o, w) {
      OwningSlot(t, o, w);
      OwnedAt(t, o, w);
      if t[o].shares > 0 { OwnerTraced(t, u, from, o, w); }
      SharesNotNegative(t, o);
    }
  }

  lemma SharesNotNegative(t: seq<Asset>, o: nat)
    requires NonNegative(t) && o < |t| && t[o].Ownership?
    ensures t[o].shares >= 0
  {
  }

  lemma NoNegativeHolding(t: seq<Asset>, h: Holding)
    requires Sound(t)
    ensures SharesOf(t, h) >= 0
  {
  }

  /** The holdings and ownership records change by what flows to and from them. */
  ghost predicate Flows(t: seq<Asset>, u: seq<Asset>, f: Flow, h: Holding, w: Owning) {
    SharesOf(u, h) == SharesOf(t, h) + ToHolding(f, h) && OwnedOf(u, w) == OwnedOf(t, w) + ToOwning(f, w)
  }

  lemma FlowsOfTransfer(t: seq<Asset>, u: seq<Asset>, src: Holding, n: int, destination: nat, h: Holding, w: Owning)
    requires Transferred(t, u, src, n, destination, h, w)
    ensures Flows(t, u, if !Accepts(t, src, n, destination) then NoFlow()
      else Flow(Some(src), SentTo(src, destination), n), h, w)
  {
    hide Accepts, SharesOf, OwnedOf;
  }

  lemma IssueFlows(t: seq<Asset>, op: Op, h: Holding, w: Owning)
    requires Sound(t) && Allowed(t, op) && op.IssueOp?
    ensures Flows(t, Step(t, op), FlowOf(t, op), h, w)
  {
    hide WellFormed, Balanced, NonNegative, SharesOf, OwnedOf, Holds, Issue, IssueEnds;
    IssueGives(t, op.issuer, op.name, op.decimals, op.unit, op.shares, op.managing, h, w);
  }

  lemma SlotsFlow(t: seq<Asset>, op: Op, h: Holding, w: Owning)
    requires Sound(t) && Allowed(t, op) && op.TransferOp?
    ensures Flows(t, Step(t, op), FlowOf(t, op), h, w)
  {
    hide WellFormed, Balanced, NonNegative, SharesOf, OwnedOf, Transfer, TransferEnds, Extends;
    TransferHands(t, op.so, op.sp, op.destination, op.n, h, w);
  }

  lemma KeysFlow(t: seq<Asset>, op: Op, h: Holding, w: Owning)
    requires Sound(t) && SameManager(t) && Allowed(t, op) && op.TransferKeysOp?
    ensures Flows(t, Step(t, op), FlowOf(t, op), h, w)
  {
    hide WellFormed, Balanced, NonNegative, SameManager, Transferred, Remaining, TransferByKey, TransferByKeyEnds,
        Flows, OtherManager, Known, Accepts;
    TransferByKeyHands(t, op.name, op.issuer, op.owner, op.possessor, op.n, op.managing, op.destination, h, w);
    FlowsOfTransfer(t, Step(t, op), Holding(op.issuer, op.name, op.owner, op.managing, op.possessor, op.managing), op.n,
                    op.destination, h, w);
  }

  lemma RightsFlow(t: seq<Asset>, op: Op, h: Holding, w: Owning)
    requires Sound(t) && Allowed(t, op) && op.RightsOp?
    ensures Flows(t, Step(t, op), FlowOf(t, op), h, w)
  {
    hide WellFormed, Balanced, NonNegative, SharesOf, OwnedOf, Rights, RightsEnd;
    RightsHand(t, op.so, op.sp, op.ownerManaging, op.possessorManaging, op.n, h, w);
  }

  lemma EndEpochFlows(t: seq<Asset>, h: Holding, w: Owning)
    requires Sound(t)
    ensures Flows(t, EndEpoch(t), NoFlow(), h, w)
  {
    hide WellFormed, Balanced, NonNegative, SharesOf, OwnedOf, EndEpoch;
    EndEpochKeepsHoldings(t, h);
    EndEpochKeepsOwned(t, w);
    NoNegativeHolding(t, h);
  }

  /** One operation moves what its flow says between holdings and ownership records, and nothing else. */
  lemma StepFlows(t: seq<Asset>, op: Op, h: Holding, w: Owning)
    requires Sound(t) && SameManager(t) && Allowed(t, op)
    ensures Flows(t, Step(t, op), FlowOf(t, op), h, w)
  {
    hide Balanced, NonNegative, SameManager, Flows, Reaches, Unique, Linked, HaveShares, Accepts, KeysOf, Holds,
        IssueEnds, TransferEnds, TransferByKeyEnds, RightsEnd, Issue, Transfer, TransferByKey, Rights;
    match op
    case IssueOp(_, _, _, _, _, _) => IssueFlows(t, op, h, w);
    case TransferOp(_, _, _, _) => SlotsFlow(t, op, h, w);
    case TransferKeysOp(_, _, _, _, _, _, _) => KeysFlow(t, op, h, w);
    case RightsOp(_, _, _, _, _) => RightsFlow(t, op, h, w);
    case EndEpochOp => EndEpochFlows(t, h, w);
  }

  ghost function SharesFlow(t: seq<Asset>, ops: seq<Op>, h: Holding): int
    requires Runs(t, ops)
    decreases |ops|
  {
    if ops == [] then 0 else ToHolding(FlowOf(t, ops[0]), h) + SharesFlow(Step(t, ops[0]), ops[1..], h)
  }

  ghost function OwnedFlow(t: seq<Asset>, ops: seq<Op>, w: Owning): int
    requires Runs(t, ops)
    decreases |ops|
  {
    if ops == [] then 0 else ToOwning(FlowOf(t, ops[0]), w) + OwnedFlow(Step(t, ops[0]), ops[1..], w)
  }

  /** Over every run that replay makes, holdings and ownership records are the initial ones plus what flowed to them. */
  lemma {:induction false} RunFlows(t: seq<Asset>, ops: seq<Op>, h: Holding, w: Owning)
    requires Sound(t) && SameManager(t) && HasRoom(t, ops) && Replayed(ops)
    ensures Runs(t, ops)
    ensures SharesOf(Run(t, ops), h) == SharesOf(t, h) + SharesFlow(t, ops, h)
    ensures OwnedOf(Run(t, ops), w) == OwnedOf(t, w) + OwnedFlow(t, ops, w)
    decreases |ops|
  {
    hide Sound, SameManager, FlowOf, ToHolding, ToOwning, Step, Completes, SharesOf, OwnedOf;
    if ops != [] {
      SoundMeans(t);
      StepFlows(t, ops[0], h, w);
      StepKeeps(t, ops[0]);
      RunFlows(Step(t, ops[0]), ops[1..], h, w);
    }
  }

  lemma SoundMeans(t: seq<Asset>)
    requires Sound(t)
    ensures WellFormed(t)
  {
  }
}
