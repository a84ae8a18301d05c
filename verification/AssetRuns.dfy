/**
 Every run of asset operations: the table stays sound, and each asset total equals the
 initial total plus what was issued minus what was burned.
 */
module AssetRuns {
  import opened Probing
  import opened AssetTable
  import opened AssetLedger
  import opened AssetConservation
  import opened AssetEpochResults

  datatype Op =
    | IssueOp(issuer: nat, name: nat, decimals: int, unit: seq<int>, shares: int, managing: nat)
    | TransferOp(so: nat, sp: nat, destination: nat, n: int)
    | TransferKeysOp(name: nat, issuer: nat, owner: nat, possessor: nat, n: int, managing: nat, destination: nat)
    | RightsOp(so: nat, sp: nat, ownerManaging: nat, possessorManaging: nat, n: int)
    | EndEpochOp

  /** The slots lie inside the table, and every probe of the operation ends. */
  ghost predicate Completes(t: seq<Asset>, op: Op)
    requires |t| > 0
  {
    match op
    case IssueOp(issuer, name, _, _, _, _) => IssueEnds(t, issuer, name)
    case TransferOp(so, sp, destination, n) => so < |t| && sp < |t| && TransferEnds(t, so, sp, destination, n)
    case TransferKeysOp(name, issuer, owner, possessor, n, managing, destination) =>
      TransferByKeyEnds(t, name, issuer, owner, possessor, n, managing, destination)
    case RightsOp(so, sp, ownerManaging, possessorManaging, n) =>
      so < |t| && sp < |t| && RightsEnd(t, so, sp, ownerManaging, possessorManaging, n)
    case EndEpochOp => true
  }

  /** No operation needs more than three unused slots, and the rebuild needs none. */
  lemma CompletesWithRoom(t: seq<Asset>, op: Op)
    requires WellFormed(t) && Free(t) >= 3
    requires op.TransferOp? ==> op.so < |t| && op.sp < |t|
    requires op.RightsOp? ==> op.so < |t| && op.sp < |t|
    ensures Completes(t, op)
  {
    hide Free;
    match op
    case IssueOp(_, _, _, _, _, _) =>
    case TransferOp(so, sp, destination, n) =>
      TransferEndsWithRoom(t, so, sp, destination, n);
    case TransferKeysOp(name, issuer, owner, possessor, n, managing, destination) =>
      var i := Locate(t, IssuanceId(issuer, name));
      CanProbeWhen(t, IssuanceId(issuer, name));
      LocateDecides(t, IssuanceId(issuer, name));
      var o := Locate(t, OwnershipId(owner, managing, i));
      CanProbeWhen(t, OwnershipId(owner, managing, i));
      LocateDecides(t, OwnershipId(owner, managing, i));
      FreeHasStop(t, StopAtPossessor(possessor, o));
      TransferEndsWithRoom(t, o, LocatePossessor(t, possessor, o), destination, n);
    case RightsOp(so, sp, ownerManaging, possessorManaging, n) =>
      if CanMove(t, so, sp, n) {
        assert Linked(t, t[so]);
        MoveEndsWhen(t, OwnershipId(t[so].key, ownerManaging, t[so].issuance), t[sp].key, possessorManaging);
      }
    case EndEpochOp =>
  }

  lemma TransferEndsWithRoom(t: seq<Asset>, so: nat, sp: nat, destination: nat, n: int)
    requires WellFormed(t) && Free(t) >= 3 && so < |t| && sp < |t|
    ensures TransferEnds(t, so, sp, destination, n)
  {
    if CanMove(t, so, sp, n) {
      assert Linked(t, t[so]);
      MoveEndsWhen(t, OwnershipId(destination, t[so].managing, t[so].issuance), destination, t[sp].managing);
    }
  }

  /** And nothing negative is issued. */
  ghost predicate Allowed(t: seq<Asset>, op: Op)
    requires |t| > 0
  {
    Completes(t, op) && (op.IssueOp? ==> op.shares >= 0)
  }

  ghost function Step(t: seq<Asset>, op: Op): (u: seq<Asset>)
    requires WellFormed(t) && Completes(t, op)
    ensures |u| == |t|
  {
    match op
    case IssueOp(issuer, name, decimals, unit, shares, managing) =>
        Issue(t, issuer, name, decimals, unit, shares, managing).table
    case TransferOp(so, sp, destination, n) => Transfer(t, so, sp, destination, n).table
    case TransferKeysOp(name, issuer, owner, possessor, n, managing, destination) =>
      TransferByKey(t, name, issuer, owner, possessor, n, managing, destination).table
    case RightsOp(so, sp, ownerManaging, possessorManaging, n) =>
        Rights(t, so, sp, ownerManaging, possessorManaging, n).table
    case EndEpochOp => EndEpoch(t)
  }

  /** Shares of the asset (k, m) that a step issues. */
  ghost function Issued(t: seq<Asset>, op: Op, k: nat, m: nat): int {
    if op.IssueOp? && op.issuer == k && op.name == m && !Holds(t, IssuanceId(k, m)) then op.shares else 0
  }

  /** Shares of the asset (k, m) that a step burns: a successful transfer to the zero key. */
  ghost function Burned(t: seq<Asset>, op: Op, k: nat, m: nat): int
    requires WellFormed(t) && Completes(t, op)
  {
    match op
    case TransferOp(so, sp, destination, n) =>
      if destination == 0 && Transfer(t, so, sp, destination, n).result && t[so].Ownership? && t[so].issuance < |t|
         && IdOf(t[t[so].issuance]) == IssuanceId(k, m) then n else 0
    case TransferKeysOp(name, issuer, owner, possessor, n, managing, destination) =>
      if destination == 0 && TransferByKey(t, name, issuer, owner, possessor, n, managing, destination).touched != []
         && issuer == k && name == m then n else 0
    case _ => 0
  }

  // ----- One step -----

  lemma TransferKeeps(t: seq<Asset>, so: nat, sp: nat, destination: nat, n: int)
    requires Sound(t) && so < |t| && sp < |t| && TransferEnds(t, so, sp, destination, n)
    ensures var c := Transfer(t, so, sp, destination, n);
      && Sound(c.table) && (SameManager(t) ==> SameManager(c.table))
      && (c.result <==> CanMove(t, so, sp, n) && (destination == 0 ==> Linked(t, t[so]) && t[t[so].issuance].key != 0))
      && (c.result <==> c.touched != [])
      && (c.result ==> Linked(t, t[so]))
      && (forall k, m :: Total(c.table, k, m) == Total(t, k, m) -
            (if c.result && destination == 0 && IdOf(t[t[so].issuance]) == IssuanceId(k, m) then n else 0))
  {
    if CanMove(t, so, sp, n) {
      assert Linked(t, t[so]);
      if destination == 0 {
        BurnConserves(t, so, sp, n);
      } else {
        MoveSound(t, so, sp, destination, t[so].managing, destination, t[sp].managing, n);
      }
    }
  }

  /** The destination records get the same managing contract, or keep those of their sources. */
  predicate UniformManagers(t: seq<Asset>, so: nat, sp: nat, ownerManaging: nat, possessorManaging: nat)
    requires so < |t| && sp < |t| && t[so].Ownership? && t[sp].Possession?
  {
    ownerManaging == possessorManaging || (ownerManaging == t[so].managing && possessorManaging == t[sp].managing)
  }

  lemma MoveSound(t: seq<Asset>, so: nat, sp: nat, owner: nat, ownerManaging: nat, possessor: nat,
                  possessorManaging: nat, n: int)
    requires Sound(t) && so < |t| && sp < |t| && CanMove(t, so, sp, n)
    requires MoveEnds(t, OwnershipId(owner, ownerManaging, t[so].issuance), possessor, possessorManaging)
    ensures var c := Move(t, so, sp, owner, ownerManaging, possessor, possessorManaging, n);
      && Sound(c.table) && c.result && c.touched != []
      && (SameManager(t) && UniformManagers(t, so, sp, ownerManaging, possessorManaging) ==> SameManager(c.table))
      && (forall k, m :: Total(c.table, k, m) == Total(t, k, m))
  {
    var c := Move(t, so, sp, owner, ownerManaging, possessor, possessorManaging, n);
    MoveKeeps(t, so, sp, owner, ownerManaging, possessor, possessorManaging, n);
    MoveConserves(t, so, sp, OwnershipId(owner, ownerManaging, t[so].issuance),
                  PossessionId(possessor, possessorManaging, c.touched[2]), n, c.table, c.touched[2], c.touched[3]);
  }

  lemma TransferByKeyKeeps(t: seq<Asset>, name: nat, issuer: nat, owner: nat, possessor: nat, n: int, managing: nat,
                           destination: nat)
    requires Sound(t) && TransferByKeyEnds(t, name, issuer, owner, possessor, n, managing, destination)
    ensures var c := TransferByKey(t, name, issuer, owner, possessor, n, managing, destination);
      && Sound(c.table) && (SameManager(t) ==> SameManager(c.table))
      && (forall k, m :: Total(c.table, k, m) == Total(t, k, m) -
            (if c.touched != [] && destination == 0 && issuer == k && name == m then n else 0))
      && (issuer == 0 && destination == 0 ==> c.touched == [])
  {
    var i := Locate(t, IssuanceId(issuer, name));
    LocateDecides(t, IssuanceId(issuer, name));
    if !t[i].Empty? {
      var o := Locate(t, OwnershipId(owner, managing, i));
      LocateDecides(t, OwnershipId(owner, managing, i));
      if !t[o].Empty? {
        var p := LocatePossessor(t, possessor, o);
        if t[p].Possession? && t[p].managing == managing && t[p].shares >= n {
          TransferKeeps(t, o, p, destination, n);
        }
      }
    }
  }

  lemma IssueStepKeeps(t: seq<Asset>, issuer: nat, name: nat, decimals: int, unit: seq<int>, shares: int, managing: nat)
    requires Sound(t) && IssueEnds(t, issuer, name) && shares >= 0
    ensures var u := Issue(t, issuer, name, decimals, unit, shares, managing).table;
      && Sound(u) && (SameManager(t) ==> SameManager(u))
      && (forall k, m :: Total(u, k, m) == Total(t, k, m) +
            (if k == issuer && m == name && !Holds(t, IssuanceId(k, m)) then shares else 0))
  {
    IssueKeepsWellFormed(t, issuer, name, decimals, unit, shares, managing);
    var c := Issue(t, issuer, name, decimals, unit, shares, managing);
    if !Holds(t, IssuanceId(issuer, name)) {
      IssueConserves(t, issuer, name, decimals, unit, shares, managing, c.table, c.touched[0], c.touched[1],
          c.touched[2]);
    }
  }

  lemma EndEpochStepKeeps(t: seq<Asset>)
    requires Sound(t)
    ensures var u := EndEpoch(t);
      Sound(u) && (SameManager(t) ==> SameManager(u)) && forall k, m :: Total(u, k, m) == Total(t, k, m)
  {
    EndEpochKeeps(t);
    forall k, m
      ensures Total(EndEpoch(t), k, m) == Total(t, k, m)
    {
      EndEpochConserves(t, k, m);
    }
  }

  /** A successful burn names an issuance with a nonzero key. */
  lemma ContractSharesAreNotBurned(t: seq<Asset>, op: Op, m: nat)
    requires Sound(t) && Completes(t, op)
    ensures Burned(t, op, 0, m) == 0
  {
    match op
    case TransferOp(so, sp, destination, n) =>
      TransferKeeps(t, so, sp, destination, n);
    case TransferKeysOp(name, issuer, owner, possessor, n, managing, destination) =>
      TransferByKeyKeeps(t, name, issuer, owner, possessor, n, managing, destination);
    case _ =>
  }

  /** One operation keeps the table sound and accounts for every share. */
  lemma StepKeeps(t: seq<Asset>, op: Op)
    requires Sound(t) && Allowed(t, op)
    ensures Sound(Step(t, op))
    ensures SameManager(t) && (op.RightsOp? ==> op.ownerManaging == op.possessorManaging) ==> SameManager(Step(t, op))
    ensures forall k, m :: Total(Step(t, op), k, m) == Total(t, k, m) + Issued(t, op, k, m) - Burned(t, op, k, m)
  {
    hide WellFormed, Balanced, NonNegative, SameManager, Total, Holds;
    match op
    case IssueOp(issuer, name, decimals, unit, shares, managing) =>
      IssueStepKeeps(t, issuer, name, decimals, unit, shares, managing);
    case TransferOp(so, sp, destination, n) =>
      TransferKeeps(t, so, sp, destination, n);
    case TransferKeysOp(name, issuer, owner, possessor, n, managing, destination) =>
      TransferByKeyKeeps(t, name, issuer, owner, possessor, n, managing, destination);
    case RightsOp(so, sp, ownerManaging, possessorManaging, n) =>
      if CanMove(t, so, sp, n) {
        MoveSound(t, so, sp, t[so].key, ownerManaging, t[sp].key, possessorManaging, n);
      }
    case EndEpochOp =>
      EndEpochStepKeeps(t);
  }

  /** Well-formedness alone carries over too, from unbalanced tables and over negative issuances. */
  lemma StepKeepsWellFormed(t: seq<Asset>, op: Op)
    requires WellFormed(t) && Completes(t, op)
    ensures WellFormed(Step(t, op))
  {
    match op
    case IssueOp(issuer, name, decimals, unit, shares, managing) =>
      IssueKeepsWellFormed(t, issuer, name, decimals, unit, shares, managing);
    case TransferOp(so, sp, destination, n) =>
      TransferKeepsWellFormed(t, so, sp, destination, n);
    case TransferKeysOp(name, issuer, owner, possessor, n, managing, destination) =>
      var i := Locate(t, IssuanceId(issuer, name));
      var o := Locate(t, OwnershipId(owner, managing, i));
      var p := LocatePossessor(t, possessor, o);
      if !t[i].Empty? && !t[o].Empty? && t[p].Possession? && t[p].managing == managing && t[p].shares >= n {
        TransferKeepsWellFormed(t, o, p, destination, n);
      }
    case RightsOp(so, sp, ownerManaging, possessorManaging, n) =>
      if CanMove(t, so, sp, n) {
        MoveKeeps(t, so, sp, t[so].key, ownerManaging, t[sp].key, possessorManaging, n);
      }
    case EndEpochOp =>
      EndEpochKeeps(t);
  }

  lemma TransferKeepsWellFormed(t: seq<Asset>, so: nat, sp: nat, destination: nat, n: int)
    requires WellFormed(t) && so < |t| && sp < |t| && TransferEnds(t, so, sp, destination, n)
    ensures WellFormed(Transfer(t, so, sp, destination, n).table)
  {
    if CanMove(t, so, sp, n) {
      if destination == 0 {
        var u := Burn(t, so, sp, n);
        assert SameRecords(t, u);
        SameRecordsKeepsWellFormed(t, u);
      } else {
        MoveKeeps(t, so, sp, destination, t[so].managing, destination, t[sp].managing, n);
      }
    }
  }

  /** The new records that an operation may create; the rebuild creates none. */
  function Records(op: Op): nat {
    match op
    case IssueOp(_, _, _, _, _, _) => 3
    case EndEpochOp => 0
    case _ => 2
  }

  lemma TransferUses(t: seq<Asset>, so: nat, sp: nat, destination: nat, n: int)
    requires WellFormed(t) && so < |t| && sp < |t| && TransferEnds(t, so, sp, destination, n)
    ensures Free(Transfer(t, so, sp, destination, n).table) >= Free(t) - 2
  {
    hide Free;
    if CanMove(t, so, sp, n) {
      if destination == 0 {
        var u := Burn(t, so, sp, n);
        assert SameRecords(t, u);
        SameRecordsKeepsWellFormed(t, u);
      } else {
        MoveKeeps(t, so, sp, destination, t[so].managing, destination, t[sp].managing, n);
      }
    }
  }

  lemma StepUses(t: seq<Asset>, op: Op)
    requires WellFormed(t) && Completes(t, op)
    ensures Free(Step(t, op)) >= Free(t) - Records(op)
  {
    hide Free;
    match op
    case IssueOp(issuer, name, decimals, unit, shares, managing) =>
      IssueKeepsWellFormed(t, issuer, name, decimals, unit, shares, managing);
    case TransferOp(so, sp, destination, n) =>
      TransferUses(t, so, sp, destination, n);
    case TransferKeysOp(name, issuer, owner, possessor, n, managing, destination) =>
      var i := Locate(t, IssuanceId(issuer, name));
      var o := Locate(t, OwnershipId(owner, managing, i));
      var p := LocatePossessor(t, possessor, o);
      if !t[i].Empty? && !t[o].Empty? && t[p].Possession? && t[p].managing == managing && t[p].shares >= n {
        TransferUses(t, o, p, destination, n);
      }
    case RightsOp(so, sp, ownerManaging, possessorManaging, n) =>
      if CanMove(t, so, sp, n) {
        MoveKeeps(t, so, sp, t[so].key, ownerManaging, t[sp].key, possessorManaging, n);
      }
    case EndEpochOp =>
      EndEpochKeeps(t);
  }

  // ----- Runs -----

  /** A run whose every step completes; the result of the run. */
  ghost predicate Runs(t: seq<Asset>, ops: seq<Op>)
    decreases |ops|
  {
    ops == [] || (Sound(t) && Allowed(t, ops[0]) && Runs(Step(t, ops[0]), ops[1..]))
  }

  ghost function Run(t: seq<Asset>, ops: seq<Op>): seq<Asset>
    requires Runs(t, ops)
    decreases |ops|
  {
    if ops == [] then t else Run(Step(t, ops[0]), ops[1..])
  }

  /** Shares issued and burned over a whole run. */
  ghost function NetIssued(t: seq<Asset>, ops: seq<Op>, k: nat, m: nat): int
    requires Runs(t, ops)
    decreases |ops|
  {
    if ops == [] then 0 else
      Issued(t, ops[0], k, m) - Burned(t, ops[0], k, m) + NetIssued(Step(t, ops[0]), ops[1..], k, m)
  }

  /** Only that every probe ends has to be assumed along a run; soundness follows. */
  ghost predicate HasRoom(t: seq<Asset>, ops: seq<Op>)
    decreases |ops|
  {
    ops == [] || (|t| > 0 && Allowed(t, ops[0]) && (WellFormed(t) ==> HasRoom(Step(t, ops[0]), ops[1..])))
  }

  /** Conservation over every run, for every asset. */
  lemma {:induction false} RunConserves(t: seq<Asset>, ops: seq<Op>, k: nat, m: nat)
    requires Sound(t) && HasRoom(t, ops)
    ensures Runs(t, ops)
    ensures Sound(Run(t, ops))
    ensures Total(Run(t, ops), k, m) == Total(t, k, m) + NetIssued(t, ops, k, m)
    ensures k == 0 ==> NetIssued(t, ops, k, m) >= 0
    decreases |ops|
  {
    if ops != [] {
      StepKeeps(t, ops[0]);
      ContractSharesAreNotBurned(t, ops[0], m);
      RunConserves(Step(t, ops[0]), ops[1..], k, m);
    }
  }

  /** The replay loop changes management rights of owner and possessor together. */
  ghost predicate Replayed(ops: seq<Op>) {
    forall j :: 0 <= j < |ops| && ops[j].RightsOp? ==> ops[j].ownerManaging == ops[j].possessorManaging
  }

  /**
   In every state that replay reaches, managing contracts agree, so the seven-argument
   transfer picks the record that findPossessionIndex finds and never takes its last exit.
   */
  lemma {:induction false} ReplayKeepsManagers(t: seq<Asset>, ops: seq<Op>)
    requires Sound(t) && SameManager(t) && HasRoom(t, ops) && Replayed(ops)
    ensures Runs(t, ops)
    ensures var u := Run(t, ops); SameManager(u) && Sound(u)
    ensures var u := Run(t, ops);
      forall o, possessor :: 0 <= o < |u| && u[o].Ownership? && HasStop(u, StopAtPossessor(possessor, o)) ==>
        var p := LocatePossessor(u, possessor, o);
        p == Locate(u, PossessionId(possessor, u[o].managing, o))
            && (u[p].Possession? ==> u[p].managing == u[o].managing)
    decreases |ops|
  {
    if ops != [] {
      StepKeeps(t, ops[0]);
      ReplayKeepsManagers(Step(t, ops[0]), ops[1..]);
    } else {
      forall o: nat, possessor: nat | o < |t| && t[o].Ownership? && HasStop(t, StopAtPossessor(possessor, o))
        ensures var p := LocatePossessor(t, possessor, o);
          p == Locate(t, PossessionId(possessor, t[o].managing, o))
              && (t[p].Possession? ==> t[p].managing == t[o].managing)
      {
        PossessorSearchAgrees(t, possessor, o);
      }
    }
  }
}
