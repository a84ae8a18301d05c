/**
 When a whole log can be replayed: closed dividend windows, room for the records that its
 events may create, and changes of management rights that name existing records.
 */
module ReplayRoom {
  import opened Options
  import ST = SpectrumTable
  import SP = Spectrum
  import QU = QuReplay
  import opened AssetTable
  import opened AssetLedger
  import opened AssetRuns
  import opened Replay

  // ----- What is asked of the log -----

  /** The asset records that the event at the cursor may create. */
  function RecordsAt(events: seq<Event>, c: Cursor): nat
    requires c.i < |events|
  {
    var e := events[c.i];
    if e.Issuance? then 3
    else if (e.OwnershipChange? || e.PossessionChange?) && c.ple.Some? then 2
    else if (e.OwnershipRights? || e.PossessionRights?) && c.ple1.Some? then 2
    else 0
  }

  function RecordsFrom(events: seq<Event>, c: Cursor): nat
    requires CursorOk(c)
    decreases |events| - c.i
  {
    if c.i >= |events| then 0 else RecordsAt(events, c) + RecordsFrom(events, Advance(events, c))
  }

  /** Every dividend window ends with the message that closes it, or with the log. */
  predicate WindowsClosed(events: seq<Event>) {
    forall i :: 0 <= i < |events| ==> ClosedAt(events, i)
  }

  predicate ClosedAt(events: seq<Event>, i: nat)
    requires i < |events|
  {
    events[i] == Custom(StartDividends) && FirstCustom(events, i + 1) < |events| ==>
      events[FirstCustom(events, i + 1)].message == EndDividends
  }

  /** A pair that changes the rights of some shares names three existing records. */
  ghost predicate NamesRecords(u: seq<Asset>, e0: Event, e1: Event)
    requires |u| > 0
  {
    (e0.OwnershipRights? && e1.PossessionRights? ==> PairNamesRecords(u, e0, e1)) &&
    (e1.OwnershipRights? && e0.PossessionRights? ==> PairNamesRecords(u, e1, e0))
  }

  ghost predicate PairNamesRecords(u: seq<Asset>, own: Event, pos: Event)
    requires |u| > 0 && own.OwnershipRights? && pos.PossessionRights?
  {
    var (i, o, p) := RightsSlots(u, own, pos);
    own.shares > 0 ==> !u[i].Empty? && !u[o].Empty? && !u[p].Empty?
  }

  /** If the event at the cursor completes a pair of rights changes, the pair names existing records. */
  ghost predicate RightsAt(s: Ledger, events: seq<Event>, c: Cursor)
    requires c.i < |events|
  {
    (events[c.i].OwnershipRights? || events[c.i].PossessionRights?) && c.ple1.Some? ==>
      |s.universe| > 0 && NamesRecords(s.universe, c.ple1.value, events[c.i])
  }

  /** Along the replay, every pair that changes rights names existing records at its turn. */
  ghost predicate RightsResolve(s: Ledger, events: seq<Event>, c: Cursor)
    requires CursorOk(c)
    decreases |events| - c.i
  {
    c.i >= |events| ||
    (var o := ApplyAt(s, events, c);
     && RightsAt(s, events, c)
     && (o.Done? ==> RightsResolve(o.ledger, events, Advance(events, c))))
  }

  /** The slots that the QU event at i, if any, may fill. */
  function SlotsAt(events: seq<Event>, i: nat): nat
    requires i < |events|
  {
    if QuAt(events, i) == [] then 0 else QU.Needed(QuAt(events, i)[0])
  }

  // ----- Each event ends -----

  ghost predicate Fit(s: Ledger) {
    |s.spectrum| > 0 && ST.WellFormed(s.spectrum) && SP.NonNegative(s.spectrum) && WellFormed(s.universe)
  }

  /** The outcome of an event that needs no more than this room. */
  ghost predicate Ended(s: Ledger, o: Outcome, slots: nat, records: nat) {
    && o != Undefined
    && (o.Done? ==>
          && Fit(o.ledger)
          && ST.Free(o.ledger.spectrum) >= ST.Free(s.spectrum) - slots
          && AssetTable.Free(o.ledger.universe) >= AssetTable.Free(s.universe) - records)
  }

  lemma QuEnds(s: Ledger, e: QU.QuEvent)
    requires Fit(s) && ST.Free(s.spectrum) > QU.Needed(e)
    ensures Ended(s, ApplyQu(s, e), QU.Needed(e), 0)
  {
    hide ST.WellFormed, SP.NonNegative, WellFormed, ST.Free, AssetTable.Free, QU.Ends, QU.StepQu, SP.Supply, QU.Settled;
    QU.EndsWithRoom(s.spectrum, e);
    QU.StepQuKeeps(s.spectrum, e);
  }

  /** An asset operation on the ledger. */
  lemma OperationEnds(s: Ledger, op: Op)
    requires Fit(s) && AssetTable.Free(s.universe) >= 3
    requires op.TransferOp? ==> op.so < |s.universe| && op.sp < |s.universe|
    requires op.RightsOp? ==> op.so < |s.universe| && op.sp < |s.universe|
    ensures Completes(s.universe, op)
    ensures Ended(s, Done(s.(universe := Step(s.universe, op))), 0, Records(op))
  {
    hide ST.WellFormed, SP.NonNegative, ST.Free, AssetTable.Free, Completes, Step;
    CompletesWithRoom(s.universe, op);
    StepKeepsWellFormed(s.universe, op);
    StepUses(s.universe, op);
  }

  lemma IssuanceEnds(s: Ledger, e: Event)
    requires Fit(s) && AssetTable.Free(s.universe) >= 3 && e.Issuance?
    ensures Ended(s, ApplyIssuance(s, e), 0, 3)
  {
    hide Ended, AssetTable.Free, ST.WellFormed, SP.NonNegative;
    var op := IssueOp(e.issuer, e.name, e.decimals, e.unit, e.shares, e.managing);
    OperationEnds(s, op);
    assert Records(op) == 3;
    assert Completes(s.universe, op) == IssueEnds(s.universe, e.issuer, e.name);
  }

  lemma ChangeEnds(s: Ledger, e0: Event, e1: Event)
    requires (e0.OwnershipChange? || e0.PossessionChange?) && (e1.OwnershipChange? || e1.PossessionChange?)
    requires Fit(s) && AssetTable.Free(s.universe) >= 3
    ensures Ended(s, ApplyChange(s, e0, e1), 0, 2)
  {
    hide AssetTable.Free, ST.WellFormed, SP.NonNegative;
    var c := e0.change;
    var op := TransferKeysOp(c.name, c.issuer, c.source, c.source, c.shares, c.managing, c.destination);
    OperationEnds(s, op);
    assert Records(op) == 2;
  }

  lemma MatchedRightsEnd(s: Ledger, own: Event, pos: Event)
    requires own.OwnershipRights? && pos.PossessionRights?
    requires Fit(s) && AssetTable.Free(s.universe) >= 3 && PairNamesRecords(s.universe, own, pos)
    ensures Ended(s, ApplyMatchedRights(s, own, pos), 0, 2)
  {
    var u := s.universe;
    var (i, o, p) := RightsSlots(u, own, pos);
    CanProbeWhen(u, IssuanceId(own.issuer, own.name));
    CanProbeWhen(u, OwnershipId(own.owner, own.from, i));
    CanProbeWhen(u, PossessionId(pos.possessor, own.from, o));
    var to := own.to % 0x1_0000;
    var op := RightsOp(o, p, to, to, own.shares);
    OperationEnds(s, op);
    assert Records(op) == 2;
  }

  lemma RightsEnds(s: Ledger, e0: Event, e1: Event)
    requires (e0.OwnershipRights? || e0.PossessionRights?) && (e1.OwnershipRights? || e1.PossessionRights?)
    requires Fit(s) && AssetTable.Free(s.universe) >= 3 && NamesRecords(s.universe, e0, e1)
    ensures Ended(s, ApplyRights(s, e0, e1), 0, 2)
  {
    hide Ended, ApplyMatchedRights, PairNamesRecords;
    if e0.OwnershipRights? && e1.PossessionRights? {
      MatchedRightsEnd(s, e0, e1);
    } else if e1.OwnershipRights? && e0.PossessionRights? {
      MatchedRightsEnd(s, e1, e0);
    }
    StoppedEnds(s, 0, 2);
  }

  lemma StoppedEnds(s: Ledger, slots: nat, records: nat)
    ensures Ended(s, Exited, slots, records)
  {
  }

  lemma SkippedEnds(s: Ledger)
    requires Fit(s)
    ensures Ended(s, Done(s), 0, 0)
  {
  }

  /** What a window does that is closed. */
  lemma ClosedWindow(s: Ledger, events: seq<Event>, c: Cursor)
    requires c.i < |events| && CursorOk(c) && ClosedAt(events, c.i) && events[c.i] == Custom(StartDividends)
    requires FirstCustom(events, c.i + 1) < |events|
    ensures var window := events[c.i + 1..FirstCustom(events, c.i + 1)];
      ApplyAt(s, events, c) == ApplyQu(s, WindowEvent(window)) && SlotsAt(events, c.i) == |Payments(window)|
  {
    hide ApplyQu, Payments, FirstCustom;
  }

  lemma {:induction false} OtherCustom(s: Ledger, events: seq<Event>, c: Cursor)
    requires c.i < |events| && CursorOk(c) && events[c.i].Custom?
    requires events[c.i].message != StartDividends || FirstCustom(events, c.i + 1) == |events|
    ensures ApplyAt(s, events, c) == (if events[c.i].message != StartDividends then Done(s) else Exited)
    ensures events[c.i].message != StartDividends ==> SlotsAt(events, c.i) == 0
  {
  }

  lemma CustomEnds(s: Ledger, events: seq<Event>, c: Cursor)
    requires c.i < |events| && CursorOk(c) && Fit(s) && ClosedAt(events, c.i) && events[c.i].Custom?
    requires ST.Free(s.spectrum) > SlotsAt(events, c.i)
    ensures Ended(s, ApplyAt(s, events, c), SlotsAt(events, c.i), 0)
  {
    hide Ended, Fit, ApplyAt, SlotsAt, ClosedAt, Payments;
    SkippedEnds(s);
    StoppedEnds(s, SlotsAt(events, c.i), 0);
    var j := FirstCustom(events, c.i + 1);
    if events[c.i] == Custom(StartDividends) && j < |events| {
      ClosedWindow(s, events, c);
      WindowEnds(s, events[c.i + 1..j]);
    } else {
      OtherCustom(s, events, c);
    }
  }

  // ----- The whole log -----

  /** One turn of the loop. */
  lemma ApplyAtEnds(s: Ledger, events: seq<Event>, c: Cursor)
    requires c.i < |events| && CursorOk(c) && Fit(s) && ClosedAt(events, c.i) && RightsAt(s, events, c)
    requires ST.Free(s.spectrum) > SlotsAt(events, c.i) && AssetTable.Free(s.universe) > RecordsAt(events, c)
    ensures Ended(s, ApplyAt(s, events, c), SlotsAt(events, c.i), RecordsAt(events, c))
  {
    hide Ended, Fit, ApplyQu, ApplyIssuance, ApplyChange, ApplyRights, NamesRecords, Payments, ClosedAt;
    var e := events[c.i];
    SkippedEnds(s);
    match e
    case Transfer(payment, tick) => QuEnds(s, QU.QuTransfer(payment, tick));
    case Burning(source, amount, tick) => QuEnds(s, QU.QuBurn(source, amount, tick));
    case Issuance(_, _, _, _, _, _) => IssuanceEnds(s, e);
    case Custom(message) => CustomEnds(s, events, c);
    case OwnershipChange(_) =>
      if c.ple.Some? { ChangeEnds(s, c.ple.value, e); }
    case PossessionChange(_) =>
      if c.ple.Some? { ChangeEnds(s, c.ple.value, e); }
    case OwnershipRights(_, _, _, _, _, _) =>
      if c.ple1.Some? { RightsEnds(s, c.ple1.value, e); }
    case PossessionRights(_, _, _, _, _, _) =>
      if c.ple1.Some? { RightsEnds(s, c.ple1.value, e); }
    case Ignored =>
  }

  lemma WindowEnds(s: Ledger, window: seq<Event>)
    requires Fit(s) && ST.Free(s.spectrum) > |Payments(window)|
    ensures Ended(s, ApplyQu(s, WindowEvent(window)), |Payments(window)|, 0)
  {
    hide Payments;
    QuEnds(s, WindowEvent(window));
  }

  /** With closed windows, enough room and resolvable rights, a whole log is replayed to its end or to an exit. */
  lemma {:induction false} ReplayEnds(s: Ledger, events: seq<Event>, c: Cursor)
    requires CursorOk(c) && Fit(s) && WindowsClosed(events) && RightsResolve(s, events, c)
    requires ST.Free(s.spectrum) > QU.TotalNeeded(QuEvents(events, c.i))
    requires AssetTable.Free(s.universe) > RecordsFrom(events, c)
    ensures ReplayFrom(s, events, c) != Undefined
    ensures var o := ReplayFrom(s, events, c); o.Done? ==> Fit(o.ledger)
    decreases |events| - c.i
  {
    hide Fit, ClosedAt, ApplyAt, QuAt, NextIndex, Advance, RecordsAt, ST.Free, AssetTable.Free, SlotsAt;
    if c.i < |events| {
      NeededStep(events, c.i);
      ApplyAtEnds(s, events, c);
      var o := ApplyAt(s, events, c);
      if o.Done? {
        ReplayEnds(o.ledger, events, Advance(events, c));
      }
    }
  }

  lemma {:induction false} NeededStep(events: seq<Event>, i: nat)
    requires i < |events|
    ensures QU.TotalNeeded(QuEvents(events, i))
        == SlotsAt(events, i) + QU.TotalNeeded(QuEvents(events, NextIndex(events, i)))
  {
    hide QuAt, NextIndex;
    var q := QuEvents(events, i);
    if QuAt(events, i) != [] {
      assert q[1..] == QuEvents(events, NextIndex(events, i));
    } else {
      assert q == QuEvents(events, NextIndex(events, i));
    }
  }
}
