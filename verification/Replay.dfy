/**
 The event replay loop of verifyLoggingEvent: QU events, issuances, paired asset events
 and dividend windows, applied to the spectrum and the universe in log order.
 */
module Replay {
  import opened Options
  import ST = SpectrumTable
  import SP = Spectrum
  import QU = QuReplay
  import opened AssetTable
  import opened AssetLedger
  import opened AssetConservation
  import opened AssetRuns

  datatype Message = StartDividends | EndDividends | EndEpoch | OtherMessage

  /** A change of owner or possessor of shares. */
  datatype Change = Change(source: nat, destination: nat, issuer: nat, shares: int, managing: nat, name: nat,
                           decimals: int, unit: seq<int>)

  datatype Event =
    | Transfer(payment: QU.Payment, tick: nat)
    | Burning(source: nat, amount: int, tick: nat)
    | Issuance(issuer: nat, name: nat, decimals: int, unit: seq<int>, shares: int, managing: nat)
    | OwnershipChange(change: Change)
    | PossessionChange(change: Change)
    | OwnershipRights(owner: nat, issuer: nat, name: nat, shares: int, from: nat, to: nat)
    | PossessionRights(possessor: nat, owner: nat, name: nat, shares: int, from: nat, to: nat)
    | Custom(message: Message)
    | Ignored

  datatype Ledger = Ledger(spectrum: seq<ST.Slot>, universe: seq<Asset>)

  /**
   Done: the loop ran to the end. Exited: the program stopped itself. Undefined: the code
   indexes the table with -1, or some probe of a full table or a malformed window goes on forever.
   */
  datatype Outcome = Done(ledger: Ledger) | Exited | Undefined

  // ----- Single events -----

  ghost function ApplyQu(s: Ledger, e: QU.QuEvent): (o: Outcome)
    ensures !o.Exited?
  {
    if |s.spectrum| == 0 || !QU.Ends(s.spectrum, e) then Undefined
    else Done(s.(spectrum := QU.StepQu(s.spectrum, e)))
  }

  ghost function ApplyIssuance(s: Ledger, e: Event): (o: Outcome)
    requires e.Issuance?
    ensures !o.Exited?
  {
    if |s.universe| == 0 || !IssueEnds(s.universe, e.issuer, e.name) then Undefined
    else Done(s.(universe := Issue(s.universe, e.issuer, e.name, e.decimals, e.unit, e.shares, e.managing).table))
  }

  /** processChangeOwnershipAndPossession: one event of each kind, with equal contents. */
  ghost function ApplyChange(s: Ledger, e0: Event, e1: Event): (o: Outcome)
    requires (e0.OwnershipChange? || e0.PossessionChange?) && (e1.OwnershipChange? || e1.PossessionChange?)
  {
    if e0.OwnershipChange? == e1.OwnershipChange? || e0.change != e1.change then Exited
    else ApplyMatchedChange(s, e0.change)
  }

  ghost function ApplyMatchedChange(s: Ledger, c: Change): (o: Outcome) {
    if !WellFormed(s.universe)
        || !TransferByKeyEnds(s.universe, c.name, c.issuer, c.source, c.source, c.shares, c.managing, c.destination)
    then Undefined
    else Done(s.(universe := TransferByKey(s.universe, c.name, c.issuer, c.source, c.source, c.shares, c.managing,
        c.destination).table))
  }

  /** The three lookups of processChangeManagingContract. */
  ghost function RightsSlots(u: seq<Asset>, own: Event, pos: Event): (r: (nat, nat, nat))
    requires |u| > 0 && own.OwnershipRights? && pos.PossessionRights?
    ensures r.0 < |u| && r.1 < |u| && r.2 < |u|
  {
    var i := Locate(u, IssuanceId(own.issuer, own.name));
    var o := Locate(u, OwnershipId(own.owner, own.from, i));
    (i, o, Locate(u, PossessionId(pos.possessor, own.from, o)))
  }

  /** processChangeManagingContract; the destination contract index is stored in 16 bits. */
  ghost function ApplyRights(s: Ledger, e0: Event, e1: Event): (o: Outcome)
    requires (e0.OwnershipRights? || e0.PossessionRights?) && (e1.OwnershipRights? || e1.PossessionRights?)
  {
    if e0.OwnershipRights? == e1.OwnershipRights? then Exited
    else
      var own, pos := if e0.OwnershipRights? then e0 else e1, if e0.OwnershipRights? then e1 else e0;
      if own.owner != pos.owner || own.name != pos.name || own.shares != pos.shares || own.from != pos.from
          || own.to != pos.to then Exited
      else ApplyMatchedRights(s, own, pos)
  }

  ghost predicate RightsLookupsEnd(u: seq<Asset>, own: Event, pos: Event)
    requires |u| > 0 && own.OwnershipRights? && pos.PossessionRights?
  {
    var (i, o, _) := RightsSlots(u, own, pos);
    && CanProbe(u, IssuanceId(own.issuer, own.name))
    && CanProbe(u, OwnershipId(own.owner, own.from, i))
    && CanProbe(u, PossessionId(pos.possessor, own.from, o))
  }

  /** The lookups come first; without shares the transfer refuses before it uses their results. */
  ghost function ApplyMatchedRights(s: Ledger, own: Event, pos: Event): (o: Outcome)
    requires own.OwnershipRights? && pos.PossessionRights?
  {
    if !WellFormed(s.universe) || !RightsLookupsEnd(s.universe, own, pos) then Undefined
    else if own.shares <= 0 then Exited
    else
      var u := s.universe;
      var (i, o, p) := RightsSlots(u, own, pos);
      var to := own.to % 0x1_0000;
      if u[i].Empty? || u[o].Empty? || u[p].Empty? || !RightsEnd(u, o, p, to, to, own.shares) then Undefined
      else
        var c := Rights(u, o, p, to, to, own.shares);
        if c.result then Done(s.(universe := c.table)) else Exited
  }

  // ----- Dividend windows -----

  /** The first custom message at or after i. */
  function FirstCustom(events: seq<Event>, i: nat): (j: nat)
    requires i <= |events|
    ensures i <= j <= |events|
    ensures j < |events| ==> events[j].Custom?
    ensures forall k :: i <= k < j ==> !events[k].Custom?
    decreases |events| - i
  {
    if i == |events| || events[i].Custom? then i else FirstCustom(events, i + 1)
  }

  /** The payments of a window; a window with any other kind of event is ignored as a whole. */
  function Payments(window: seq<Event>): (items: seq<QU.Payment>) {
    if forall k :: 0 <= k < |window| ==> window[k].Transfer?
    then seq(|window|, k requires 0 <= k < |window| && window[k].Transfer? => window[k].payment)
    else []
  }

  function WindowEvent(window: seq<Event>): QU.QuEvent {
    QU.Dividends(Payments(window), if |window| > 0 && window[0].Transfer? then window[0].tick else 0)
  }

  // ----- The loop -----

  /** The loop variables: the index and the two pending halves of paired events. */
  datatype Cursor = Cursor(i: nat, ple: Option<Event>, ple1: Option<Event>)

  predicate CursorOk(c: Cursor) {
    && (c.ple.Some? ==> c.ple.value.OwnershipChange? || c.ple.value.PossessionChange?)
    && (c.ple1.Some? ==> c.ple1.value.OwnershipRights? || c.ple1.value.PossessionRights?)
  }

  /** The index of the next event to process: a dividend window is consumed as a whole. */
  function NextIndex(events: seq<Event>, i: nat): (j: nat)
    requires i < |events|
    ensures i < j <= |events| + 1
  {
    if events[i] == Custom(StartDividends) then FirstCustom(events, i + 1) + 1 else i + 1
  }

  /** The loop variables after the event at i. */
  function Advance(events: seq<Event>, c: Cursor): (d: Cursor)
    requires c.i < |events| && CursorOk(c)
    ensures CursorOk(d) && d.i == NextIndex(events, c.i)
  {
    var e := events[c.i];
    var n := NextIndex(events, c.i);
    if e.OwnershipChange? || e.PossessionChange? then Cursor(n, if c.ple.Some? then None else Some(e), c.ple1)
    else if e.OwnershipRights? || e.PossessionRights? then Cursor(n, c.ple, if c.ple1.Some? then None else Some(e))
    else c.(i := n)
  }

  /** What the event at i does to the ledgers. */
  ghost function ApplyAt(s: Ledger, events: seq<Event>, c: Cursor): (o: Outcome)
    requires c.i < |events| && CursorOk(c)
  {
    var e := events[c.i];
    match e
    case Transfer(payment, tick) => ApplyQu(s, QU.QuTransfer(payment, tick))
    case Burning(source, amount, tick) => ApplyQu(s, QU.QuBurn(source, amount, tick))
    case Issuance(_, _, _, _, _, _) => ApplyIssuance(s, e)
    case Custom(message) =>
      if message != StartDividends then Done(s) else
      var j := FirstCustom(events, c.i + 1);
      if j == |events| then Exited
      else if events[j].message != EndDividends then Undefined
      else ApplyQu(s, WindowEvent(events[c.i + 1..j]))
    case OwnershipChange(_) => if c.ple.Some? then ApplyChange(s, c.ple.value, e) else Done(s)
    case PossessionChange(_) => if c.ple.Some? then ApplyChange(s, c.ple.value, e) else Done(s)
    case OwnershipRights(_, _, _, _, _, _) => if c.ple1.Some? then ApplyRights(s, c.ple1.value, e) else Done(s)
    case PossessionRights(_, _, _, _, _, _) => if c.ple1.Some? then ApplyRights(s, c.ple1.value, e) else Done(s)
    case Ignored => Done(s)
  }

  ghost function ReplayFrom(s: Ledger, events: seq<Event>, c: Cursor): (o: Outcome)
    requires CursorOk(c)
    decreases |events| - c.i
  {
    if c.i >= |events| then Done(s) else
    var o := ApplyAt(s, events, c);
    if o.Done? then ReplayFrom(o.ledger, events, Advance(events, c)) else o
  }

  function Start(): (c: Cursor)
    ensures CursorOk(c) && c.i == 0
  {
    Cursor(0, None, None)
  }

  /** The QU event, if any, that the loop performs at i; a window without payments changes nothing. */
  function QuAt(events: seq<Event>, i: nat): (q: seq<QU.QuEvent>)
    requires i < |events|
    ensures |q| <= 1
  {
    match events[i]
    case Transfer(payment, tick) => [QU.QuTransfer(payment, tick)]
    case Burning(source, amount, tick) => [QU.QuBurn(source, amount, tick)]
    case Custom(message) =>
      if message != StartDividends then [] else
      var j := FirstCustom(events, i + 1);
      if Payments(events[i + 1..j]) == [] then [] else [WindowEvent(events[i + 1..j])]
    case _ => []
  }

  /** The QU events of a log; nothing else changes the spectrum. */
  function QuEvents(events: seq<Event>, i: nat): (q: seq<QU.QuEvent>)
    decreases |events| - i
  {
    if i >= |events| then [] else QuAt(events, i) + QuEvents(events, NextIndex(events, i))
  }

  // ----- What every replay does to the spectrum -----

  lemma NoPayments(s: Ledger, window: seq<Event>)
    requires Payments(window) == [] && ApplyQu(s, WindowEvent(window)).Done?
    ensures ApplyQu(s, WindowEvent(window)).ledger == s
  {
  }

  /** One turn of the loop changes the spectrum by its QU event alone. */
  lemma ApplyAtSpectrum(s: Ledger, events: seq<Event>, c: Cursor)
    requires c.i < |events| && CursorOk(c) && |s.spectrum| > 0 && ApplyAt(s, events, c).Done?
    ensures var s' := ApplyAt(s, events, c).ledger; var q := QuAt(events, c.i);
      s'.spectrum == if q == [] then s.spectrum else QU.StepQu(s.spectrum, q[0])
  {
    hide WindowEvent, Payments, TransferByKeyEnds, TransferByKey, RightsLookupsEnd, RightsSlots, RightsEnd, Rights,
        IssueEnds, Issue;
    if events[c.i] == Custom(StartDividends) && QuAt(events, c.i) == [] {
      NoPayments(s, events[c.i + 1..FirstCustom(events, c.i + 1)]);
    }
  }

  /** Whatever the assets do, a completed replay is a run of QU events on the spectrum. */
  lemma {:induction false} ReplaySpectrum(s: Ledger, events: seq<Event>, c: Cursor)
    requires CursorOk(c) && |s.spectrum| > 0 && ReplayFrom(s, events, c).Done?
    ensures ReplayFrom(s, events, c).ledger.spectrum == QU.RunQu(s.spectrum, QuEvents(events, c.i))
    decreases |events| - c.i
  {
    hide ApplyAt, QuAt, NextIndex, Advance, QU.StepQu;
    if c.i < |events| {
      ApplyAtSpectrum(s, events, c);
      ReplaySpectrum(ApplyAt(s, events, c).ledger, events, Advance(events, c));
      var q := QuEvents(events, c.i);
      if QuAt(events, c.i) != [] {
        assert q[1..] == QuEvents(events, NextIndex(events, c.i));
      } else {
        assert q == QuEvents(events, NextIndex(events, c.i));
      }
    }
  }

  // ----- What every replay keeps -----

  ghost predicate Healthy(s: Ledger) {
    && ST.WellFormed(s.spectrum) && SP.NonNegative(s.spectrum)
    && Sound(s.universe) && SameManager(s.universe)
  }

  /** No issuance of a negative number of shares. */
  predicate Issuable(events: seq<Event>) {
    forall k :: 0 <= k < |events| && events[k].Issuance? ==> events[k].shares >= 0
  }

  lemma ApplyQuKeeps(s: Ledger, e: QU.QuEvent)
    requires Healthy(s)
    ensures var o := ApplyQu(s, e); o.Done? ==>
      && Healthy(o.ledger) && |o.ledger.spectrum| == |s.spectrum| > 0
      && o.ledger.spectrum == QU.StepQu(s.spectrum, e)
      && (QU.Settled(s.spectrum, e) ==>
          SP.Supply(o.ledger.spectrum) == SP.Supply(s.spectrum) + QU.Minted(e) - QU.Burned(e))
  {
    if ApplyQu(s, e).Done? {
      hide Sound, SameManager;
      QU.StepQuKeeps(s.spectrum, e);
    }
  }

  lemma ApplyAssetKeeps(s: Ledger, u: seq<Asset>, op: Op)
    requires Healthy(s) && |s.universe| > 0 && Allowed(s.universe, op)
    requires (op.RightsOp? ==> op.ownerManaging == op.possessorManaging)
    requires u == Step(s.universe, op)
    ensures Healthy(s.(universe := u))
  {
    hide ST.WellFormed, SP.NonNegative;
    StepKeeps(s.universe, op);
    hide Sound, SameManager;
  }

  lemma ApplyIssuanceKeeps(s: Ledger, e: Event)
    requires Healthy(s) && e.Issuance? && e.shares >= 0
    ensures var o := ApplyIssuance(s, e); o.Done? ==> Healthy(o.ledger) && o.ledger.spectrum == s.spectrum
  {
    if ApplyIssuance(s, e).Done? {
      ApplyAssetKeeps(s, ApplyIssuance(s, e).ledger.universe,
          IssueOp(e.issuer, e.name, e.decimals, e.unit, e.shares, e.managing));
      hide Healthy;
    }
  }

  lemma MatchedChangeIsOp(s: Ledger, c: Change)
    requires ApplyMatchedChange(s, c).Done?
    ensures |s.universe| > 0 && WellFormed(s.universe)
    ensures var op := TransferKeysOp(c.name, c.issuer, c.source, c.source, c.shares, c.managing, c.destination);
      Allowed(s.universe, op) && ApplyMatchedChange(s, c) == Done(s.(universe := Step(s.universe, op)))
  {
    hide Reaches, Linked, Unique, TransferByKeyEnds, TransferByKey;
  }

  lemma ApplyMatchedChangeKeeps(s: Ledger, c: Change)
    requires Healthy(s)
    ensures var o := ApplyMatchedChange(s, c); o.Done? ==> Healthy(o.ledger) && o.ledger.spectrum == s.spectrum
  {
    hide Healthy, ApplyMatchedChange, Allowed, Step, WellFormed;
    if ApplyMatchedChange(s, c).Done? {
      MatchedChangeIsOp(s, c);
      ApplyAssetKeeps(s, ApplyMatchedChange(s, c).ledger.universe,
                      TransferKeysOp(c.name, c.issuer, c.source, c.source, c.shares, c.managing, c.destination));
    }
  }

  lemma ApplyChangeKeeps(s: Ledger, e0: Event, e1: Event)
    requires Healthy(s) && (e0.OwnershipChange? || e0.PossessionChange?)
    requires (e1.OwnershipChange? || e1.PossessionChange?)
    ensures var o := ApplyChange(s, e0, e1); o.Done? ==> Healthy(o.ledger) && o.ledger.spectrum == s.spectrum
  {
    hide Healthy, ApplyMatchedChange;
    ApplyMatchedChangeKeeps(s, e0.change);
  }

  /** A matched pair that is applied is one management-rights operation. */
  lemma MatchedRightsIsOp(s: Ledger, own: Event, pos: Event)
    requires own.OwnershipRights? && pos.PossessionRights? && ApplyMatchedRights(s, own, pos).Done?
    ensures WellFormed(s.universe)
    ensures var (_, o, p) := RightsSlots(s.universe, own, pos); var to := own.to % 0x1_0000;
      var op := RightsOp(o, p, to, to, own.shares);
      Allowed(s.universe, op) && ApplyMatchedRights(s, own, pos) == Done(s.(universe := Step(s.universe, op)))
  {
    hide WellFormed, RightsLookupsEnd, RightsEnd, Rights, Locate;
  }

  lemma RefusedWithoutShares(s: Ledger, own: Event, pos: Event)
    requires own.OwnershipRights? && pos.PossessionRights? && own.shares <= 0
    ensures !ApplyMatchedRights(s, own, pos).Done?
  {
  }

  lemma ApplyMatchedRightsKeeps(s: Ledger, own: Event, pos: Event)
    requires Healthy(s) && own.OwnershipRights? && pos.PossessionRights?
    ensures var o := ApplyMatchedRights(s, own, pos);
      o.Done? ==> own.shares > 0 && Healthy(o.ledger) && o.ledger.spectrum == s.spectrum
  {
    hide Healthy, RightsSlots, ApplyMatchedRights, Allowed, Step, WellFormed;
    if ApplyMatchedRights(s, own, pos).Done? {
      MatchedRightsIsOp(s, own, pos);
      if own.shares <= 0 { RefusedWithoutShares(s, own, pos); }
      var (_, o, p) := RightsSlots(s.universe, own, pos);
      var to := own.to % 0x1_0000;
      ApplyAssetKeeps(s, ApplyMatchedRights(s, own, pos).ledger.universe, RightsOp(o, p, to, to, own.shares));
    }
  }

  lemma ApplyRightsKeeps(s: Ledger, e0: Event, e1: Event)
    requires Healthy(s) && (e0.OwnershipRights? || e0.PossessionRights?)
    requires (e1.OwnershipRights? || e1.PossessionRights?)
    ensures var o := ApplyRights(s, e0, e1); o.Done? ==> Healthy(o.ledger) && o.ledger.spectrum == s.spectrum
  {
    hide Healthy, ApplyMatchedRights;
    if e0.OwnershipRights? && e1.PossessionRights? {
      ApplyMatchedRightsKeeps(s, e0, e1);
    } else if e1.OwnershipRights? && e0.PossessionRights? {
      ApplyMatchedRightsKeeps(s, e1, e0);
    }
  }

  /** One turn of the loop. */
  lemma ApplyAtKeeps(s: Ledger, events: seq<Event>, c: Cursor)
    requires c.i < |events| && CursorOk(c) && Healthy(s) && |s.spectrum| > 0 && Issuable(events)
    requires ApplyAt(s, events, c).Done?
    ensures var s' := ApplyAt(s, events, c).ledger; var q := QuAt(events, c.i);
      && Healthy(s') && |s'.spectrum| == |s.spectrum| > 0
      && (q == [] ==> s'.spectrum == s.spectrum)
      && (q != [] ==> s'.spectrum == QU.StepQu(s.spectrum, q[0]))
      && (q != [] && QU.Settled(s.spectrum, q[0]) ==>
            SP.Supply(s'.spectrum) == SP.Supply(s.spectrum) + QU.Minted(q[0]) - QU.Burned(q[0]))
  {
    hide Healthy, ApplyQu, ApplyIssuance, ApplyChange, ApplyRights, WindowEvent, QU.Settled, QU.StepQu, SP.Supply;
    ApplyAtSpectrum(s, events, c);
    var e := events[c.i];
    if QuAt(events, c.i) != [] {
      ApplyQuKeeps(s, QuAt(events, c.i)[0]);
    } else if e == Custom(StartDividends) {
      NoPayments(s, events[c.i + 1..FirstCustom(events, c.i + 1)]);
    } else if e.Issuance? {
      ApplyIssuanceKeeps(s, e);
    } else if (e.OwnershipChange? || e.PossessionChange?) && c.ple.Some? {
      ApplyChangeKeeps(s, c.ple.value, e);
    } else if (e.OwnershipRights? || e.PossessionRights?) && c.ple1.Some? {
      ApplyRightsKeeps(s, c.ple1.value, e);
    }
  }

  /**
   Every completed replay keeps both ledgers healthy, and when all its debits succeed the QU
   supply is the initial one plus what was minted minus what was burned.
   */
  lemma {:induction false} ReplayKeeps(s: Ledger, events: seq<Event>, c: Cursor)
    requires CursorOk(c) && Healthy(s) && |s.spectrum| > 0 && Issuable(events) && ReplayFrom(s, events, c).Done?
    ensures var s' := ReplayFrom(s, events, c).ledger; var q := QuEvents(events, c.i);
      && Healthy(s')
      && s'.spectrum == QU.RunQu(s.spectrum, q)
      && (QU.AllSettled(s.spectrum, q) ==> SP.Supply(s'.spectrum) == SP.Supply(s.spectrum) + QU.NetMinted(q))
    decreases |events| - c.i
  {
    hide Healthy, Issuable, ApplyAt, QuAt, NextIndex, Advance, QU.StepQu, QU.Settled, SP.Supply;
    if c.i < |events| {
      ApplyAtKeeps(s, events, c);
      ReplayKeeps(ApplyAt(s, events, c).ledger, events, Advance(events, c));
      var q := QuEvents(events, c.i);
      if QuAt(events, c.i) != [] {
        assert q[1..] == QuEvents(events, NextIndex(events, c.i));
      } else {
        assert q == QuEvents(events, NextIndex(events, c.i));
      }
    }
  }
}
