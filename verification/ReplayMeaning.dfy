/**
 What a log means, read off its events one by one without the loop: which QU events and which
 asset operations it holds. A replay completes exactly if the log is well formed and all of
 them can be performed, and then it ends with the tables after performing them.
 */
module ReplayMeaning {
  import opened Options
  import ST = SpectrumTable
  import QU = QuReplay
  import AC = Accounts
  import HR = HoldingRuns
  import opened AssetTable
  import opened AssetLedger
  import opened AssetConservation
  import opened AssetEpochResults
  import opened AssetHoldings
  import opened AssetRuns
  import opened Replay

  // ----- Dividend windows -----

  /** A dividend window is open ahead of event k: it starts with one message and lasts until the next. */
  predicate Open(events: seq<Event>, k: nat)
    requires k <= |events|
  {
    k > 0 && if Open(events, k - 1) then !events[k - 1].Custom? else events[k - 1] == Custom(StartDividends)
  }

  /** The message that opened the window. */
  function Opening(events: seq<Event>, k: nat): (i: nat)
    requires k <= |events| && Open(events, k)
    ensures i < k
  {
    if Open(events, k - 1) then Opening(events, k - 1) else k - 1
  }

  /** The QU event at k: outside of windows each event on its own, a window of transfers where it is closed. */
  function QuAction(events: seq<Event>, k: nat): (q: seq<QU.QuEvent>)
    requires k < |events|
    ensures |q| <= 1
  {
    if Open(events, k) then
      var window := events[Opening(events, k) + 1..k];
      if !events[k].Custom? || window == [] || exists x :: x in window && !x.Transfer? then []
      else [QU.Dividends(seq(|window|, j requires 0 <= j < |window| && window[j].Transfer? => window[j].payment),
                         window[0].tick)]
    else if events[k].Transfer? then [QU.QuTransfer(events[k].payment, events[k].tick)]
    else if events[k].Burning? then [QU.QuBurn(events[k].source, events[k].amount, events[k].tick)]
    else []
  }

  // ----- Asset operations -----

  predicate IsChange(e: Event) {
    e.OwnershipChange? || e.PossessionChange?
  }

  predicate IsRights(e: Event) {
    e.OwnershipRights? || e.PossessionRights?
  }

  /** The changes of owner or possessor among the first k events, outside of windows. */
  function Changes(events: seq<Event>, k: nat): (s: seq<Event>)
    requires k <= |events|
    ensures forall j :: 0 <= j < |s| ==> IsChange(s[j])
  {
    if k == 0 then []
    else Changes(events, k - 1)
         + if IsChange(events[k - 1]) && !Open(events, k - 1) then [events[k - 1]] else []
  }

  /** The changes of management rights among the first k events, outside of windows. */
  function RightsChanges(events: seq<Event>, k: nat): (s: seq<Event>)
    requires k <= |events|
    ensures forall j :: 0 <= j < |s| ==> IsRights(s[j])
  {
    if k == 0 then []
    else RightsChanges(events, k - 1)
         + if IsRights(events[k - 1]) && !Open(events, k - 1) then [events[k - 1]] else []
  }

  /** An operation that the events determine, or a change of the managing contracts of a holding, found on the table. */
  datatype Action = Fixed(op: Op) | Reassign(src: Holding, managing: nat, n: int)

  /** The asset operation at k: an issuance, or the second event of a pair. */
  function ActionAt(events: seq<Event>, k: nat): (a: seq<Action>)
    requires k < |events|
    ensures |a| <= 1
  {
    var e := events[k];
    if Open(events, k) then []
    else if e.Issuance? then [Fixed(IssueOp(e.issuer, e.name, e.decimals, e.unit, e.shares, e.managing))]
    else if IsChange(e) && |Changes(events, k)| % 2 == 1 then
      var c := e.change;
      [Fixed(TransferKeysOp(c.name, c.issuer, c.source, c.source, c.shares, c.managing, c.destination))]
    else if IsRights(e) && |RightsChanges(events, k)| % 2 == 1 then
      var first := RightsChanges(events, k)[|RightsChanges(events, k)| - 1];
      if first.PossessionRights? && e.OwnershipRights? then [RightsOf(e, first)]
      else if first.OwnershipRights? && e.PossessionRights? then [RightsOf(first, e)]
      else []
    else []
  }

  /** The holding of owner and possessor moves to the contract index, which is stored in 16 bits. */
  function RightsOf(own: Event, pos: Event): Action
    requires own.OwnershipRights? && pos.PossessionRights?
  {
    Reassign(Holding(own.issuer, own.name, own.owner, own.from, pos.possessor, own.from), own.to % 0x1_0000, own.shares)
  }

  /** If event k is the second of a pair, one event is about the owner, one about the possessor, and they agree. */
  predicate Paired(events: seq<Event>, k: nat)
    requires k < |events|
  {
    var e, cs, rs := events[k], Changes(events, k), RightsChanges(events, k);
    !Open(events, k) ==>
      && (IsChange(e) && |cs| % 2 == 1 ==>
            cs[|cs| - 1].OwnershipChange? != e.OwnershipChange? && cs[|cs| - 1].change == e.change)
      && (IsRights(e) && |rs| % 2 == 1 ==>
            var first := rs[|rs| - 1];
            && first.OwnershipRights? != e.OwnershipRights? && first.owner == e.owner && first.name == e.name
            && first.shares == e.shares && first.from == e.from && first.to == e.to)
  }

  /** A window that ends at k ends with the message for it. */
  predicate Closed(events: seq<Event>, k: nat)
    requires k < |events|
  {
    Open(events, k) && events[k].Custom? ==> events[k].message == EndDividends
  }

  /** From event i on all windows are closed and the events of each pair agree. */
  predicate FormedFrom(events: seq<Event>, i: nat) {
    !Open(events, |events|) && forall k :: i <= k < |events| ==> Closed(events, k) && Paired(events, k)
  }

  function QuActions(events: seq<Event>, i: nat): seq<QU.QuEvent>
    decreases |events| - i
  {
    if i >= |events| then [] else QuAction(events, i) + QuActions(events, i + 1)
  }

  function Actions(events: seq<Event>, i: nat): seq<Action>
    decreases |events| - i
  {
    if i >= |events| then [] else ActionAt(events, i) + Actions(events, i + 1)
  }

  // ----- Performing asset operations -----

  /** The holding has a record with enough shares, and so does its owner. */
  ghost predicate HasShares(t: seq<Asset>, src: Holding, n: int) {
    Known(t, src) && 0 < n <= SharesOf(t, src) && n <= OwnedOf(t, OwningOf(src))
  }

  /** The operation on the table. */
  ghost function OpOf(t: seq<Asset>, a: Action): Op
    requires a.Reassign? ==> Known(t, a.src)
  {
    match a
    case Fixed(op) => op
    case Reassign(src, managing, n) =>
      var p: nat :| IsHolding(t, p, src);
      RightsOp(t[p].ownership, p, managing, managing, n)
  }

  ghost predicate Applies(t: seq<Asset>, a: Action)
    requires |t| > 0
  {
    (a.Reassign? ==> HasShares(t, a.src, a.n)) && Completes(t, OpOf(t, a))
  }

  ghost predicate Plays(t: seq<Asset>, actions: seq<Action>)
    decreases |actions|
  {
    actions == []
    || (WellFormed(t) && Applies(t, actions[0]) && Plays(Step(t, OpOf(t, actions[0])), actions[1..]))
  }

  /** The operations of a log on the tables as they come, and where they end. */
  ghost function Operations(t: seq<Asset>, actions: seq<Action>): seq<Op>
    requires Plays(t, actions)
    decreases |actions|
  {
    if actions == [] then []
    else var op := OpOf(t, actions[0]); [op] + Operations(Step(t, op), actions[1..])
  }

  ghost function Play(t: seq<Asset>, actions: seq<Action>): seq<Asset>
    requires Plays(t, actions)
    decreases |actions|
  {
    if actions == [] then t else Play(Step(t, OpOf(t, actions[0])), actions[1..])
  }

  /** Both sides of the log can be performed. */
  ghost predicate Performs(s: Ledger, q: seq<QU.QuEvent>, a: seq<Action>) {
    |s.spectrum| > 0 && QU.RunEnds(s.spectrum, q) && Plays(s.universe, a)
  }

  ghost function After(s: Ledger, q: seq<QU.QuEvent>, a: seq<Action>): Ledger
    requires Performs(s, q, a)
  {
    Ledger(QU.RunQu(s.spectrum, q), Play(s.universe, a))
  }

  /** The whole log can be replayed. */
  ghost predicate CanReplay(s: Ledger, events: seq<Event>) {
    FormedFrom(events, 0) && Performs(s, QuActions(events, 0), Actions(events, 0))
  }

  /** The outcome is that of performing these, if they can be performed, and no completion otherwise. */
  ghost predicate Is(s: Ledger, o: Outcome, q: seq<QU.QuEvent>, a: seq<Action>) {
    && (o.Done? <==> Performs(s, q, a))
    && (o.Done? ==> o.ledger == After(s, q, a))
  }

  // ----- One event -----

  lemma {:induction false} OneQu(t: seq<ST.Slot>, e: QU.QuEvent)
    requires |t| > 0
    ensures QU.RunEnds(t, [e]) <==> QU.Ends(t, e)
    ensures QU.RunQu(t, [e]) == QU.StepQu(t, e)
  {
    hide QU.Ends, QU.StepQu;
    var rest := [e][1..];
    assert rest == [];
    assert QU.RunEnds(QU.StepQu(t, e), rest);
    assert QU.RunQu(QU.StepQu(t, e), rest) == QU.StepQu(t, e);
  }

  lemma {:induction false} OneAction(t: seq<Asset>, a: Action)
    requires WellFormed(t) && |t| > 0
    ensures Plays(t, [a]) <==> Applies(t, a)
    ensures Plays(t, [a]) ==> Play(t, [a]) == Step(t, OpOf(t, a))
  {
    hide WellFormed, Completes, Step, Known;
    var rest := [a][1..];
    assert rest == [];
    if Applies(t, a) {
      assert Plays(Step(t, OpOf(t, a)), rest);
      assert Play(Step(t, OpOf(t, a)), rest) == Step(t, OpOf(t, a));
    }
  }

  lemma QuIs(s: Ledger, e: QU.QuEvent)
    requires |s.spectrum| > 0
    ensures Is(s, ApplyQu(s, e), [e], [])
  {
    hide QU.Ends, QU.StepQu, QU.RunQu, QU.RunEnds;
    OneQu(s.spectrum, e);
  }

  lemma NothingIs(s: Ledger)
    requires |s.spectrum| > 0
    ensures Is(s, Done(s), [], [])
  {
  }

  lemma FixedIs(s: Ledger, op: Op, o: Outcome)
    requires |s.spectrum| > 0 && |s.universe| > 0 && WellFormed(s.universe)
    requires o.Done? <==> Completes(s.universe, op)
    requires o.Done? ==> o.ledger == s.(universe := Step(s.universe, op))
    ensures Is(s, o, [], [Fixed(op)])
  {
    hide WellFormed, Completes, Step, Plays, Play;
    OneAction(s.universe, Fixed(op));
  }

  /** The lookups of a rights change find the holding exactly if it is there. */
  lemma RightsLookups(u: seq<Asset>, own: Event, pos: Event)
    requires WellFormed(u) && own.OwnershipRights? && pos.PossessionRights?
    ensures var src := RightsOf(own, pos).src; var (i, o, p) := RightsSlots(u, own, pos);
      && (Known(u, src) ==>
            && RightsLookupsEnd(u, own, pos) && IsHolding(u, p, src) && u[p].ownership == o
            && !u[i].Empty? && !u[o].Empty? && !u[p].Empty?)
      && (!Known(u, src) && RightsLookupsEnd(u, own, pos) ==> u[i].Empty? || u[o].Empty? || u[p].Empty?)
  {
    var src := RightsOf(own, pos).src;
    if q: nat :| IsHolding(u, q, src) {
      HolderFound(u, own, pos, q);
    } else if RightsLookupsEnd(u, own, pos) {
      FoundHolder(u, own, pos);
    }
  }

  lemma HolderFound(u: seq<Asset>, own: Event, pos: Event, q: nat)
    requires WellFormed(u) && own.OwnershipRights? && pos.PossessionRights?
    requires IsHolding(u, q, RightsOf(own, pos).src)
    ensures RightsLookupsEnd(u, own, pos)
    ensures var (i, o, p) := RightsSlots(u, own, pos);
      p == q && u[q].ownership == o && !u[i].Empty? && !u[o].Empty? && !u[p].Empty?
  {
    var o := u[q].ownership;
    var i := u[o].issuance;
    LocateFinds(u, IssuanceId(own.issuer, own.name), i);
    LocateFinds(u, OwnershipId(own.owner, own.from, i), o);
    LocateFinds(u, PossessionId(pos.possessor, own.from, o), q);
    CanProbeWhen(u, IssuanceId(own.issuer, own.name));
    CanProbeWhen(u, OwnershipId(own.owner, own.from, i));
    CanProbeWhen(u, PossessionId(pos.possessor, own.from, o));
  }

  lemma FoundHolder(u: seq<Asset>, own: Event, pos: Event)
    requires WellFormed(u) && own.OwnershipRights? && pos.PossessionRights? && RightsLookupsEnd(u, own, pos)
    ensures var (i, o, p) := RightsSlots(u, own, pos);
      !u[i].Empty? && !u[o].Empty? && !u[p].Empty? ==> IsHolding(u, p, RightsOf(own, pos).src)
  {
    var (i, o, p) := RightsSlots(u, own, pos);
    LocateDecides(u, IssuanceId(own.issuer, own.name));
    LocateDecides(u, OwnershipId(own.owner, own.from, i));
    LocateDecides(u, PossessionId(pos.possessor, own.from, o));
  }

  /** The change completes exactly if the three records are there and hold the shares. */
  lemma RightsDone(s: Ledger, own: Event, pos: Event)
    requires |s.universe| > 0 && WellFormed(s.universe) && own.OwnershipRights? && pos.PossessionRights?
    ensures var o := ApplyMatchedRights(s, own, pos); var a := RightsOf(own, pos);
      && (o.Done? <==> Applies(s.universe, a))
      && (o.Done? ==> o.ledger == s.(universe := Step(s.universe, OpOf(s.universe, a))))
  {
    hide WellFormed, IsHolding, RightsLookupsEnd, RightsEnd, Rights, RightsSlots, HaveShares, Known;
    var a := RightsOf(own, pos);
    var u := s.universe;
    var (i, o, p) := RightsSlots(u, own, pos);
    RightsLookups(u, own, pos);
    if Known(u, a.src) {
      SlotOfOp(u, a, p);
      AcceptedAt(u, p, a.src, a.n, 1);
      RightsAccepted(u, o, p, a.managing, a.n);
    }
  }

  lemma RightsAccepted(u: seq<Asset>, o: nat, p: nat, managing: nat, n: int)
    requires WellFormed(u) && o < |u| && p < |u|
    ensures RightsEnd(u, o, p, managing, managing, n) ==>
      (Rights(u, o, p, managing, managing, n).result <==> HaveShares(u, o, p, n))
  {
    hide WellFormed, MoveEnds, Move;
    if RightsEnd(u, o, p, managing, managing, n) && CanMove(u, o, p, n) {
      MoveKeeps(u, o, p, u[o].key, managing, u[p].key, managing, n);
    }
  }

  lemma RightsAre(s: Ledger, own: Event, pos: Event)
    requires |s.spectrum| > 0 && |s.universe| > 0 && WellFormed(s.universe) && own.OwnershipRights?
    requires pos.PossessionRights?
    ensures Is(s, ApplyMatchedRights(s, own, pos), [], [RightsOf(own, pos)])
  {
    hide WellFormed, Plays, Play, Applies, Step, OpOf, ApplyMatchedRights;
    RightsDone(s, own, pos);
    OneAction(s.universe, RightsOf(own, pos));
  }

  lemma SlotOfOp(t: seq<Asset>, a: Action, p: nat)
    requires WellFormed(t) && a.Reassign? && IsHolding(t, p, a.src)
    ensures Known(t, a.src) && OpOf(t, a) == RightsOp(t[p].ownership, p, a.managing, a.managing, a.n)
  {
    var q: nat :| IsHolding(t, q, a.src) && OpOf(t, a) == RightsOp(t[q].ownership, q, a.managing, a.managing, a.n);
    OneHolding(t, p, q, a.src);
  }

  lemma ChangeIs(s: Ledger, c: Replay.Change)
    requires |s.spectrum| > 0 && |s.universe| > 0 && WellFormed(s.universe)
    ensures Is(s, ApplyMatchedChange(s, c), [],
               [Fixed(TransferKeysOp(c.name, c.issuer, c.source, c.source, c.shares, c.managing, c.destination))])
  {
    hide WellFormed, Is, TransferByKeyEnds, TransferByKey;
    FixedIs(s, TransferKeysOp(c.name, c.issuer, c.source, c.source, c.shares, c.managing, c.destination),
            ApplyMatchedChange(s, c));
  }

  lemma IssuanceIs(s: Ledger, e: Event)
    requires |s.spectrum| > 0 && |s.universe| > 0 && WellFormed(s.universe) && e.Issuance?
    ensures Is(s, ApplyIssuance(s, e), [],
               [Fixed(IssueOp(e.issuer, e.name, e.decimals, e.unit, e.shares, e.managing))])
  {
    hide WellFormed, Is, IssueEnds, Issue;
    FixedIs(s, IssueOp(e.issuer, e.name, e.decimals, e.unit, e.shares, e.managing), ApplyIssuance(s, e));
  }

  // ----- The loop -----

  /** The pending half of a pair. */
  function Half(s: seq<Event>): Option<Event> {
    if |s| % 2 == 1 then Some(s[|s| - 1]) else None
  }

  /** The loop variables ahead of an event outside of windows. */
  predicate Agrees(events: seq<Event>, c: Cursor) {
    && c.i <= |events| && !Open(events, c.i)
    && c.ple == Half(Changes(events, c.i)) && c.ple1 == Half(RightsChanges(events, c.i))
  }

  lemma StartAgrees(events: seq<Event>)
    ensures Agrees(events, Start())
  {
  }

  lemma AdvanceAgrees(events: seq<Event>, c: Cursor)
    requires Agrees(events, c) && CursorOk(c) && c.i < |events| && events[c.i] != Custom(StartDividends)
    ensures Agrees(events, Advance(events, c)) && Advance(events, c).i == c.i + 1
  {
    assert !Open(events, c.i + 1);
  }

  /** An event on its own does what it means; the second event of a pair that does not agree stops the program. */
  lemma EventIs(s: Ledger, events: seq<Event>, c: Cursor)
    requires Agrees(events, c) && CursorOk(c) && c.i < |events| && events[c.i] != Custom(StartDividends)
    requires |s.spectrum| > 0 && |s.universe| > 0 && WellFormed(s.universe)
    ensures Paired(events, c.i) ==> Is(s, ApplyAt(s, events, c), QuAction(events, c.i), ActionAt(events, c.i))
    ensures !Paired(events, c.i) ==> !ApplyAt(s, events, c).Done?
  {
    hide WellFormed, Is, ApplyQu, ApplyIssuance, ApplyMatchedChange, ApplyMatchedRights, Changes, RightsChanges, Open;
    var e := events[c.i];
    match e
    case Transfer(payment, tick) => QuIs(s, QU.QuTransfer(payment, tick));
    case Burning(source, amount, tick) => QuIs(s, QU.QuBurn(source, amount, tick));
    case Issuance(_, _, _, _, _, _) => IssuanceIs(s, e);
    case Custom(_) => NothingIs(s);
    case Ignored => NothingIs(s);
    case OwnershipChange(change) => if c.ple.Some? { ChangeIs(s, c.ple.value.change); } else { NothingIs(s); }
    case PossessionChange(change) => if c.ple.Some? { ChangeIs(s, c.ple.value.change); } else { NothingIs(s); }
    case OwnershipRights(_, _, _, _, _, _) =>
      if c.ple1.Some? && c.ple1.value.PossessionRights? { RightsAre(s, e, c.ple1.value); } else { NothingIs(s); }
    case PossessionRights(_, _, _, _, _, _) =>
      if c.ple1.Some? && c.ple1.value.OwnershipRights? { RightsAre(s, c.ple1.value, e); } else { NothingIs(s); }
  }

  /** Inside a window nothing is pending anew and nothing is done. */
  lemma {:induction false} InsideWindow(events: seq<Event>, i: nat, m: nat)
    requires i < |events| && events[i] == Custom(StartDividends) && !Open(events, i)
    requires i < m <= FirstCustom(events, i + 1)
    ensures Open(events, m) && Opening(events, m) == i
    ensures Changes(events, m) == Changes(events, i) && RightsChanges(events, m) == RightsChanges(events, i)
    decreases m
  {
    if m > i + 1 {
      InsideWindow(events, i, m - 1);
    }
  }

  /** Nothing is done from the opening of a window up to its end. */
  lemma {:induction false} SkipWindow(events: seq<Event>, i: nat, m: nat)
    requires i < |events| && events[i] == Custom(StartDividends) && !Open(events, i)
    requires i <= m <= FirstCustom(events, i + 1)
    ensures QuActions(events, i) == QuActions(events, m) && Actions(events, i) == Actions(events, m)
    ensures forall k :: i <= k < m ==> Closed(events, k) && Paired(events, k)
    decreases m
  {
    hide FirstCustom, QuAction, ActionAt, Closed, Paired;
    if m > i {
      SkipWindow(events, i, m - 1);
      QuietInside(events, i, m - 1);
    }
  }

  lemma {:induction false} QuietInside(events: seq<Event>, i: nat, k: nat)
    requires i < |events| && events[i] == Custom(StartDividends) && !Open(events, i)
    requires i <= k < FirstCustom(events, i + 1)
    ensures QuAction(events, k) == [] && ActionAt(events, k) == [] && Closed(events, k) && Paired(events, k)
  {
    hide Changes, RightsChanges, Opening;
    if k > i { InsideWindow(events, i, k); }
  }

  /** A window of transfers is one batch of dividends, any other window nothing. */
  lemma {:induction false} WindowMeans(events: seq<Event>, i: nat)
    requires i < |events| && events[i] == Custom(StartDividends) && !Open(events, i)
    requires FirstCustom(events, i + 1) < |events|
    ensures var j := FirstCustom(events, i + 1); var window := events[i + 1..j];
      QuAction(events, j) == if Payments(window) == [] then [] else [WindowEvent(window)]
  {
    hide FirstCustom, Open, Opening, Changes, RightsChanges;
    var j := FirstCustom(events, i + 1);
    InsideWindow(events, i, j);
  }

  lemma {:induction false} WindowIs(s: Ledger, events: seq<Event>, i: nat)
    requires i < |events| && events[i] == Custom(StartDividends) && !Open(events, i)
    requires |s.spectrum| > 0 && FirstCustom(events, i + 1) < |events|
    ensures var j := FirstCustom(events, i + 1);
      Is(s, ApplyQu(s, WindowEvent(events[i + 1..j])), QuAction(events, j), [])
  {
    hide Is, ApplyQu, Payments, WindowEvent, QuAction;
    var window := events[i + 1..FirstCustom(events, i + 1)];
    WindowMeans(events, i);
    if Payments(window) == [] {
      EmptyWindowIs(s, window);
    } else {
      QuIs(s, WindowEvent(window));
    }
  }

  lemma EmptyWindowIs(s: Ledger, window: seq<Event>)
    requires |s.spectrum| > 0 && Payments(window) == []
    ensures Is(s, ApplyQu(s, WindowEvent(window)), [], [])
  {
    hide Is, Payments;
    NothingIs(s);
    NoPayments(s, window);
  }

  lemma {:induction false} PrependQu(t: seq<ST.Slot>, p: seq<QU.QuEvent>, q: seq<QU.QuEvent>)
    requires |t| > 0 && |p| <= 1
    ensures QU.RunEnds(t, p + q) <==> QU.RunEnds(t, p) && QU.RunEnds(QU.RunQu(t, p), q)
    ensures QU.RunQu(t, p + q) == QU.RunQu(QU.RunQu(t, p), q)
  {
    hide QU.Ends, QU.StepQu;
    if p == [] {
      assert p + q == q;
    } else {
      assert p == [p[0]];
      assert (p + q)[0] == p[0] && (p + q)[1..] == q;
      OneQu(t, p[0]);
    }
  }

  lemma {:induction false} PrependActions(t: seq<Asset>, a: seq<Action>, b: seq<Action>)
    requires |t| > 0 && WellFormed(t) && |a| <= 1
    ensures Plays(t, a + b) <==> Plays(t, a) && Plays(Play(t, a), b)
    ensures Plays(t, a + b) ==> Play(t, a + b) == Play(Play(t, a), b)
  {
    hide WellFormed, Applies, OpOf, Step;
    if a == [] {
      assert a + b == b;
    } else {
      assert a == [a[0]];
      assert (a + b)[0] == a[0] && (a + b)[1..] == b;
      OneAction(t, a[0]);
    }
  }

  lemma Sequel(s: Ledger, o: Outcome, o': Outcome, q: seq<QU.QuEvent>, q': seq<QU.QuEvent>, a: seq<Action>,
               a': seq<Action>)
    requires |s.universe| > 0 && WellFormed(s.universe) && |s.spectrum| > 0 && |q| <= 1 && |a| <= 1
    requires Is(s, o, q, a) && (if o.Done? then Is(o.ledger, o', q', a') else !o'.Done?)
    ensures Is(s, o', q + q', a + a')
  {
    hide WellFormed, Plays, Play, QU.RunQu, QU.RunEnds;
    PrependQu(s.spectrum, q, q');
    PrependActions(s.universe, a, a');
  }

  lemma StaysWellFormed(s: Ledger, o: Outcome, q: seq<QU.QuEvent>, a: seq<Action>)
    requires |s.universe| > 0 && WellFormed(s.universe) && |s.spectrum| > 0 && |a| <= 1 && Is(s, o, q, a) && o.Done?
    ensures |o.ledger.universe| > 0 && WellFormed(o.ledger.universe) && |o.ledger.spectrum| > 0
  {
    hide WellFormed, Applies, Step, QU.RunQu, QU.RunEnds;
    if a != [] {
      assert a == [a[0]];
      OneAction(s.universe, a[0]);
      ApplicableStep(s.universe, a[0]);
    }
  }

  lemma ApplicableStep(t: seq<Asset>, a: Action)
    requires |t| > 0 && WellFormed(t) && Applies(t, a)
    ensures var u := Step(t, OpOf(t, a)); |u| == |t| && WellFormed(u)
  {
    hide WellFormed, Completes, Step, Known;
    StepKeepsWellFormed(t, OpOf(t, a));
  }

  /** The rest of the log is performed exactly if it is well formed and can be. */
  ghost predicate Meant(s: Ledger, o: Outcome, events: seq<Event>, i: nat) {
    && (FormedFrom(events, i) ==> Is(s, o, QuActions(events, i), Actions(events, i)))
    && (!FormedFrom(events, i) ==> !o.Done?)
  }

  lemma FormedOnward(events: seq<Event>, i: nat)
    requires i < |events|
    ensures FormedFrom(events, i) <==> Closed(events, i) && Paired(events, i) && FormedFrom(events, i + 1)
  {
    hide Closed, Paired, Open;
  }

  lemma {:induction false} FormedPast(events: seq<Event>, i: nat, m: nat)
    requires i <= m <= |events| && forall k :: i <= k < m ==> Closed(events, k) && Paired(events, k)
    ensures FormedFrom(events, i) <==> FormedFrom(events, m)
    decreases m - i
  {
    hide Closed, Paired, FormedFrom;
    if i < m {
      FormedOnward(events, i);
      FormedPast(events, i + 1, m);
    }
  }

  /** What is meant at k, then what is meant from k + 1 on. */
  lemma MeantOnward(s: Ledger, o: Outcome, rest: Outcome, events: seq<Event>, k: nat)
    requires k < |events| && |s.spectrum| > 0 && |s.universe| > 0 && WellFormed(s.universe)
    requires Closed(events, k) && Paired(events, k) && Is(s, o, QuAction(events, k), ActionAt(events, k))
    requires if o.Done? then Meant(o.ledger, rest, events, k + 1) else rest == o
    ensures Meant(s, rest, events, k)
  {
    hide WellFormed, Is, FormedFrom, QuAction, ActionAt, Paired, Closed;
    FormedOnward(events, k);
    if FormedFrom(events, k) {
      Sequel(s, o, rest, QuAction(events, k), QuActions(events, k + 1), ActionAt(events, k), Actions(events, k + 1));
    }
  }

  lemma EventMeant(s: Ledger, events: seq<Event>, c: Cursor, rest: Outcome)
    requires Agrees(events, c) && CursorOk(c) && c.i < |events| && events[c.i] != Custom(StartDividends)
    requires |s.spectrum| > 0 && |s.universe| > 0 && WellFormed(s.universe)
    requires var o := ApplyAt(s, events, c);
      if o.Done? then Meant(o.ledger, rest, events, c.i + 1) else rest == o
    ensures Meant(s, rest, events, c.i)
  {
    hide WellFormed, Is, ApplyAt, FormedFrom, QuAction, ActionAt, Paired, Meant, QuActions, Actions;
    EventIs(s, events, c);
    if Paired(events, c.i) {
      MeantOnward(s, ApplyAt(s, events, c), rest, events, c.i);
    } else {
      FormedOnward(events, c.i);
      NotMeant(s, rest, events, c.i);
    }
  }

  /** A window that the loop consumes as a whole. */
  lemma WindowMeant(s: Ledger, events: seq<Event>, i: nat, rest: Outcome)
    requires i < |events| && events[i] == Custom(StartDividends) && !Open(events, i)
    requires |s.spectrum| > 0 && |s.universe| > 0 && WellFormed(s.universe) && FirstCustom(events, i + 1) < |events|
    requires var j := FirstCustom(events, i + 1); var o := ApplyQu(s, WindowEvent(events[i + 1..j]));
      && events[j].message == EndDividends
      && if o.Done? then Meant(o.ledger, rest, events, j + 1) else rest == o
    ensures Meant(s, rest, events, i)
  {
    hide WellFormed, Is, ApplyQu, FormedFrom, QuAction, ActionAt, Changes, RightsChanges, WindowEvent, Opening, Open,
        Closed, Paired, FirstCustom, Meant, QuActions, Actions;
    var j := FirstCustom(events, i + 1);
    InsideWindow(events, i, j);
    WindowIs(s, events, i);
    AfterWindow(events, j);
    MeantOnward(s, ApplyQu(s, WindowEvent(events[i + 1..j])), rest, events, j);
    SkipWindow(events, i, j);
    FormedPast(events, i, j);
    MeantBefore(s, rest, events, i, j);
  }

  lemma {:induction false} MeantBefore(s: Ledger, o: Outcome, events: seq<Event>, i: nat, j: nat)
    requires i <= j && (FormedFrom(events, i) <==> FormedFrom(events, j)) && Meant(s, o, events, j)
    requires QuActions(events, i) == QuActions(events, j) && Actions(events, i) == Actions(events, j)
    ensures Meant(s, o, events, i)
  {
    hide Is, FormedFrom, QuActions, Actions;
  }

  lemma {:induction false} WindowAgrees(events: seq<Event>, c: Cursor)
    requires Agrees(events, c) && CursorOk(c) && c.i < |events| && events[c.i] == Custom(StartDividends)
    requires FirstCustom(events, c.i + 1) < |events|
    ensures Agrees(events, Advance(events, c)) && Advance(events, c).i == FirstCustom(events, c.i + 1) + 1
  {
    hide Opening, Open, Changes, RightsChanges;
    var j := FirstCustom(events, c.i + 1);
    InsideWindow(events, c.i, j);
    AfterWindow(events, j);
  }

  lemma AfterWindow(events: seq<Event>, j: nat)
    requires j < |events| && Open(events, j) && events[j].Custom?
    ensures !Open(events, j + 1) && ActionAt(events, j) == [] && Paired(events, j)
    ensures Closed(events, j) <==> events[j].message == EndDividends
    ensures Changes(events, j + 1) == Changes(events, j) && RightsChanges(events, j + 1) == RightsChanges(events, j)
  {
  }

  /** A window that stays open, or that another message ends, is no window of a well-formed log. */
  lemma BrokenWindow(events: seq<Event>, i: nat)
    requires i < |events| && events[i] == Custom(StartDividends) && !Open(events, i)
    requires var j := FirstCustom(events, i + 1); j == |events| || events[j].message != EndDividends
    ensures !FormedFrom(events, i)
  {
    var j := FirstCustom(events, i + 1);
    InsideWindow(events, i, j);
    if j < |events| { assert !Closed(events, j); }
  }

  lemma {:induction false} OneTurn(s: Ledger, events: seq<Event>, c: Cursor)
    requires CursorOk(c) && c.i < |events|
    ensures var o := ApplyAt(s, events, c);
      ReplayFrom(s, events, c) == if o.Done? then ReplayFrom(o.ledger, events, Advance(events, c)) else o
  {
    hide ApplyAt, Advance;
  }

  lemma {:induction false} WindowTurn(s: Ledger, events: seq<Event>, c: Cursor)
    requires CursorOk(c) && c.i < |events| && events[c.i] == Custom(StartDividends)
    ensures var j := FirstCustom(events, c.i + 1); var o := ApplyAt(s, events, c);
      if j < |events| && events[j].message == EndDividends then o == ApplyQu(s, WindowEvent(events[c.i + 1..j]))
      else !o.Done?
  {
    hide ApplyQu, WindowEvent, FirstCustom;
  }

  lemma {:induction false} LoopMeans(s: Ledger, events: seq<Event>, c: Cursor)
    requires Agrees(events, c) && CursorOk(c)
    requires |s.spectrum| > 0 && |s.universe| > 0 && WellFormed(s.universe)
    ensures Meant(s, ReplayFrom(s, events, c), events, c.i)
    decreases |events| - c.i
  {
    hide WellFormed, Is, Open, Meant, FormedFrom, Advance, Agrees, ApplyAt, ApplyQu, WindowEvent, FirstCustom,
        ReplayFrom, CursorOk;
    AgreesWithin(events, c);
    if c.i == |events| {
      EndMeant(s, events, c);
    } else {
      OneTurn(s, events, c);
      var o := ApplyAt(s, events, c);
      if events[c.i] != Custom(StartDividends) {
        AdvanceAgrees(events, c);
        if o.Done? {
          EventKeeps(s, events, c);
          LoopMeans(o.ledger, events, Advance(events, c));
        }
        EventMeant(s, events, c, ReplayFrom(s, events, c));
      } else {
        WindowTurn(s, events, c);
        var j := FirstCustom(events, c.i + 1);
        if j == |events| || events[j].message != EndDividends {
          BrokenWindow(events, c.i);
          NotMeant(s, ReplayFrom(s, events, c), events, c.i);
        } else {
          WindowAgrees(events, c);
          if o.Done? {
            WindowKeeps(s, events, c.i);
            LoopMeans(o.ledger, events, Advance(events, c));
          }
          WindowMeant(s, events, c.i, ReplayFrom(s, events, c));
        }
      }
    }
  }

  lemma {:induction false} AgreesWithin(events: seq<Event>, c: Cursor)
    requires Agrees(events, c)
    ensures c.i <= |events| && !Open(events, c.i)
  {
  }

  lemma {:induction false} EndMeant(s: Ledger, events: seq<Event>, c: Cursor)
    requires c.i == |events| && CursorOk(c) && !Open(events, c.i) && |s.spectrum| > 0
    ensures Meant(s, ReplayFrom(s, events, c), events, c.i)
  {
    NothingIs(s);
  }

  lemma NotMeant(s: Ledger, o: Outcome, events: seq<Event>, i: nat)
    requires !FormedFrom(events, i) && !o.Done?
    ensures Meant(s, o, events, i)
  {
  }

  lemma EventKeeps(s: Ledger, events: seq<Event>, c: Cursor)
    requires Agrees(events, c) && CursorOk(c) && c.i < |events| && events[c.i] != Custom(StartDividends)
    requires |s.spectrum| > 0 && |s.universe| > 0 && WellFormed(s.universe) && ApplyAt(s, events, c).Done?
    ensures var u := ApplyAt(s, events, c).ledger; |u.spectrum| > 0 && |u.universe| > 0 && WellFormed(u.universe)
  {
    hide WellFormed, Is, ApplyAt, QuAction, ActionAt, Paired, Agrees;
    EventIs(s, events, c);
    StaysWellFormed(s, ApplyAt(s, events, c), QuAction(events, c.i), ActionAt(events, c.i));
  }

  lemma {:induction false} WindowKeeps(s: Ledger, events: seq<Event>, i: nat)
    requires i < |events| && events[i] == Custom(StartDividends) && !Open(events, i)
    requires |s.spectrum| > 0 && |s.universe| > 0 && WellFormed(s.universe) && FirstCustom(events, i + 1) < |events|
    requires ApplyQu(s, WindowEvent(events[i + 1..FirstCustom(events, i + 1)])).Done?
    ensures var u := ApplyQu(s, WindowEvent(events[i + 1..FirstCustom(events, i + 1)])).ledger;
      |u.spectrum| > 0 && |u.universe| > 0 && WellFormed(u.universe)
  {
    hide WellFormed, Is, ApplyQu, WindowEvent, QuAction;
    var j := FirstCustom(events, i + 1);
    WindowIs(s, events, i);
    StaysWellFormed(s, ApplyQu(s, WindowEvent(events[i + 1..j])), QuAction(events, j), []);
  }

  // ----- Whole logs -----

  /**
   A replay completes exactly if the log is well formed, its QU events end on the spectrum and
   its asset operations can be performed on the universe, and then it has performed them.
   */
  lemma {:induction false} ReplayMeans(s: Ledger, events: seq<Event>)
    requires |s.spectrum| > 0 && |s.universe| > 0 && WellFormed(s.universe)
    ensures var o := ReplayFrom(s, events, Start()); var q := QuActions(events, 0); var a := Actions(events, 0);
      && (o.Done? <==> FormedFrom(events, 0) && Performs(s, q, a))
      && (o.Done? ==> o.ledger == Ledger(QU.RunQu(s.spectrum, q), Play(s.universe, a)))
  {
    hide WellFormed, ReplayFrom, Performs, FormedFrom, Start, CursorOk, Agrees;
    StartAgrees(events);
    LoopMeans(s, events, Start());
  }

  /** No asset operation issues a negative number of shares. */
  predicate Harmless(actions: seq<Action>) {
    forall k :: 0 <= k < |actions| ==>
      match actions[k]
      case Fixed(op) => (op.IssueOp? ==> op.shares >= 0) && !op.RightsOp?
      case Reassign(_, _, _) => true
  }

  /** The asset operations of a log, on a sound table, are a run: nothing that is proved of runs is lost. */
  lemma {:induction false} PlayIsRun(t: seq<Asset>, actions: seq<Action>)
    requires Sound(t) && Harmless(actions) && Plays(t, actions)
    ensures var ops := Operations(t, actions);
      Replayed(ops) && HasRoom(t, ops) && Runs(t, ops) && Play(t, actions) == Run(t, ops)
    decreases |actions|
  {
    hide Sound, Completes, Step, Known, IsHolding, SharesOf, OwnedOf;
    if actions != [] {
      var op := OpOf(t, actions[0]);
      StepKeeps(t, op);
      var rest := Operations(Step(t, op), actions[1..]);
      assert Harmless(actions[1..]);
      PlayIsRun(Step(t, op), actions[1..]);
      var ops := Operations(t, actions);
      assert ops[0] == op && ops[1..] == rest;
    }
  }

  lemma {:induction false} IssuableIsHarmless(events: seq<Event>, i: nat)
    requires Issuable(events)
    ensures Harmless(Actions(events, i))
    decreases |events| - i
  {
    if i < |events| {
      IssuableIsHarmless(events, i + 1);
    }
  }

  /** The QU events that the loop performs are those that the log means. */
  lemma {:induction false} LoopPerforms(events: seq<Event>, i: nat)
    requires i <= |events| && !Open(events, i) && FormedFrom(events, i)
    ensures QuEvents(events, i) == QuActions(events, i)
    decreases |events| - i
  {
    hide WindowEvent, Payments, QuAction, Paired, Closed, Open, FormedFrom, QuAt, FirstCustom, Opening, Changes,
        RightsChanges, QuEvents, QuActions, Actions, NextIndex;
    OneMore(events, i);
    if i < |events| && events[i] == Custom(StartDividends) {
      var j := FirstCustom(events, i + 1);
      if j == |events| || events[j].message != EndDividends { BrokenWindow(events, i); }
      SkipWindow(events, i, j);
      FormedPast(events, i, j);
      FormedOnward(events, j);
      WindowMeans(events, i);
      InsideWindow(events, i, j);
      AfterWindow(events, j);
      WindowAt(events, i);
      OneMore(events, j);
      LoopPerforms(events, j + 1);
    } else if i < |events| {
      FormedOnward(events, i);
      SingleEvent(events, i);
      LoopPerforms(events, i + 1);
    }
  }

  lemma {:induction false} OneMore(events: seq<Event>, i: nat)
    ensures i < |events| ==> QuEvents(events, i) == QuAt(events, i) + QuEvents(events, NextIndex(events, i))
    ensures i < |events| ==> QuActions(events, i) == QuAction(events, i) + QuActions(events, i + 1)
    ensures i >= |events| ==> QuEvents(events, i) == [] && QuActions(events, i) == []
  {
    hide QuAt, QuAction, NextIndex;
  }

  lemma {:induction false} WindowAt(events: seq<Event>, i: nat)
    requires i < |events| && events[i] == Custom(StartDividends)
    ensures var j := FirstCustom(events, i + 1); var window := events[i + 1..j];
      NextIndex(events, i) == j + 1 && QuAt(events, i) == if Payments(window) == [] then [] else [WindowEvent(window)]
  {
    hide Payments, WindowEvent, FirstCustom;
  }

  lemma SingleEvent(events: seq<Event>, i: nat)
    requires i < |events| && !Open(events, i) && events[i] != Custom(StartDividends)
    ensures QuAt(events, i) == QuAction(events, i) && !Open(events, i + 1) && NextIndex(events, i) == i + 1
  {
  }

  /**
   What a completed replay does to the books: every entity record has the credits and debits of
   the log's QU events added up, every holding and every ownership record what the log's asset
   operations bring it, and every asset total what they issue and do not burn.
   */
  lemma {:induction false} ReplayBooks(s: Ledger, events: seq<Event>, k: nat, h: Holding, w: Owning, issuer: nat,
                                       name: nat)
    requires Healthy(s) && Issuable(events) && |s.spectrum| > 0 && |s.universe| > 0
    requires ReplayFrom(s, events, Start()).Done?
    ensures var s' := ReplayFrom(s, events, Start()).ledger; var q := QuActions(events, 0);
      AC.Moved(s.spectrum, s'.spectrum, AC.PostingsOfRun(s.spectrum, q, k), k)
    ensures Plays(s.universe, Actions(events, 0))
    ensures var s' := ReplayFrom(s, events, Start()).ledger;
      var u, u' := s.universe, s'.universe;
      var ops := Operations(u, Actions(events, 0));
      && Runs(u, ops)
      && SharesOf(u', h) == SharesOf(u, h) + HR.SharesFlow(u, ops, h)
      && OwnedOf(u', w) == OwnedOf(u, w) + HR.OwnedFlow(u, ops, w)
      && Total(u', issuer, name) == Total(u, issuer, name) + NetIssued(u, ops, issuer, name)
  {
    hide Sound, ST.WellFormed, SharesOf, OwnedOf, ReplayFrom, QuActions, Actions, Run, Plays, QU.RunEnds, QU.RunQu,
        Operations, Play, AC.Moved, AC.PostingsOfRun, FormedFrom, HasRoom, Replayed, Harmless, Total, SameManager,
        HR.SharesFlow, HR.OwnedFlow, NetIssued, Runs;
    HR.SoundMeans(s.universe);
    ReplayMeans(s, events);
    AC.RunMoves(s.spectrum, QuActions(events, 0), k);
    IssuableIsHarmless(events, 0);
    PlayIsRun(s.universe, Actions(events, 0));
    var ops := Operations(s.universe, Actions(events, 0));
    HR.RunFlows(s.universe, ops, h, w);
    RunConserves(s.universe, ops, issuer, name);
  }
}
