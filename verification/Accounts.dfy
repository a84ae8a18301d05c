/**
 The record of every key over runs of QU events: its amounts, transfer counters and ticks are
 the initial ones and the credits and debits that the events make on this key.
 */
module Accounts {
  import opened SpectrumTable
  import opened Spectrum
  import opened QuReplay

  /** One entry in the account of a key. */
  datatype Posting = Credit(amount: int, tick: nat) | Debit(amount: int, tick: nat)

  function CreditSum(ps: seq<Posting>): int {
    if ps == [] then 0 else CreditSum(ps[..|ps| - 1]) + if ps[|ps| - 1].Credit? then ps[|ps| - 1].amount else 0
  }

  function DebitSum(ps: seq<Posting>): int {
    if ps == [] then 0 else DebitSum(ps[..|ps| - 1]) + if ps[|ps| - 1].Debit? then ps[|ps| - 1].amount else 0
  }

  function CreditCount(ps: seq<Posting>): nat {
    if ps == [] then 0 else CreditCount(ps[..|ps| - 1]) + if ps[|ps| - 1].Credit? then 1 else 0
  }

  function DebitCount(ps: seq<Posting>): nat {
    if ps == [] then 0 else DebitCount(ps[..|ps| - 1]) + if ps[|ps| - 1].Debit? then 1 else 0
  }

  /** The tick of the last credit, or an earlier one if there is none. */
  function LastCredit(ps: seq<Posting>, before: nat): nat {
    if ps == [] then before
    else if ps[|ps| - 1].Credit? then ps[|ps| - 1].tick
    else LastCredit(ps[..|ps| - 1], before)
  }

  function LastDebit(ps: seq<Posting>, before: nat): nat {
    if ps == [] then before
    else if ps[|ps| - 1].Debit? then ps[|ps| - 1].tick
    else LastDebit(ps[..|ps| - 1], before)
  }

  // ----- What an event posts to a key -----

  /** The key has at least this balance. */
  ghost predicate HasFunds(t: seq<Slot>, k: nat, amount: int) {
    k in View(t) && View(t)[k].Entity? && amount >= 0 && View(t)[k].incoming - View(t)[k].outgoing >= amount
  }

  ghost function DebitOf(t: seq<Slot>, source: nat, amount: int, tick: nat, k: nat): seq<Posting> {
    if k == source && HasFunds(t, k, amount) then [Debit(amount, tick)] else []
  }

  function CreditOf(p: Payment, tick: nat, k: nat): seq<Posting> {
    if k == p.destination && k != 0 && p.amount >= 0 then [Credit(p.amount, tick)] else []
  }

  function CreditsOf(items: seq<Payment>, tick: nat, k: nat): seq<Posting> {
    if items == [] then [] else CreditOf(items[0], tick, k) + CreditsOf(items[1..], tick, k)
  }

  /** The debit comes first, and the credits come whether or not it was covered. */
  ghost function PostingsOf(t: seq<Slot>, e: QuEvent, k: nat): seq<Posting> {
    match e
    case QuTransfer(p, tick) => DebitOf(t, p.source, p.amount, tick, k) + CreditOf(p, tick, k)
    case QuBurn(source, amount, tick) => DebitOf(t, source, amount, tick, k)
    case Dividends(items, tick) =>
      if Distributed(t, items) then DebitOf(t, items[0].source, Sum(items), tick, k) + CreditsOf(items, tick, k) else []
  }

  ghost function PostingsOfRun(t: seq<Slot>, events: seq<QuEvent>, k: nat): seq<Posting>
    requires |t| > 0
    decreases |events|
  {
    if events == [] then [] else PostingsOf(t, events[0], k) + PostingsOfRun(StepQu(t, events[0]), events[1..], k)
  }

  // ----- What the record of a key becomes -----

  /** The record b is the record a with these postings made. */
  ghost predicate Posted(a: Slot, ps: seq<Posting>, b: Slot) {
    && a.Entity? && b.Entity? && b.key == a.key
    && b.incoming == a.incoming + CreditSum(ps) && b.outgoing == a.outgoing + DebitSum(ps)
    && b.numIncoming == (a.numIncoming + CreditCount(ps)) % 0x1_0000_0000
    && b.numOutgoing == (a.numOutgoing + DebitCount(ps)) % 0x1_0000_0000
    && b.latestIncoming == LastCredit(ps, a.latestIncoming) && b.latestOutgoing == LastDebit(ps, a.latestOutgoing)
  }

  /** The key has a record afterwards if it had one or was credited, and the record is the posted one. */
  ghost predicate Moved(t: seq<Slot>, u: seq<Slot>, ps: seq<Posting>, k: nat) {
    && WellFormed(t) && WellFormed(u)
    && (k in View(u) <==> k in View(t) || CreditCount(ps) > 0)
    && Posted(AccountOf(t, k), ps, AccountOf(u, k))
  }

  lemma {:induction false} Joined(ps: seq<Posting>, qs: seq<Posting>, before: nat)
    ensures CreditSum(ps + qs) == CreditSum(ps) + CreditSum(qs) && DebitSum(ps + qs) == DebitSum(ps) + DebitSum(qs)
    ensures CreditCount(ps + qs) == CreditCount(ps) + CreditCount(qs)
    ensures DebitCount(ps + qs) == DebitCount(ps) + DebitCount(qs)
    ensures LastCredit(ps + qs, before) == LastCredit(qs, LastCredit(ps, before))
    ensures LastDebit(ps + qs, before) == LastDebit(qs, LastDebit(ps, before))
    decreases |qs|
  {
    if qs == [] {
      assert ps + qs == ps;
    } else {
      assert (ps + qs)[..|ps + qs| - 1] == ps + qs[..|qs| - 1];
      Joined(ps, qs[..|qs| - 1], before);
    }
  }

  lemma AddTwice(a: nat, m: nat, n: nat)
    ensures ((a + m) % 0x1_0000_0000 + n) % 0x1_0000_0000 == (a + (m + n)) % 0x1_0000_0000
  {
  }

  lemma PostedTwice(a: Slot, ps: seq<Posting>, b: Slot, qs: seq<Posting>, c: Slot)
    requires Posted(a, ps, b) && Posted(b, qs, c)
    ensures Posted(a, ps + qs, c)
  {
    hide CreditSum, DebitSum, CreditCount, DebitCount, LastCredit, LastDebit;
    Joined(ps, qs, a.latestIncoming);
    Joined(ps, qs, a.latestOutgoing);
    AddTwice(a.numIncoming, CreditCount(ps), CreditCount(qs));
    AddTwice(a.numOutgoing, DebitCount(ps), DebitCount(qs));
  }

  lemma MovedTwice(t: seq<Slot>, ps: seq<Posting>, u: seq<Slot>, qs: seq<Posting>, v: seq<Slot>, k: nat)
    requires Moved(t, u, ps, k) && Moved(u, v, qs, k)
    ensures Moved(t, v, ps + qs, k)
  {
    hide Posted, CreditCount, View, WellFormed, AccountOf;
    Joined(ps, qs, 0);
    PostedTwice(AccountOf(t, k), ps, AccountOf(u, k), qs, AccountOf(v, k));
  }

  lemma {:induction false} OnePosting(p: Posting, before: nat)
    ensures CreditSum([p]) == (if p.Credit? then p.amount else 0) && DebitSum([p]) == (if p.Debit? then p.amount else 0)
    ensures CreditCount([p]) == (if p.Credit? then 1 else 0) && DebitCount([p]) == (if p.Debit? then 1 else 0)
    ensures LastCredit([p], before) == (if p.Credit? then p.tick else before)
    ensures LastDebit([p], before) == (if p.Debit? then p.tick else before)
  {
    assert [p][..0] == [];
  }

  // ----- Single operations -----

  lemma NothingMoved(t: seq<Slot>, k: nat)
    requires WellFormed(t)
    ensures Moved(t, t, [], k)
  {
    hide WellFormed, View;
  }

  lemma CreditMoves(t: seq<Slot>, p: Payment, tick: nat, k: nat)
    requires |t| > 0 && WellFormed(t) && CanCredit(t, p.destination, p.amount)
    ensures Moved(t, Increase(t, p.destination, p.amount, tick), CreditOf(p, tick, k), k)
  {
    hide WellFormed, View, Increase, AccountOf, CreditSum, DebitSum, CreditCount, DebitCount, LastCredit, LastDebit;
    IncreaseRecord(t, p.destination, p.amount, tick, k);
    OnePosting(Credit(p.amount, tick), AccountOf(t, k).latestIncoming);
    OnePosting(Credit(p.amount, tick), AccountOf(t, k).latestOutgoing);
    NoPostings(AccountOf(t, k).latestIncoming);
    NoPostings(AccountOf(t, k).latestOutgoing);
  }

  lemma {:induction false} NoPostings(before: nat)
    ensures CreditSum([]) == 0 && DebitSum([]) == 0 && CreditCount([]) == 0 && DebitCount([]) == 0
    ensures LastCredit([], before) == before && LastDebit([], before) == before
  {
  }

  lemma PayMoves(t: seq<Slot>, source: nat, amount: int, tick: nat, k: nat)
    requires |t| > 0 && WellFormed(t) && PayEnds(t, source)
    ensures Moved(t, Pay(t, source, amount, tick), DebitOf(t, source, amount, tick, k), k)
  {
    hide Moved, DebitOf, WellFormed, View, Decrease, Pay, PayEnds, Locate;
    PayIs(t, source, amount, tick);
    if source in View(t) {
      FoundPayMoves(t, Locate(t, source), source, amount, tick, k);
    } else {
      NoDebit(t, source, amount, tick, k);
      NothingMoved(t, k);
    }
  }

  lemma PayIs(t: seq<Slot>, source: nat, amount: int, tick: nat)
    requires |t| > 0 && WellFormed(t) && PayEnds(t, source)
    ensures source in View(t) ==> var p := Locate(t, source);
      t[p].Entity? && t[p].key == source && View(t)[source] == t[p]
        && Pay(t, source, amount, tick) == Decrease(t, p, amount, tick)
    ensures source !in View(t) ==> Pay(t, source, amount, tick) == t
  {
    NotZeroKey(t);
    hide WellFormed, View, Decrease, Locate;
    if source != 0 { LocateDecides(t, source); }
  }

  lemma NoDebit(t: seq<Slot>, source: nat, amount: int, tick: nat, k: nat)
    requires source !in View(t)
    ensures DebitOf(t, source, amount, tick, k) == []
  {
  }

  lemma FoundPayMoves(t: seq<Slot>, p: nat, source: nat, amount: int, tick: nat, k: nat)
    requires WellFormed(t) && p < |t| && t[p].Entity? && t[p].key == source
    requires source in View(t) && View(t)[source] == t[p]
    ensures Moved(t, Decrease(t, p, amount, tick), DebitOf(t, source, amount, tick, k), k)
  {
    hide WellFormed, View, Decrease, AccountOf, CreditSum, DebitSum, CreditCount, DebitCount, LastCredit, LastDebit;
    DecreaseRecord(t, p, amount, tick, k);
    OnePosting(Debit(amount, tick), AccountOf(t, k).latestIncoming);
    OnePosting(Debit(amount, tick), AccountOf(t, k).latestOutgoing);
    NoPostings(AccountOf(t, k).latestIncoming);
    NoPostings(AccountOf(t, k).latestOutgoing);
  }

  lemma {:induction false} CreditAllMoves(t: seq<Slot>, items: seq<Payment>, tick: nat, k: nat)
    requires |t| > 0 && WellFormed(t) && CreditAllEnds(t, items, tick)
    ensures Moved(t, CreditAll(t, items, tick), CreditsOf(items, tick, k), k)
    decreases |items|
  {
    hide Moved, Increase, CreditOf, CanCredit, WellFormed;
    if items == [] {
      NothingMoved(t, k);
    } else {
      var u := Increase(t, items[0].destination, items[0].amount, tick);
      CreditMoves(t, items[0], tick, k);
      MovedWellFormed(t, u, CreditOf(items[0], tick, k), k);
      CreditAllMoves(u, items[1..], tick, k);
      MovedTwice(t, CreditOf(items[0], tick, k), u, CreditsOf(items[1..], tick, k), CreditAll(u, items[1..], tick), k);
    }
  }

  lemma MovedWellFormed(t: seq<Slot>, u: seq<Slot>, ps: seq<Posting>, k: nat)
    requires Moved(t, u, ps, k)
    ensures WellFormed(t) && WellFormed(u)
  {
  }

  /** An event makes its postings on every key. */
  lemma StepMoves(t: seq<Slot>, e: QuEvent, k: nat)
    requires |t| > 0 && WellFormed(t) && Ends(t, e)
    ensures Moved(t, StepQu(t, e), PostingsOf(t, e, k), k)
  {
    hide Moved, Increase, CreditOf, DebitOf, WellFormed, CanCredit, PayEnds, Pay, CreditAll, Distribute;
    match e
    case QuTransfer(p, tick) =>
      var u := Pay(t, p.source, p.amount, tick);
      PayMoves(t, p.source, p.amount, tick, k);
      MovedWellFormed(t, u, DebitOf(t, p.source, p.amount, tick, k), k);
      CreditMoves(u, p, tick, k);
      MovedTwice(t, DebitOf(t, p.source, p.amount, tick, k), u, CreditOf(p, tick, k), StepQu(t, e), k);
    case QuBurn(source, amount, tick) =>
      PayMoves(t, source, amount, tick, k);
    case Dividends(items, tick) =>
      if Distributed(t, items) {
        DistributeMoves(t, items, tick, k);
      } else {
        RefusedBatchChangesNothing(t, items, tick);
        NothingMoved(t, k);
      }
  }

  lemma {:induction false} DistributeMoves(t: seq<Slot>, items: seq<Payment>, tick: nat, k: nat)
    requires |t| > 0 && WellFormed(t) && Ends(t, Dividends(items, tick)) && Distributed(t, items)
    ensures Moved(t, Distribute(t, items, tick),
                  DebitOf(t, items[0].source, Sum(items), tick, k) + CreditsOf(items, tick, k), k)
  {
    hide Moved, WellFormed, Pay, CreditAll, CreditAllEnds, DebitOf, CreditsOf, Sum;
    var source := items[0].source;
    KnownSourceEnds(t, source);
    CreditsEnd(t, items, tick);
    var u := Pay(t, source, Sum(items), tick);
    PayMoves(t, source, Sum(items), tick, k);
    MovedWellFormed(t, u, DebitOf(t, source, Sum(items), tick, k), k);
    CreditAllMoves(u, items, tick, k);
    MovedTwice(t, DebitOf(t, source, Sum(items), tick, k), u, CreditsOf(items, tick, k), CreditAll(u, items, tick), k);
    DistributesAll(t, items, tick);
  }

  lemma {:induction false} DistributesAll(t: seq<Slot>, items: seq<Payment>, tick: nat)
    requires |t| > 0 && WellFormed(t) && Ends(t, Dividends(items, tick)) && Distributed(t, items)
    ensures Distribute(t, items, tick) == CreditAll(Pay(t, items[0].source, Sum(items), tick), items, tick)
  {
    hide Pay, CreditAll, CreditAllEnds, Sum, View;
    NotZeroKey(t);
    LocateDecides(t, items[0].source);
  }

  // ----- Runs -----

  /**
   Over every run of QU events, the record of every key is the initial one with the run's
   credits and debits to it added up, counted modulo 2^32, and its ticks are the last ones.
   */
  lemma {:induction false} RunMoves(t: seq<Slot>, events: seq<QuEvent>, k: nat)
    requires |t| > 0 && WellFormed(t) && RunEnds(t, events)
    ensures Moved(t, RunQu(t, events), PostingsOfRun(t, events, k), k)
    decreases |events|
  {
    hide Moved, StepQu, PostingsOf, WellFormed, Ends;
    if events == [] {
      NothingMoved(t, k);
    } else {
      var u := StepQu(t, events[0]);
      StepMoves(t, events[0], k);
      MovedWellFormed(t, u, PostingsOf(t, events[0], k), k);
      RunMoves(u, events[1..], k);
      MovedTwice(t, PostingsOf(t, events[0], k), u, PostingsOfRun(u, events[1..], k), RunQu(u, events[1..]), k);
    }
  }
}
