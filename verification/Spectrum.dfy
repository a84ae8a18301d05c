/**
 Entity.h: crediting, debiting and reorganising the spectrum, and the balances and total
 supply that these operations produce.
 */
module Spectrum {
  import opened Probing
  import opened SpectrumTable

  // ----- increaseEnergy and decreaseEnergy -----

  /** ++ on a 32-bit counter. */
  function Succ32(n: Count): Count {
    if n == 0xffff_ffff then 0 else n + 1
  }

  /** The record of `key` after a credit; transfer counters are 32 bits wide. */
  function Credited(r: Slot, key: nat, amount: int, tick: nat): (c: Slot)
    ensures c.Entity? && Energy(c) == Energy(r) + amount
  {
    match r
    case Vacant => Entity(key, amount, 0, 1, 0, tick, 0)
    case Entity(_, _, _, _, _, _, _) =>
      r.(incoming := r.incoming + amount, numIncoming := Succ32(r.numIncoming), latestIncoming := tick)
  }

  function Debited(r: Slot, amount: int, tick: nat): (d: Slot)
    requires r.Entity?
    ensures d.Entity? && Energy(d) == Energy(r) - amount
  {
    r.(outgoing := r.outgoing + amount, numOutgoing := Succ32(r.numOutgoing), latestOutgoing := tick)
  }

  /** increaseEnergy: nothing happens for the zero key or a negative amount. */
  ghost function Increase(t: seq<Slot>, key: nat, amount: int, tick: nat): (u: seq<Slot>)
    requires |t| > 0
    ensures |u| == |t|
  {
    if key == 0 || amount < 0 then t
    else t[Locate(t, key) := Credited(t[Locate(t, key)], key, amount, tick)]
  }

  /** The credit ends; the zero key and negative amounts are not looked up. */
  ghost predicate CanCredit(t: seq<Slot>, key: nat, amount: int) {
    key == 0 || amount < 0 || CanProbe(t, key)
  }

  predicate CanPay(r: Slot, amount: int) {
    r.Entity? && amount >= 0 && Energy(r) >= amount
  }

  /** decreaseEnergy: the balance is lowered only if it is high enough. */
  function Decrease(t: seq<Slot>, p: nat, amount: int, tick: nat): (u: seq<Slot>)
    requires p < |t|
    ensures |u| == |t|
  {
    if CanPay(t[p], amount) then t[p := Debited(t[p], amount, tick)] else t
  }

  /** The balance of a key; a key without a record has none. */
  ghost function Balance(t: seq<Slot>, key: nat): int {
    if key in View(t) then Energy(View(t)[key]) else 0
  }

  ghost predicate NonNegative(t: seq<Slot>) {
    forall p :: 0 <= p < |t| ==> Energy(t[p]) >= 0
  }

  /** All QU in the table. */
  ghost function Supply(t: seq<Slot>): int {
    if t == [] then 0 else Supply(t[..|t| - 1]) + Energy(t[|t| - 1])
  }

  lemma {:induction false} SupplyUpdate(t: seq<Slot>, p: nat, r: Slot)
    requires p < |t|
    ensures Supply(t[p := r]) == Supply(t) - Energy(t[p]) + Energy(r)
  {
    var n := |t| - 1;
    if p == n {
      assert t[p := r][..n] == t[..n];
    } else {
      assert t[p := r][..n] == t[..n][p := r];
      SupplyUpdate(t[..n], p, r);
    }
  }

  /** A credit updates the map at one key. */
  lemma IncreaseView(t: seq<Slot>, key: nat, amount: int, tick: nat)
    requires WellFormed(t) && CanProbe(t, key) && key != 0 && amount >= 0
    ensures var u := Increase(t, key, amount, tick);
      && WellFormed(u) && Free(u) == Free(t) - (if key in View(t) then 0 else 1)
      && View(u) == View(t)[key := Credited(if key in View(t) then View(t)[key] else Vacant, key, amount, tick)]
  {
    assert |t| > 0;
    LocateDecides(t, key);
    var p := Locate(t, key);
    var r := Credited(t[p], key, amount, tick);
    hide WellFormed, View, Free, Reaches, Locate;
    if t[p].Entity? {
      ReplaceUpdatesView(t, p, r);
    } else {
      PutUpdatesView(t, p, r);
    }
  }

  /** The record of a key, field by field; a key without a record has an empty one. */
  ghost function AccountOf(t: seq<Slot>, key: nat): (r: Slot)
    requires WellFormed(t)
    ensures r.Entity? && r.key == key
  {
    if key in View(t) then ViewHas(t, key); View(t)[key] else Entity(key, 0, 0, 0, 0, 0, 0)
  }

  /** A credit adds to the incoming side of one record, counts one transfer and sets its tick; all else stays. */
  lemma IncreaseRecord(t: seq<Slot>, key: nat, amount: int, tick: nat, k: nat)
    requires WellFormed(t) && CanCredit(t, key, amount) && |t| > 0
    ensures var u := Increase(t, key, amount, tick); var done := k == key && key != 0 && amount >= 0;
      && WellFormed(u)
      && (k in View(u) <==> k in View(t) || done)
      && var a, b := AccountOf(t, k), AccountOf(u, k);
         && b.incoming == a.incoming + (if done then amount else 0)
         && b.numIncoming == (a.numIncoming + (if done then 1 else 0)) % 0x1_0000_0000
         && b.latestIncoming == (if done then tick else a.latestIncoming)
         && b.outgoing == a.outgoing && b.numOutgoing == a.numOutgoing && b.latestOutgoing == a.latestOutgoing
  {
    hide WellFormed, View, Increase, CanProbe, Credited;
    if key != 0 && amount >= 0 {
      IncreaseView(t, key, amount, tick);
      CreditedFields(if key in View(t) then View(t)[key] else Vacant, key, amount, tick);
    } else {
      NothingCredited(t, key, amount, tick);
    }
  }

  lemma CreditedFields(r: Slot, key: nat, amount: int, tick: nat)
    ensures Credited(r, key, amount, tick) == if r.Vacant? then Entity(key, amount, 0, 1, 0, tick, 0)
      else Entity(r.key, r.incoming + amount, r.outgoing, (r.numIncoming + 1) % 0x1_0000_0000, r.numOutgoing, tick,
                  r.latestOutgoing)
  {
  }

  lemma NothingCredited(t: seq<Slot>, key: nat, amount: int, tick: nat)
    requires |t| > 0 && (key == 0 || amount < 0)
    ensures Increase(t, key, amount, tick) == t
  {
  }

  lemma DebitedFields(r: Slot, amount: int, tick: nat)
    requires r.Entity?
    ensures Debited(r, amount, tick)
         == Entity(r.key, r.incoming, r.outgoing + amount, r.numIncoming, (r.numOutgoing + 1) % 0x1_0000_0000,
                   r.latestIncoming, tick)
  {
  }

  /** A debit adds to the outgoing side of one record if its balance is high enough; all else stays. */
  lemma DecreaseRecord(t: seq<Slot>, p: nat, amount: int, tick: nat, k: nat)
    requires WellFormed(t) && p < |t| && t[p].Entity?
    ensures var u := Decrease(t, p, amount, tick);
      var done := k == t[p].key && amount >= 0 && t[p].incoming - t[p].outgoing >= amount;
      && WellFormed(u)
      && (k in View(u) <==> k in View(t))
      && var a, b := AccountOf(t, k), AccountOf(u, k);
         && b.outgoing == a.outgoing + (if done then amount else 0)
         && b.numOutgoing == (a.numOutgoing + (if done then 1 else 0)) % 0x1_0000_0000
         && b.latestOutgoing == (if done then tick else a.latestOutgoing)
         && b.incoming == a.incoming && b.numIncoming == a.numIncoming && b.latestIncoming == a.latestIncoming
  {
    hide WellFormed, View, Debited;
    ViewAt(t, p);
    DebitedFields(t[p], amount, tick);
    if CanPay(t[p], amount) {
      ReplaceUpdatesView(t, p, Debited(t[p], amount, tick));
    }
  }

  lemma {:induction false} IncreaseSupply(t: seq<Slot>, key: nat, amount: int, tick: nat)
    requires WellFormed(t) && CanProbe(t, key) && key != 0 && amount >= 0
    ensures var u := Increase(t, key, amount, tick);
      Supply(u) == Supply(t) + amount && (NonNegative(t) ==> NonNegative(u))
  {
    LocateDecides(t, key);
    var p := Locate(t, key);
    hide WellFormed, View, Free, Reaches, Locate, Supply;
    SupplyUpdate(t, p, Credited(t[p], key, amount, tick));
  }

  /** A credit raises exactly one balance, and the supply, by the amount. */
  lemma {:induction false} IncreaseKeeps(t: seq<Slot>, key: nat, amount: int, tick: nat)
    requires WellFormed(t) && CanCredit(t, key, amount)
    ensures var u := Increase(t, key, amount, tick); var gain := if key != 0 && amount >= 0 then amount else 0;
      && WellFormed(u) && Free(u) >= Free(t) - 1
      && (forall k :: Balance(u, k) == Balance(t, k) + (if k == key then gain else 0))
      && Supply(u) == Supply(t) + gain
      && (NonNegative(t) ==> NonNegative(u))
  {
    assert |t| > 0;
    if key != 0 && amount >= 0 {
      IncreaseView(t, key, amount, tick);
      IncreaseSupply(t, key, amount, tick);
      hide WellFormed, View, Free, Supply, NonNegative;
    }
  }

  /** A debit lowers exactly one balance, and the supply, by the amount, and only if it is covered. */
  lemma {:induction false} DecreaseKeeps(t: seq<Slot>, p: nat, amount: int, tick: nat)
    requires WellFormed(t) && p < |t| && t[p].Entity?
    ensures var u := Decrease(t, p, amount, tick); var loss := if CanPay(t[p], amount) then amount else 0;
      && WellFormed(u) && Free(u) == Free(t)
      && (forall k :: Balance(u, k) == Balance(t, k) - (if k == t[p].key then loss else 0))
      && (forall k :: k in View(u) <==> k in View(t))
      && Supply(u) == Supply(t) - loss
      && (NonNegative(t) ==> NonNegative(u))
  {
    hide WellFormed, View, Free, Supply;
    ViewAt(t, p);
    if CanPay(t[p], amount) {
      var r := Debited(t[p], amount, tick);
      SupplyUpdate(t, p, r);
      ReplaceUpdatesView(t, p, r);
    }
  }

  // ----- reorganizeSpectrum -----

  function Vacancies(n: nat): (u: seq<Slot>)
    ensures |u| == n
  {
    seq(n, _ => Vacant)
  }

  function StopAtVacant(): Slot -> bool {
    (r: Slot) => r.Vacant?
  }

  /** The record is copied to the first unused slot from its home. */
  ghost function Insert(u: seq<Slot>, r: Slot): (v: seq<Slot>)
    requires |u| > 0 && r.Entity?
    ensures |v| == |u|
  {
    u[Probe(u, Home(r.key, |u|), StopAtVacant()) := r]
  }

  /** The new table after the first n slots of the old one. */
  ghost function Reorganized(t: seq<Slot>, n: nat): (u: seq<Slot>)
    requires |t| > 0 && n <= |t|
    ensures |u| == |t|
  {
    if n == 0 then Vacancies(|t|)
    else if Energy(t[n - 1]) != 0 then Insert(Reorganized(t, n - 1), t[n - 1])
    else Reorganized(t, n - 1)
  }

  /** The map of u holds exactly the records with a nonzero balance among the first n slots of t. */
  ghost predicate KeepsFunded(t: seq<Slot>, u: seq<Slot>, n: nat)
    requires n <= |t|
  {
    && WellFormed(u) && |u| == |t|
    && (forall p :: 0 <= p < n && Energy(t[p]) != 0 ==>
        t[p].Entity? && t[p].key in View(u) && View(u)[t[p].key] == t[p])
    && (forall key :: key in View(u) ==> exists p :: 0 <= p < n && t[p].Entity? && t[p].key == key && Energy(t[p]) != 0)
  }

  ghost function UsedSlots(t: seq<Slot>): (s: set<nat>)
    ensures forall x: nat :: x in s <==> x < |t| && t[x].Entity?
    ensures |s| == |t| - Free(t)
  {
    Below(|t|) - FreeSlots(t)
  }

  /** The slot of the old table with the same key. */
  ghost function SlotsOfKeys(t: seq<Slot>, u: seq<Slot>): (m: map<nat, nat>)
    requires forall x :: x in UsedSlots(u) ==> exists p: nat :: p in UsedSlots(t) && t[p].key == u[x].key
    ensures m.Keys == UsedSlots(u)
    ensures forall x :: x in m ==> m[x] in UsedSlots(t) && t[m[x]].key == u[x].key
  {
    map x: nat | x in UsedSlots(u) :: var p: nat :| p in UsedSlots(t) && t[p].key == u[x].key; p
  }

  lemma KeysHaveSlots(t: seq<Slot>, u: seq<Slot>)
    requires WellFormed(t) && WellFormed(u)
    requires forall key :: key in View(u) ==> key in View(t)
    ensures forall x :: x in UsedSlots(u) ==> exists p: nat :: p in UsedSlots(t) && t[p].key == u[x].key
  {
    forall x | x in UsedSlots(u)
      ensures exists p: nat :: p in UsedSlots(t) && t[p].key == u[x].key
    {
      ViewAt(u, x);
      ViewHas(t, u[x].key);
      var p: nat :| p < |t| && t[p].Entity? && t[p].key == u[x].key;
      assert p in UsedSlots(t);
    }
  }

  /** A table whose keys all occur in t needs no more slots than t. */
  lemma FitsIn(t: seq<Slot>, u: seq<Slot>)
    requires WellFormed(t) && WellFormed(u) && |u| == |t|
    requires forall key :: key in View(u) ==> key in View(t)
    ensures Free(u) >= Free(t)
  {
    KeysHaveSlots(t, u);
    Pigeonhole(SlotsOfKeys(t, u), UsedSlots(t));
  }

  /** A table that lacks one of the keys of t has an unused slot, even if t is full. */
  lemma LacksOne(t: seq<Slot>, u: seq<Slot>, n: nat)
    requires WellFormed(t) && WellFormed(u) && |u| == |t| && n < |t| && t[n].Entity? && t[n].key !in View(u)
    requires forall key :: key in View(u) ==> key in View(t)
    ensures Free(u) > Free(t)
  {
    KeysHaveSlots(t, u);
    var m := SlotsOfKeys(t, u);
    forall x | x in m
      ensures m[x] != n
    {
      ViewAt(u, x);
    }
    Pigeonhole(m, UsedSlots(t) - {n});
  }

  /** Where reorganizeSpectrum puts a record. */
  lemma InsertPuts(u: seq<Slot>, r: Slot)
    requires WellFormed(u) && Free(u) > 0 && r.Entity? && r.key != 0 && r.key !in View(u)
    ensures WellFormed(Insert(u, r)) && View(Insert(u, r)) == View(u)[r.key := r]
  {
    var free :| free in FreeSlots(u);
    assert StopAtVacant()(u[free]);
    var h := Home(r.key, |u|);
    ProbeIsFirst(u, h, StopAtVacant());
    var p := Probe(u, h, StopAtVacant());
    assert forall x :: 0 <= x < |u| && !StopAtVacant()(u[x]) ==> u[x].Entity?;
    assert StopAtVacant()(u[p]);
    hide View;
    PutUpdatesView(u, p, r);
  }

  lemma FundedKeys(t: seq<Slot>, u: seq<Slot>, n: nat, key: nat)
    requires WellFormed(t) && n <= |t| && KeepsFunded(t, u, n) && key in View(u)
    ensures key in View(t) && Energy(View(t)[key]) != 0 && View(u)[key] == View(t)[key]
    ensures n < |t| && t[n].Entity? ==> key != t[n].key
  {
    hide View;
    var p :| 0 <= p < n && t[p].Entity? && t[p].key == key && Energy(t[p]) != 0;
    ViewAt(t, p);
  }

  lemma InsertRoom(t: seq<Slot>, u: seq<Slot>, n: nat)
    requires WellFormed(t) && n < |t| && KeepsFunded(t, u, n) && Energy(t[n]) != 0
    ensures Free(u) > 0 && t[n].Entity? && t[n].key != 0 && t[n].key !in View(u)
  {
    forall key | key in View(u)
      ensures key in View(t) && (t[n].Entity? ==> key != t[n].key)
    {
      FundedKeys(t, u, n, key);
    }
    LacksOne(t, u, n);
  }

  lemma InsertKeeps(t: seq<Slot>, u: seq<Slot>, n: nat)
    requires WellFormed(t) && n < |t| && KeepsFunded(t, u, n) && Energy(t[n]) != 0
    ensures KeepsFunded(t, Insert(u, t[n]), n + 1)
  {
    hide WellFormed, View, Free, Insert;
    InsertRoom(t, u, n);
    InsertPuts(u, t[n]);
  }

  lemma SkipKeeps(t: seq<Slot>, u: seq<Slot>, n: nat)
    requires n < |t| && KeepsFunded(t, u, n) && Energy(t[n]) == 0
    ensures KeepsFunded(t, u, n + 1)
  {
  }

  lemma VacanciesFunded(t: seq<Slot>)
    requires |t| > 0
    ensures KeepsFunded(t, Vacancies(|t|), 0)
  {
  }

  lemma {:induction false} ReorganizedKeeps(t: seq<Slot>, n: nat)
    requires WellFormed(t) && n <= |t|
    ensures KeepsFunded(t, Reorganized(t, n), n)
  {
    assert |t| > 0;
    hide KeepsFunded, Insert, Free, WellFormed, Vacancies;
    if n == 0 {
      VacanciesFunded(t);
    } else {
      ReorganizedKeeps(t, n - 1);
      if Energy(t[n - 1]) != 0 {
        InsertKeeps(t, Reorganized(t, n - 1), n - 1);
      } else {
        SkipKeeps(t, Reorganized(t, n - 1), n - 1);
      }
    }
  }

  lemma FundedView(t: seq<Slot>, u: seq<Slot>)
    requires WellFormed(t) && KeepsFunded(t, u, |t|)
    ensures View(u) == map key | key in View(t) && Energy(View(t)[key]) != 0 :: View(t)[key]
  {
  }

  /** reorganizeSpectrum keeps the identical record of every key with a balance and drops exactly the rest. */
  lemma {:induction false} ReorganizeRefines(t: seq<Slot>)
    requires WellFormed(t)
    ensures var u := Reorganized(t, |t|);
      && WellFormed(u) && Free(u) >= Free(t)
      && View(u) == map key | key in View(t) && Energy(View(t)[key]) != 0 :: View(t)[key]
  {
    var u := Reorganized(t, |t|);
    ReorganizedKeeps(t, |t|);
    FundedView(t, u);
    hide Reorganized, View, Free;
    FitsIn(t, u);
  }
}
