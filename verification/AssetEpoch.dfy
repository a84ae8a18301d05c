/**
 assetsEndEpoch: the table is rebuilt from the possession records that still hold
 shares. The proof traces every record of the new table to the old record that it
 came from; the trace is injective, so the rebuild never needs more slots than the old
 table used, and it carries every positive holding over unchanged.
 */
module AssetEpoch {
  import opened Probing
  import opened AssetTable
  import opened AssetLedger

  /** The possession record in slot i is carried over. */
  predicate Carried(t: seq<Asset>, i: nat)
    requires i < |t|
  {
    t[i].Possession? && t[i].shares > 0
  }

  // ----- One round of the rebuild loop -----

  ghost function PutIssuance(t: seq<Asset>, u: seq<Asset>, i: nat): (v: seq<Asset>)
    requires |u| > 0 && i < |t| && t[i].Issuance?
    ensures |v| == |u|
  {
    var d := Locate(u, IdOf(t[i]));
    if u[d].Empty? then u[d := t[i]] else u
  }

  /** The three find-or-create steps for the possession record in slot i of the old table. */
  ghost function Carry(t: seq<Asset>, u: seq<Asset>, i: nat): (v: seq<Asset>)
    requires |u| > 0 && i < |t| && Carried(t, i)
    requires Linked(t, t[i]) && Linked(t, t[t[i].ownership])
    ensures |v| == |u|
  {
    var own := t[t[i].ownership];
    var u1 := PutIssuance(t, u, own.issuance);
    var oid := OwnershipId(own.key, own.managing, Locate(u, IdOf(t[own.issuance])));
    var o := Locate(u1, oid);
    var u2 := Open(u1, oid);
    var pid := PossessionId(t[i].key, t[i].managing, o);
    if !u2[o].Ownership? then u2 else
    var u3 := AddShares(u2, o, t[i].shares);
    var p := Locate(u3, pid);
    var u4 := Open(u3, pid);
    if !u4[p].Possession? then u4 else AddShares(u4, p, t[i].shares)
  }

  function Blanks(n: nat): (u: seq<Asset>)
    ensures |u| == n
  {
    seq(n, _ => Empty)
  }

  /** The new table after the first n slots of the old one. */
  ghost function Rebuild(t: seq<Asset>, n: nat): (u: seq<Asset>)
    requires WellFormed(t) && n <= |t|
    ensures |u| == |t|
  {
    if n == 0 then
      Blanks(|t|)
    else
      var u := Rebuild(t, n - 1);
      if Carried(t, n - 1) then
        assert Linked(t, t[n - 1]) && Linked(t, t[t[n - 1].ownership]);
        Carry(t, u, n - 1)
      else u
  }

  // ----- The trace from the new table to the old one -----

  /** The record in slot x of the new table came from slot from[x] of the old table. */
  ghost predicate CameFrom(t: seq<Asset>, u: seq<Asset>, from: map<nat, nat>, x: nat)
    requires x in from && x < |u|
  {
    && from[x] < |t|
    && var r := t[from[x]];
       match u[x]
       case Empty => false
       case Issuance(_, _, _, _) => u[x] == r
       case Ownership(key, managing, i, _) =>
         r.Ownership? && r.key == key && r.managing == managing && i in from && from[i] == r.issuance
       case Possession(key, managing, o, _) =>
         r.Possession? && r.key == key && r.managing == managing && o in from && from[o] == r.ownership
  }

  ghost predicate Traced(t: seq<Asset>, u: seq<Asset>, from: map<nat, nat>) {
    && |u| == |t|
    && (forall x :: x in from <==> 0 <= x < |u| && !u[x].Empty?)
    && (forall x :: x in from ==> CameFrom(t, u, from, x))
    && (forall x, y :: x in from && y in from && from[x] == from[y] ==> x == y)
  }

  ghost function UsedSlots(t: seq<Asset>): (s: set<nat>)
    ensures forall x: nat :: x in s <==> x < |t| && !t[x].Empty?
    ensures |s| == |t| - Free(t)
  {
    Below(|t|) - FreeSlots(t)
  }

  lemma TraceIntoUsed(t: seq<Asset>, u: seq<Asset>, from: map<nat, nat>)
    requires Traced(t, u, from)
    ensures from.Keys == UsedSlots(u) && forall x :: x in from ==> from[x] in UsedSlots(t)
  {
    forall x | x in from
      ensures from[x] in UsedSlots(t)
    {
      assert CameFrom(t, u, from, x);
    }
  }

  /** The rebuilt table never uses more slots than the old one. */
  lemma TracedFitsIn(t: seq<Asset>, u: seq<Asset>, from: map<nat, nat>)
    requires Traced(t, u, from)
    ensures Free(u) >= Free(t)
  {
    TraceIntoUsed(t, u, from);
    Pigeonhole(from, UsedSlots(t));
  }

  /** As long as some record of the old table is not traced, the new table uses fewer slots. */
  lemma UntracedLeavesRoom(t: seq<Asset>, u: seq<Asset>, from: map<nat, nat>, a: nat)
    requires Traced(t, u, from) && a < |t| && !t[a].Empty? && forall x :: x in from ==> from[x] != a
    ensures Free(u) > Free(t)
  {
    TraceIntoUsed(t, u, from);
    Pigeonhole(from, UsedSlots(t) - {a});
  }

  /** The identity that an old record has in the new table, given where its link went. */
  function Relinked(r: Asset, link: nat): Id
    requires !r.Empty?
  {
    match r
    case Issuance(key, name, _, _) => IssuanceId(key, name)
    case Ownership(key, managing, _, _) => OwnershipId(key, managing, link)
    case Possession(key, managing, _, _) => PossessionId(key, managing, link)
  }

  /** link is the new slot of the record that t[a] links to. */
  ghost predicate LinkTraced(t: seq<Asset>, from: map<nat, nat>, a: nat, link: nat)
    requires a < |t|
  {
    match t[a]
    case Ownership(_, _, i, _) => link in from && from[link] == i
    case Possession(_, _, o, _) => link in from && from[link] == o
    case _ => true
  }

  /** A new-table record with the identity of an old record is traced to that record, and conversely. */
  lemma TraceIsExact(t: seq<Asset>, u: seq<Asset>, from: map<nat, nat>, a: nat, link: nat, x: nat)
    requires WellFormed(t) && Traced(t, u, from) && a < |t| && !t[a].Empty? && LinkTraced(t, from, a, link)
    requires x in from
    ensures IdOf(u[x]) == Relinked(t[a], link) <==> from[x] == a
  {
    assert CameFrom(t, u, from, x);
    if IdOf(u[x]) == Relinked(t[a], link) {
      assert IdOf(t[from[x]]) == IdOf(t[a]);
    }
  }

  /** A record of the new table for the old slot a: found, or put into the slot where the probe ends. */
  lemma TraceOne(t: seq<Asset>, u: seq<Asset>, from: map<nat, nat>, a: nat, link: nat, r: Asset)
    returns (from': map<nat, nat>)
    requires WellFormed(t) && WellFormed(u) && Free(u) > 0 && Traced(t, u, from)
    requires a < |t| && !t[a].Empty? && LinkTraced(t, from, a, link)
    requires IdOf(r) == Relinked(t[a], link) && (r.Issuance? ==> r == t[a])
    ensures var d := Locate(u, IdOf(r));
      var v := if u[d].Empty? then u[d := r] else u;
      && WellFormed(v) && Traced(t, v, from') && IdOf(v[d]) == IdOf(r)
      && from' == from[d := a]
      && (d in from ==> from[d] == a && from' == from)
      && (d !in from ==> a !in from.Values)
  {
    var id := IdOf(r);
    LocateDecides(u, id);
    var d := Locate(u, id);
    from' := from[d := a];
    if u[d].Empty? {
      assert Linked(u, r) by { LinksFollowTrace(t, u, from, a, link, r); }
      PutKeepsWellFormed(u, d, r);
      NotYetTraced(t, u, from, a, link, id);
      TraceGrows(t, u, from, a, link, r, d);
    } else {
      TraceIsExact(t, u, from, a, link, d);
      assert from' == from;
    }
  }

  lemma LinksFollowTrace(t: seq<Asset>, u: seq<Asset>, from: map<nat, nat>, a: nat, link: nat, r: Asset)
    requires WellFormed(t) && Traced(t, u, from) && a < |t| && !t[a].Empty? && LinkTraced(t, from, a, link)
    requires IdOf(r) == Relinked(t[a], link)
    ensures Linked(u, r)
  {
    assert Linked(t, t[a]);
    if !t[a].Issuance? { assert CameFrom(t, u, from, link); }
  }

  /** No record of the new table was traced to a before a's record was put. */
  lemma NotYetTraced(t: seq<Asset>, u: seq<Asset>, from: map<nat, nat>, a: nat, link: nat, id: Id)
    requires WellFormed(t) && Traced(t, u, from) && a < |t| && !t[a].Empty? && LinkTraced(t, from, a, link)
    requires id == Relinked(t[a], link) && !Holds(u, id)
    ensures forall x :: x in from ==> from[x] != a
  {
    forall x | x in from
      ensures from[x] != a
    {
      TraceIsExact(t, u, from, a, link, x);
    }
  }

  lemma TraceGrows(t: seq<Asset>, u: seq<Asset>, from: map<nat, nat>, a: nat, link: nat, r: Asset, d: nat)
    requires Traced(t, u, from) && a < |t| && !t[a].Empty? && LinkTraced(t, from, a, link)
    requires IdOf(r) == Relinked(t[a], link) && (r.Issuance? ==> r == t[a])
    requires d < |u| && u[d].Empty? && forall x :: x in from ==> from[x] != a
    ensures Traced(t, u[d := r], from[d := a])
  {
  }

  // ----- The loop invariant -----

  /**
   The shares of the new table account for the first n slots of the old one, except that
   the ownership record in slot o is `credit` ahead of its possession records.
   */
  ghost predicate Accounted(t: seq<Asset>, u: seq<Asset>, from: map<nat, nat>, n: nat, o: nat, credit: int)
    requires n <= |t|
  {
    && (forall x :: 0 <= x < |u| && u[x].Ownership? ==>
          u[x].shares == Sum(u, OfOwnership(x)) + (if x == o then credit else 0))
    && (forall x :: x in from && x < |u| && u[x].Ownership? ==> u[x].shares > 0)
    && (forall x :: x in from && x < |u| && u[x].Possession? ==>
          from[x] < n && t[from[x]].Possession? && u[x].shares == t[from[x]].shares > 0)
    && (forall i :: 0 <= i < n && Carried(t, i) ==> i in from.Values)
  }

  ghost predicate Partial(t: seq<Asset>, u: seq<Asset>, from: map<nat, nat>, n: nat)
    requires n <= |t|
  {
    WellFormed(u) && Traced(t, u, from) && Accounted(t, u, from, n, 0, 0)
  }

  /** Between crediting the ownership record in slot o and creating the possession record. */
  ghost predicate Pending(t: seq<Asset>, u: seq<Asset>, from: map<nat, nat>, n: nat, o: nat, credit: int)
    requires n <= |t|
  {
    WellFormed(u) && Traced(t, u, from) && Accounted(t, u, from, n, o, credit) && o < |u| && u[o].Ownership?
  }

  /** Until the possession record in slot n is carried over, the new table has room, even if the old one is full. */
  lemma RoomLeft(t: seq<Asset>, u: seq<Asset>, from: map<nat, nat>, n: nat, o: nat, credit: int)
    requires n < |t| && Carried(t, n) && Traced(t, u, from) && Accounted(t, u, from, n, o, credit)
    ensures Free(u) > 0
  {
    hide Sum;
    forall x | x in from
      ensures from[x] != n
    {
      assert CameFrom(t, u, from, x);
    }
    UntracedLeavesRoom(t, u, from, n);
  }

  /** Adding shares does not disturb the trace. */
  lemma TracedSameRecords(t: seq<Asset>, u: seq<Asset>, v: seq<Asset>, from: map<nat, nat>)
    requires Traced(t, u, from) && SameRecords(u, v)
    requires forall x :: 0 <= x < |u| && u[x].Issuance? ==> v[x] == u[x]
    ensures Traced(t, v, from)
  {
  }

  lemma ValuesGrow(from: map<nat, nat>, d: nat, a: nat)
    requires d !in from || from[d] == a
    ensures forall v :: v in from.Values || v == a ==> v in from[d := a].Values
  {
    forall v | v in from.Values || v == a
      ensures v in from[d := a].Values
    {
      if v == a {
        assert from[d := a][d] == a;
      } else {
        var k :| k in from && from[k] == v;
        assert from[d := a][k] == v;
      }
    }
  }

  lemma AccountIssuance(t: seq<Asset>, u: seq<Asset>, from: map<nat, nat>, n: nat, d: nat, a: nat)
    requires n <= |t| && Accounted(t, u, from, n, 0, 0)
    requires d < |u| && u[d].Empty? && d !in from && a < |t| && t[a].Issuance?
    ensures Accounted(t, u[d := t[a]], from[d := a], n, 0, 0)
  {
    ValuesGrow(from, d, a);
    forall c: Account
      ensures Sum(u[d := t[a]], c) == Sum(u, c)
    {
      SumUpdate(u, d, t[a], c);
    }
  }

  lemma CarryIssuance(t: seq<Asset>, u: seq<Asset>, from: map<nat, nat>, n: nat, a: nat) returns (from': map<nat, nat>)
    requires WellFormed(t) && n < |t| && Carried(t, n) && Partial(t, u, from, n) && a < |t| && t[a].Issuance?
    ensures Free(u) > 0
    ensures Partial(t, PutIssuance(t, u, a), from', n)
    ensures var d := Locate(u, IdOf(t[a])); d in from' && from'[d] == a
  {
    RoomLeft(t, u, from, n, 0, 0);
    from' := TraceOne(t, u, from, a, 0, t[a]);
    var d := Locate(u, IdOf(t[a]));
    if u[d].Empty? {
      AccountIssuance(t, u, from, n, d, a);
    }
  }

  /** Crediting an ownership record leaves the sums over possession records alone. */
  lemma CreditSums(u: seq<Asset>, o: nat, blank: Asset, credit: int, x: nat)
    requires o < |u| && blank.Ownership? && (u[o].Empty? || u[o].Ownership?)
    ensures var u2 := if u[o].Empty? then u[o := blank] else u;
      Sum(AddShares(u2, o, credit), OfOwnership(x)) == Sum(u, OfOwnership(x))
  {
    var u2 := if u[o].Empty? then u[o := blank] else u;
    var v := AddShares(u2, o, credit);
    if u[o].Empty? { SumUpdate(u, o, blank, OfOwnership(x)); }
    SumUpdate(u2, o, v[o], OfOwnership(x));
  }

  lemma {:induction false} AccountCredit(t: seq<Asset>, u: seq<Asset>, v: seq<Asset>, from: map<nat, nat>, n: nat,
                                         o: nat, a: nat, credit: int)
    requires n <= |t| && Accounted(t, u, from, n, 0, 0) && o < |u| == |v| && (o in from ==> from[o] == a)
    requires forall x :: 0 <= x < |u| && x != o ==> v[x] == u[x]
    requires forall x: nat :: Sum(v, OfOwnership(x)) == Sum(u, OfOwnership(x))
    requires v[o].Ownership? && v[o].shares == Sum(u, OfOwnership(o)) + credit && v[o].shares > 0
    ensures Accounted(t, v, from[o := a], n, o, credit)
  {
    ValuesGrow(from, o, a);
  }

  /** Crediting an ownership record that is new (blank) or already there. */
  lemma {:induction false} AccountOwnership(t: seq<Asset>, u: seq<Asset>, from: map<nat, nat>, n: nat, o: nat, a: nat,
                                            blank: Asset, credit: int)
    requires n <= |t| && Accounted(t, u, from, n, 0, 0) && o < |u| && blank.Ownership? && blank.shares == 0
    requires credit > 0
    requires u[o].Empty? ==> o !in from && Sum(u, OfOwnership(o)) == 0
    requires !u[o].Empty? ==> u[o].Ownership? && o in from && from[o] == a
    ensures var u2 := if u[o].Empty? then u[o := blank] else u;
      Accounted(t, AddShares(u2, o, credit), from[o := a], n, o, credit)
  {
    var v := AddShares(if u[o].Empty? then u[o := blank] else u, o, credit);
    forall x: nat
      ensures Sum(v, OfOwnership(x)) == Sum(u, OfOwnership(x))
    {
      CreditSums(u, o, blank, credit, x);
    }
    AccountCredit(t, u, v, from, n, o, a, credit);
  }

  /** TraceOne for a record that Open finds or creates. */
  lemma OpenTraced(t: seq<Asset>, u: seq<Asset>, from: map<nat, nat>, a: nat, link: nat, id: Id)
    returns (from': map<nat, nat>)
    requires WellFormed(t) && WellFormed(u) && Free(u) > 0 && Traced(t, u, from)
    requires a < |t| && (t[a].Ownership? || t[a].Possession?) && LinkTraced(t, from, a, link)
    requires id == Relinked(t[a], link)
    ensures var d := Locate(u, id);
      && WellFormed(Open(u, id)) && Traced(t, Open(u, id), from') && from' == from[d := a] && IdOf(Open(u, id)[d]) == id
      && (u[d].Empty? ==> d !in from && Sum(u, OfOwnership(d)) == 0)
      && (!u[d].Empty? ==> d in from && from[d] == a && IdOf(u[d]) == id)
  {
    from' := TraceOne(t, u, from, a, link, Blank(id));
    var d := Locate(u, id);
    if u[d].Empty? { SumAtEmptySlot(u, d); }
  }

  lemma CarryOwnership(t: seq<Asset>, u: seq<Asset>, from: map<nat, nat>, n: nat, a: nat, link: nat, credit: int)
    returns (from': map<nat, nat>)
    requires WellFormed(t) && n < |t| && Carried(t, n) && Partial(t, u, from, n)
    requires a < |t| && t[a].Ownership? && link in from && from[link] == t[a].issuance && credit > 0
    ensures Free(u) > 0
    ensures var oid := OwnershipId(t[a].key, t[a].managing, link); var o := Locate(u, oid);
      && Open(u, oid)[o].Ownership?
      && Pending(t, AddShares(Open(u, oid), o, credit), from', n, o, credit)
      && o in from' && from'[o] == a
  {
    var oid := OwnershipId(t[a].key, t[a].managing, link);
    RoomLeft(t, u, from, n, 0, 0);
    from' := OpenTraced(t, u, from, a, link, oid);
    var o := Locate(u, oid);
    AccountOwnership(t, u, from, n, o, a, Blank(oid), credit);
    CreditTraced(t, Open(u, oid), from', o, credit);
  }

  lemma CreditTraced(t: seq<Asset>, u: seq<Asset>, from: map<nat, nat>, p: nat, credit: int)
    requires WellFormed(u) && Traced(t, u, from) && p < |u| && (u[p].Ownership? || u[p].Possession?)
    ensures WellFormed(AddShares(u, p, credit)) && Traced(t, AddShares(u, p, credit), from)
  {
    var v := AddShares(u, p, credit);
    assert SameRecords(u, v);
    SameRecordsKeepsWellFormed(u, v);
    TracedSameRecords(t, u, v, from);
  }

  /** The new possession record settles the credit of its ownership record. */
  lemma AccountPossession(t: seq<Asset>, u: seq<Asset>, from: map<nat, nat>, n: nat, o: nat, p: nat, blank: Asset)
    requires n < |t| && Carried(t, n) && Accounted(t, u, from, n, o, t[n].shares)
    requires p < |u| && u[p].Empty? && p !in from && blank.Possession? && blank.ownership == o && blank.shares == 0
    ensures Accounted(t, AddShares(u[p := blank], p, t[n].shares), from[p := n], n + 1, 0, 0)
  {
    ValuesGrow(from, p, n);
    var v := AddShares(u[p := blank], p, t[n].shares);
    forall x: nat
      ensures Sum(v, OfOwnership(x)) == Sum(u, OfOwnership(x)) + (if x == o then t[n].shares else 0)
    {
      SumUpdate(u, p, blank, OfOwnership(x));
      SumUpdate(u[p := blank], p, v[p], OfOwnership(x));
    }
  }

  lemma CarryPossession(t: seq<Asset>, u: seq<Asset>, from: map<nat, nat>, n: nat, o: nat)
    returns (from': map<nat, nat>)
    requires WellFormed(t) && n < |t| && Carried(t, n) && Pending(t, u, from, n, o, t[n].shares)
    requires o in from && from[o] == t[n].ownership
    ensures Free(u) > 0
    ensures var pid := PossessionId(t[n].key, t[n].managing, o); var p := Locate(u, pid);
      && Open(u, pid)[p].Possession?
      && Partial(t, AddShares(Open(u, pid), p, t[n].shares), from', n + 1)
  {
    var pid := PossessionId(t[n].key, t[n].managing, o);
    RoomLeft(t, u, from, n, o, t[n].shares);
    from' := OpenTraced(t, u, from, n, o, pid);
    var p := Locate(u, pid);
    assert u[p].Empty?;
    AccountPossession(t, u, from, n, o, p, Blank(pid));
    CreditTraced(t, Open(u, pid), from', p, t[n].shares);
  }

  /** One round keeps the loop invariant, and each of its three probes meets an unused slot. */
  lemma CarryKeeps(t: seq<Asset>, u: seq<Asset>, from: map<nat, nat>, i: nat) returns (from': map<nat, nat>)
    requires WellFormed(t) && i < |t| && Carried(t, i) && Partial(t, u, from, i)
    ensures Linked(t, t[i]) && Linked(t, t[t[i].ownership])
    ensures Partial(t, Carry(t, u, i), from', i + 1)
  {
    assert Linked(t, t[i]) && Linked(t, t[t[i].ownership]);
    var own := t[t[i].ownership];
    var from1 := CarryIssuance(t, u, from, i, own.issuance);
    var u1 := PutIssuance(t, u, own.issuance);
    var link := Locate(u, IdOf(t[own.issuance]));
    var from2 := CarryOwnership(t, u1, from1, i, t[i].ownership, link, t[i].shares);
    var oid := OwnershipId(own.key, own.managing, link);
    var o := Locate(u1, oid);
    from' := CarryPossession(t, AddShares(Open(u1, oid), o, t[i].shares), from2, i, o);
  }

  /** A slot that is not carried over changes nothing. */
  lemma SkipKeeps(t: seq<Asset>, u: seq<Asset>, from: map<nat, nat>, i: nat)
    requires i < |t| && !Carried(t, i) && Partial(t, u, from, i)
    ensures Partial(t, u, from, i + 1)
  {
  }

  /** The loop invariant of the rebuild: some trace accounts for the first n slots. */
  ghost predicate RebuiltTo(t: seq<Asset>, u: seq<Asset>, n: nat)
    requires n <= |t|
  {
    exists from: map<nat, nat> :: Partial(t, u, from, n)
  }

  lemma {:induction false} RebuildStarts(t: seq<Asset>)
    requires WellFormed(t)
    ensures RebuiltTo(t, Rebuild(t, 0), 0)
  {
    var from: map<nat, nat> := map[];
    assert Partial(t, Blanks(|t|), from, 0);
  }

  /** Each of the three probes of a round meets an unused slot, and finds records of the right kind. */
  lemma RoundHasRoom(t: seq<Asset>, u: seq<Asset>, i: nat)
    requires WellFormed(t) && i < |t| && |u| == |t| && Carried(t, i) && RebuiltTo(t, u, i)
    ensures Linked(t, t[i]) && Linked(t, t[t[i].ownership])
    ensures var own := t[t[i].ownership]; var u1 := PutIssuance(t, u, own.issuance);
      var oid := OwnershipId(own.key, own.managing, Locate(u, IdOf(t[own.issuance])));
      var o := Locate(u1, oid); var u2 := Open(u1, oid);
      && Free(u) > 0 && Free(u1) > 0 && u2[o].Ownership?
      && (var u3 := AddShares(u2, o, t[i].shares); var pid := PossessionId(t[i].key, t[i].managing, o);
          Free(u3) > 0 && Open(u3, pid)[Locate(u3, pid)].Possession?)
  {
    var from: map<nat, nat> :| Partial(t, u, from, i);
    assert Linked(t, t[i]) && Linked(t, t[t[i].ownership]);
    var own := t[t[i].ownership];
    var from1 := CarryIssuance(t, u, from, i, own.issuance);
    var u1 := PutIssuance(t, u, own.issuance);
    var link := Locate(u, IdOf(t[own.issuance]));
    var from2 := CarryOwnership(t, u1, from1, i, t[i].ownership, link, t[i].shares);
    var oid := OwnershipId(own.key, own.managing, link);
    var o := Locate(u1, oid);
    var from3 := CarryPossession(t, AddShares(Open(u1, oid), o, t[i].shares), from2, i, o);
  }

  lemma RoundKeeps(t: seq<Asset>, u: seq<Asset>, i: nat)
    requires WellFormed(t) && i < |t| && RebuiltTo(t, u, i)
    ensures Carried(t, i) ==> Linked(t, t[i]) && Linked(t, t[t[i].ownership])
    ensures RebuiltTo(t, if Carried(t, i) then Carry(t, u, i) else u, i + 1)
  {
    var from: map<nat, nat> :| Partial(t, u, from, i);
    if Carried(t, i) {
      var from' := CarryKeeps(t, u, from, i);
    } else {
      SkipKeeps(t, u, from, i);
    }
  }

  lemma RebuildStep(t: seq<Asset>, n: nat)
    requires WellFormed(t) && 0 < n <= |t| && RebuiltTo(t, Rebuild(t, n - 1), n - 1)
    ensures RebuiltTo(t, Rebuild(t, n), n)
  {
    hide RebuiltTo;
    RoundKeeps(t, Rebuild(t, n - 1), n - 1);
  }

  lemma {:induction false} RebuildIsTraced(t: seq<Asset>, n: nat)
    requires WellFormed(t) && n <= |t|
    ensures RebuiltTo(t, Rebuild(t, n), n)
  {
    hide RebuiltTo, Carry;
    if n == 0 {
      RebuildStarts(t);
    } else {
      RebuildIsTraced(t, n - 1);
      RebuildStep(t, n);
    }
  }
}
