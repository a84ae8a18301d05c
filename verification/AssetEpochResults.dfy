/**
 What assetsEndEpoch guarantees: a well-formed table without empty holdings in which
 every positive holding, every asset total and every positive balance is what it was.
 */
module AssetEpochResults {
  import opened AssetTable
  import opened AssetConservation
  import opened AssetEpoch

  ghost function EndEpoch(t: seq<Asset>): (u: seq<Asset>)
    requires WellFormed(t)
    ensures |u| == |t|
  {
    Rebuild(t, |t|)
  }

  lemma FinalTrace(t: seq<Asset>) returns (from: map<nat, nat>)
    requires WellFormed(t)
    ensures Partial(t, EndEpoch(t), from, |t|)
  {
    RebuildIsTraced(t, |t|);
    from :| Partial(t, EndEpoch(t), from, |t|);
  }

  lemma ValuesShrink(from: map<nat, nat>, x: nat)
    requires x in from
    ensures forall v :: v in from.Values ==> v == from[x] || v in (from - {x}).Values
  {
    forall v | v in from.Values && v != from[x]
      ensures v in (from - {x}).Values
    {
      var k :| k in from && from[k] == v;
      assert (from - {x})[k] == v;
    }
  }

  /** A sum is carried over by an injective relocation that covers all weights that matter. */
  lemma {:induction false} SumTransport(t: seq<Asset>, u: seq<Asset>, from: map<nat, nat>, old_: Account, new_: Account)
    requires forall x :: x in from ==> x < |u| && from[x] < |t| && Weight(u[x], new_) == Weight(t[from[x]], old_)
    requires forall x, y :: x in from && y in from && from[x] == from[y] ==> x == y
    requires forall x :: 0 <= x < |u| && x !in from ==> Weight(u[x], new_) == 0
    requires forall z :: 0 <= z < |t| && z !in from.Values ==> Weight(t[z], old_) == 0
    ensures Sum(u, new_) == Sum(t, old_)
    decreases |from|
  {
    if from == map[] {
      NoWeight(t, old_);
      NoWeight(u, new_);
    } else {
      var x :| x in from;
      var rest := from - {x};
      assert from.Keys == rest.Keys + {x};
      var t', u' := t[from[x] := Empty], u[x := Empty];
      SumUpdate(t, from[x], Empty, old_);
      SumUpdate(u, x, Empty, new_);
      ValuesShrink(from, x);
      SumTransport(t', u', rest, old_, new_);
    }
  }

  lemma {:induction false} NoWeight(t: seq<Asset>, a: Account)
    requires forall x :: 0 <= x < |t| ==> Weight(t[x], a) == 0
    ensures Sum(t, a) == 0
  {
    if t != [] {
      NoWeight(t[..|t| - 1], a);
    }
  }

  lemma {:induction false} SumPositive(t: seq<Asset>, a: Account) returns (x: nat)
    requires Sum(t, a) > 0
    ensures x < |t| && Counts(t[x], a) && t[x].shares > 0
  {
    var n := |t| - 1;
    if Weight(t[n], a) > 0 {
      x := n;
    } else {
      x := SumPositive(t[..n], a);
    }
  }

  /** The complete trace of the rebuild, with ownership shares equal on both sides. */
  ghost predicate FullTrace(t: seq<Asset>, u: seq<Asset>, from: map<nat, nat>) {
    && Partial(t, u, from, |t|)
    && (forall x :: x in from && u[x].Ownership? ==> u[x].shares == t[from[x]].shares)
  }

  lemma {:induction false} PossessionSums(t: seq<Asset>, u: seq<Asset>, from: map<nat, nat>, y: nat)
    requires WellFormed(t) && NonNegative(t) && Partial(t, u, from, |t|) && y in from && u[y].Ownership?
    ensures Sum(u, OfOwnership(y)) == Sum(t, OfOwnership(from[y]))
  {
    forall x | x in from
      ensures x < |u| && from[x] < |t| && Weight(u[x], OfOwnership(y)) == Weight(t[from[x]], OfOwnership(from[y]))
    {
      assert CameFrom(t, u, from, x);
    }
    SumTransport(t, u, from, OfOwnership(from[y]), OfOwnership(y));
  }

  lemma EndEpochTrace(t: seq<Asset>) returns (from: map<nat, nat>)
    requires Sound(t)
    ensures FullTrace(t, EndEpoch(t), from)
  {
    from := FinalTrace(t);
    var u := EndEpoch(t);
    forall x | x in from && u[x].Ownership?
      ensures u[x].shares == t[from[x]].shares
    {
      assert CameFrom(t, u, from, x);
      PossessionSums(t, u, from, x);
    }
  }

  /** A record is dropped only if it holds nothing. */
  lemma PositiveOwnershipTraced(t: seq<Asset>, u: seq<Asset>, from: map<nat, nat>, o: nat)
    requires Sound(t) && Partial(t, u, from, |t|) && o < |t| && t[o].Ownership? && t[o].shares > 0
    ensures o in from.Values
  {
    var p := SumPositive(t, OfOwnership(o));
    assert Carried(t, p);
    var x :| x in from && from[x] == p;
    assert CameFrom(t, u, from, x);
    assert from[u[x].ownership] == o;
  }

  /** The new table is well formed, fits, holds no empty ownership or possession record, and keeps the invariant. */
  lemma EndEpochKeeps(t: seq<Asset>)
    requires WellFormed(t)
    ensures var u := EndEpoch(t);
      && WellFormed(u) && Balanced(u) && Free(u) >= Free(t)
      && (forall x :: 0 <= x < |u| && (u[x].Ownership? || u[x].Possession?) ==> u[x].shares > 0)
      && (SameManager(t) ==> SameManager(u))
      && (Sound(t) ==> Sound(u))
  {
    var u := EndEpoch(t);
    var from := FinalTrace(t);
    TracedFitsIn(t, u, from);
    if SameManager(t) {
      forall p | 0 <= p < |u| && u[p].Possession? && u[p].ownership < |u| && u[u[p].ownership].Ownership?
        ensures u[p].managing == u[u[p].ownership].managing
      {
        assert CameFrom(t, u, from, p) && CameFrom(t, u, from, u[p].ownership);
        assert Linked(t, t[from[p]]);
      }
    }
  }

  lemma {:induction false} IssuanceSums(t: seq<Asset>, u: seq<Asset>, from: map<nat, nat>, y: nat)
    requires Sound(t) && FullTrace(t, u, from) && y in from && u[y].Issuance?
    ensures Sum(u, OfIssuance(y)) == Sum(t, OfIssuance(from[y]))
  {
    forall x | x in from
      ensures x < |u| && from[x] < |t| && Weight(u[x], OfIssuance(y)) == Weight(t[from[x]], OfIssuance(from[y]))
    {
      assert CameFrom(t, u, from, x);
    }
    forall z | 0 <= z < |t| && z !in from.Values
      ensures Weight(t[z], OfIssuance(from[y])) == 0
    {
      if t[z].Ownership? && t[z].shares > 0 {
        PositiveOwnershipTraced(t, u, from, z);
      }
    }
    SumTransport(t, u, from, OfIssuance(from[y]), OfIssuance(y));
  }

  lemma IssuanceTraced(t: seq<Asset>, u: seq<Asset>, from: map<nat, nat>, o: nat) returns (y: nat)
    requires Sound(t) && Partial(t, u, from, |t|) && o < |t| && t[o].Ownership? && t[o].shares > 0
    ensures y < |u| && t[o].issuance < |t| && IdOf(u[y]) == IdOf(t[t[o].issuance])
  {
    PositiveOwnershipTraced(t, u, from, o);
    var x :| x in from && from[x] == o;
    assert CameFrom(t, u, from, x);
    y := u[x].issuance;
    assert CameFrom(t, u, from, y) && Linked(t, t[o]);
  }

  /** The end-of-epoch rebuild conserves the total of every asset. */
  lemma EndEpochConserves(t: seq<Asset>, issuer: nat, name: nat)
    requires Sound(t)
    ensures Total(EndEpoch(t), issuer, name) == Total(t, issuer, name)
  {
    var u := EndEpoch(t);
    var from := EndEpochTrace(t);
    if y :| 0 <= y < |u| && IdOf(u[y]) == IssuanceId(issuer, name) {
      assert CameFrom(t, u, from, y);
      TotalAt(u, y);
      TotalAt(t, from[y]);
      IssuanceSums(t, u, from, y);
    } else if i :| 0 <= i < |t| && IdOf(t[i]) == IssuanceId(issuer, name) {
      TotalAt(t, i);
      forall z | 0 <= z < |t|
        ensures Weight(t[z], OfIssuance(i)) == 0
      {
        if t[z].Ownership? && t[z].issuance == i && t[z].shares > 0 {
          var y := IssuanceTraced(t, u, from, z);
          assert false;
        }
      }
      NoWeight(t, OfIssuance(i));
    }
  }

  // ----- Holdings -----

  /** Who holds what: the logical key of a possession record, free of slot indices. */
  datatype Holding = Holding(issuer: nat, name: nat, owner: nat, ownerManaging: nat, possessor: nat,
                             possessorManaging: nat)

  ghost predicate IsHolding(t: seq<Asset>, p: nat, h: Holding) {
    && p < |t| && t[p].Possession? && t[p].key == h.possessor && t[p].managing == h.possessorManaging
    && Linked(t, t[p])
    && var own := t[t[p].ownership];
    && own.key == h.owner && own.managing == h.ownerManaging && Linked(t, own)
    && IdOf(t[own.issuance]) == IssuanceId(h.issuer, h.name)
  }

  /** The shares of a holding; zero when there is no such record. */
  ghost function SharesOf(t: seq<Asset>, h: Holding): int {
    if p: nat :| IsHolding(t, p, h) then t[p].shares else 0
  }

  lemma HoldingTraced(t: seq<Asset>, u: seq<Asset>, from: map<nat, nat>, x: nat, h: Holding)
    requires WellFormed(t) && WellFormed(u) && Traced(t, u, from) && x in from && u[x].Possession?
    ensures IsHolding(u, x, h) <==> IsHolding(t, from[x], h)
  {
  }

  lemma SharesAt(t: seq<Asset>, p: nat, h: Holding)
    requires WellFormed(t) && IsHolding(t, p, h)
    ensures SharesOf(t, h) == t[p].shares
  {
  }

  /** Every holding keeps its share count; only holdings without shares disappear. */
  lemma EndEpochKeepsHoldings(t: seq<Asset>, h: Holding)
    requires WellFormed(t)
    ensures SharesOf(EndEpoch(t), h) == if SharesOf(t, h) > 0 then SharesOf(t, h) else 0
  {
    var u := EndEpoch(t);
    var from := FinalTrace(t);
    if x: nat :| IsHolding(u, x, h) {
      HoldingTraced(t, u, from, x, h);
      SharesAt(t, from[x], h);
      SharesAt(u, x, h);
    } else if p: nat :| IsHolding(t, p, h) {
      SharesAt(t, p, h);
      if t[p].shares > 0 {
        assert Carried(t, p);
        var x :| x in from && from[x] == p;
        assert CameFrom(t, u, from, x);
        HoldingTraced(t, u, from, x, h);
      }
    }
  }

  // ----- getAssetBalances -----

  /** The pair that getAssetBalances reports, -1 standing for a missing record. */
  ghost function Balances(t: seq<Asset>, key: nat, issuer: nat, name: nat, managing: nat): (b: (int, int))
    requires |t| > 0
  {
    var i := Locate(t, IssuanceId(issuer, name));
    if !t[i].Issuance? then (-1, -1) else
    var o := Locate(t, OwnershipId(key, managing, i));
    if !t[o].Ownership? then (-1, -1) else
    var p := Locate(t, PossessionId(key, managing, o));
    if !t[p].Possession? then (t[o].shares, -1) else (t[o].shares, t[p].shares)
  }

  /** The lookups of a balance query end, as far as they are made. */
  ghost predicate QueryEnds(t: seq<Asset>, key: nat, issuer: nat, name: nat, managing: nat)
    requires |t| > 0
  {
    var i := Locate(t, IssuanceId(issuer, name));
    var o := Locate(t, OwnershipId(key, managing, i));
    && CanProbe(t, IssuanceId(issuer, name))
    && (t[i].Issuance? ==> CanProbe(t, OwnershipId(key, managing, i)))
    && (t[i].Issuance? && t[o].Ownership? ==> CanProbe(t, PossessionId(key, managing, o)))
  }

  /** The ownership record that a balance query names. */
  ghost predicate OwnsAt(t: seq<Asset>, o: nat, key: nat, issuer: nat, name: nat, managing: nat) {
    && o < |t| && t[o].Ownership? && t[o].key == key && t[o].managing == managing
    && Linked(t, t[o]) && IdOf(t[t[o].issuance]) == IssuanceId(issuer, name)
  }

  lemma BalancesOfOwner(t: seq<Asset>, o: nat, key: nat, issuer: nat, name: nat, managing: nat)
    requires WellFormed(t) && QueryEnds(t, key, issuer, name, managing) && OwnsAt(t, o, key, issuer, name, managing)
    ensures var b := Balances(t, key, issuer, name, managing); var pid := PossessionId(key, managing, o);
      && b.0 == t[o].shares
      && (Holds(t, pid) ==>
            t[Locate(t, pid)].Possession? && IdOf(t[Locate(t, pid)]) == pid && b.1 == t[Locate(t, pid)].shares)
      && (!Holds(t, pid) ==> b.1 == -1)
  {
    LocateFinds(t, IssuanceId(issuer, name), t[o].issuance);
    LocateFinds(t, OwnershipId(key, managing, t[o].issuance), o);
    LocateDecides(t, PossessionId(key, managing, o));
  }

  lemma BalancesOfNobody(t: seq<Asset>, key: nat, issuer: nat, name: nat, managing: nat)
    requires WellFormed(t) && QueryEnds(t, key, issuer, name, managing)
    requires forall o: nat :: !OwnsAt(t, o, key, issuer, name, managing)
    ensures Balances(t, key, issuer, name, managing) == (-1, -1)
  {
    var i := Locate(t, IssuanceId(issuer, name));
    LocateDecides(t, IssuanceId(issuer, name));
    if t[i].Issuance? {
      var o := Locate(t, OwnershipId(key, managing, i));
      LocateDecides(t, OwnershipId(key, managing, i));
      assert !OwnsAt(t, o, key, issuer, name, managing);
    }
  }

  lemma {:induction false} SumMember(t: seq<Asset>, a: Account, p: nat)
    requires forall x :: 0 <= x < |t| ==> Weight(t[x], a) >= 0
    requires p < |t|
    ensures Sum(t, a) >= Weight(t[p], a) && Sum(t, a) >= 0
  {
    var n := |t| - 1;
    if p < n {
      SumMember(t[..n], a, p);
    } else if n > 0 {
      SumMember(t[..n], a, 0);
    }
  }

  lemma OwnsTraced(t: seq<Asset>, u: seq<Asset>, from: map<nat, nat>, x: nat, key: nat, issuer: nat, name: nat,
                   managing: nat)
    requires WellFormed(t) && WellFormed(u) && Traced(t, u, from) && x in from && u[x].Ownership?
    ensures OwnsAt(u, x, key, issuer, name, managing) <==> OwnsAt(t, from[x], key, issuer, name, managing)
  {
  }

  /** The balances of an owner who keeps a record. */
  lemma KeptOwnerBalances(t: seq<Asset>, u: seq<Asset>, from: map<nat, nat>, y: nat, key: nat, issuer: nat, name: nat,
                          managing: nat)
    requires Sound(t) && FullTrace(t, u, from)
    requires QueryEnds(t, key, issuer, name, managing) && QueryEnds(u, key, issuer, name, managing)
    requires y in from && OwnsAt(u, y, key, issuer, name, managing)
    ensures var b, c := Balances(t, key, issuer, name, managing), Balances(u, key, issuer, name, managing);
      c == (b.0, if b.1 > 0 then b.1 else -1) && b.0 > 0
  {
    OwnsTraced(t, u, from, y, key, issuer, name, managing);
    var o := from[y];
    BalancesOfOwner(t, o, key, issuer, name, managing);
    BalancesOfOwner(u, y, key, issuer, name, managing);
    var pid, pid' := PossessionId(key, managing, o), PossessionId(key, managing, y);
    if Holds(u, pid') {
      var x := Locate(u, pid');
      assert CameFrom(t, u, from, x);
      assert IdOf(t[from[x]]) == pid;
      LocateFinds(t, pid, from[x]);
    } else if Holds(t, pid) {
      var p := Locate(t, pid);
      if t[p].shares > 0 {
        assert Carried(t, p);
        var x :| x in from && from[x] == p;
        TraceIsExact(t, u, from, p, y, x);
      }
    }
  }

  /** An owner without a record in the new table owned nothing. */
  lemma DroppedOwnerBalances(t: seq<Asset>, u: seq<Asset>, from: map<nat, nat>, key: nat, issuer: nat, name: nat,
                             managing: nat)
    requires Sound(t) && FullTrace(t, u, from) && QueryEnds(t, key, issuer, name, managing)
    requires forall y: nat :: !OwnsAt(u, y, key, issuer, name, managing)
    ensures var b := Balances(t, key, issuer, name, managing); b.0 <= 0 && b.1 <= 0
  {
    if o: nat :| OwnsAt(t, o, key, issuer, name, managing) {
      BalancesOfOwner(t, o, key, issuer, name, managing);
      if t[o].shares > 0 {
        PositiveOwnershipTraced(t, u, from, o);
        var x :| x in from && from[x] == o;
        assert CameFrom(t, u, from, x);
        OwnsTraced(t, u, from, x, key, issuer, name, managing);
      }
      var pid := PossessionId(key, managing, o);
      if Holds(t, pid) {
        SumMember(t, OfOwnership(o), Locate(t, pid));
      }
    } else {
      BalancesOfNobody(t, key, issuer, name, managing);
    }
  }

  lemma EndsWithRoom(t: seq<Asset>, key: nat, issuer: nat, name: nat, managing: nat)
    requires WellFormed(t) && Free(t) > 0
    ensures QueryEnds(t, key, issuer, name, managing)
  {
    var i := Locate(t, IssuanceId(issuer, name));
    CanProbeWhen(t, IssuanceId(issuer, name));
    CanProbeWhen(t, OwnershipId(key, managing, i));
    CanProbeWhen(t, PossessionId(key, managing, Locate(t, OwnershipId(key, managing, i))));
  }

  /** A query that ended before the rebuild ends after it: a table that stays full keeps every record. */
  lemma QueryStillEnds(t: seq<Asset>, u: seq<Asset>, from: map<nat, nat>, key: nat, issuer: nat, name: nat,
                       managing: nat)
    requires WellFormed(t) && Partial(t, u, from, |t|) && QueryEnds(t, key, issuer, name, managing)
    ensures QueryEnds(u, key, issuer, name, managing)
  {
    if Free(u) > 0 {
      EndsWithRoom(u, key, issuer, name, managing);
    } else {
      TracedFitsIn(t, u, from);
      FullTableTraced(t, u, from);
      FullQueryEnds(t, u, from, key, issuer, name, managing);
    }
  }

  lemma FullTableTraced(t: seq<Asset>, u: seq<Asset>, from: map<nat, nat>)
    requires Traced(t, u, from) && Free(u) == 0
    ensures forall a :: 0 <= a < |t| && !t[a].Empty? ==> exists x :: x in from && from[x] == a
  {
    forall a | 0 <= a < |t| && !t[a].Empty?
      ensures exists x :: x in from && from[x] == a
    {
      if forall x :: x in from ==> from[x] != a {
        UntracedLeavesRoom(t, u, from, a);
      }
    }
  }

  /** With no room on either side, all three lookups find their records, here as there. */
  lemma FullQueryEnds(t: seq<Asset>, u: seq<Asset>, from: map<nat, nat>, key: nat, issuer: nat, name: nat,
                      managing: nat)
    requires WellFormed(t) && WellFormed(u) && Traced(t, u, from) && Free(t) == 0
    requires forall a :: 0 <= a < |t| && !t[a].Empty? ==> exists x :: x in from && from[x] == a
    requires QueryEnds(t, key, issuer, name, managing)
    ensures QueryEnds(u, key, issuer, name, managing)
  {
    var iid := IssuanceId(issuer, name);
    CanProbeWhen(t, iid);
    LocateDecides(t, iid);
    var i := Locate(t, iid);
    var x :| x in from && from[x] == i;
    TraceIsExact(t, u, from, i, 0, x);
    LocateFinds(u, iid, x);
    CanProbeWhen(u, iid);
    var oid, oid' := OwnershipId(key, managing, i), OwnershipId(key, managing, x);
    CanProbeWhen(t, oid);
    LocateDecides(t, oid);
    var o := Locate(t, oid);
    var y :| y in from && from[y] == o;
    TraceIsExact(t, u, from, o, x, y);
    LocateFinds(u, oid', y);
    CanProbeWhen(u, oid');
    var pid, pid' := PossessionId(key, managing, o), PossessionId(key, managing, y);
    CanProbeWhen(t, pid);
    LocateDecides(t, pid);
    var p := Locate(t, pid);
    var z :| z in from && from[z] == p;
    TraceIsExact(t, u, from, p, y, z);
    CanProbeWhen(u, pid');
  }

  /** Positive answers of getAssetBalances survive the rebuild; all other answers become "no record". */
  lemma EndEpochKeepsBalances(t: seq<Asset>, key: nat, issuer: nat, name: nat, managing: nat)
    requires Sound(t) && QueryEnds(t, key, issuer, name, managing)
    ensures QueryEnds(EndEpoch(t), key, issuer, name, managing)
    ensures var b, c := Balances(t, key, issuer, name, managing), Balances(EndEpoch(t), key, issuer, name, managing);
      c == (if b.0 > 0 then b.0 else -1, if b.1 > 0 then b.1 else -1)
  {
    var u := EndEpoch(t);
    EndEpochKeeps(t);
    var from := EndEpochTrace(t);
    QueryStillEnds(t, u, from, key, issuer, name, managing);
    if y: nat :| OwnsAt(u, y, key, issuer, name, managing) {
      KeptOwnerBalances(t, u, from, y, key, issuer, name, managing);
    } else {
      BalancesOfNobody(u, key, issuer, name, managing);
      DroppedOwnerBalances(t, u, from, key, issuer, name, managing);
    }
  }
}
