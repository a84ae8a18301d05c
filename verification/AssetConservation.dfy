/**
 What the asset operations conserve: an ownership record always holds the sum of its
 possession records, and the total of an asset changes only by issuing or burning.
 */
module AssetConservation {
  import opened AssetTable
  import opened AssetLedger

  /** What every operation keeps. */
  ghost predicate Sound(t: seq<Asset>) {
    WellFormed(t) && Balanced(t) && NonNegative(t)
  }

  /** All shares of an asset, over every owner and managing contract. */
  ghost function Total(t: seq<Asset>, issuer: nat, name: nat): int {
    if Holds(t, IssuanceId(issuer, name)) then
      var i :| 0 <= i < |t| && IdOf(t[i]) == IssuanceId(issuer, name);
      Sum(t, OfIssuance(i))
    else 0
  }

  lemma {:induction false} TotalAt(t: seq<Asset>, i: nat)
    requires WellFormed(t) && i < |t| && t[i].Issuance?
    ensures Total(t, t[i].key, t[i].name) == Sum(t, OfIssuance(i))
  {
  }

  /** Totals carry over when issuance records stay where they are. */
  lemma {:induction false} TotalsCarryOver(t: seq<Asset>, u: seq<Asset>, issuer: nat, name: nat, change: int)
    requires WellFormed(t) && WellFormed(u) && |u| == |t|
    requires forall x :: 0 <= x < |t| ==> (t[x].Issuance? || u[x].Issuance? ==> IdOf(u[x]) == IdOf(t[x]))
    requires forall x :: 0 <= x < |t| && IdOf(t[x]) == IssuanceId(issuer, name) ==>
               Sum(u, OfIssuance(x)) == Sum(t, OfIssuance(x)) + change
    requires change != 0 ==> Holds(t, IssuanceId(issuer, name))
    ensures Total(u, issuer, name) == Total(t, issuer, name) + change
  {
  }

  // ----- Moving shares -----

  lemma {:induction false} MoveKeepsBalance(t: seq<Asset>, so: nat, sp: nat, oid: Id, pid: Id, n: int, u: seq<Asset>,
                                            dOwn: nat, dPos: nat)
    requires Balanced(t) && NonNegative(t) && so < |t| && sp < |t| && CanMove(t, so, sp, n)
    requires oid.OwnershipId? && pid.PossessionId?
    requires MoveEffect(t, so, sp, oid, pid, n, u, dOwn, dPos)
    requires t[dOwn].Empty? ==> Sum(t, OfOwnership(dOwn)) == 0
    ensures Balanced(u) && NonNegative(u)
  {
  }

  lemma MoveConserves(t: seq<Asset>, so: nat, sp: nat, oid: Id, pid: Id, n: int, u: seq<Asset>, dOwn: nat, dPos: nat)
    requires Sound(t) && WellFormed(u) && so < |t| && sp < |t| && CanMove(t, so, sp, n)
    requires oid.OwnershipId? && pid.PossessionId? && pid.ownership == dOwn
    requires MoveEffect(t, so, sp, oid, pid, n, u, dOwn, dPos)
    ensures Balanced(u) && NonNegative(u)
    ensures SameManager(t) && oid.managing == pid.managing ==> SameManager(u)
    ensures forall issuer, name :: Total(u, issuer, name) == Total(t, issuer, name)
  {
    if t[dOwn].Empty? { SumAtEmptySlot(t, dOwn); }
    MoveKeepsBalance(t, so, sp, oid, pid, n, u, dOwn, dPos);
    if SameManager(t) && oid.managing == pid.managing {
      MoveKeepsManagers(t, so, sp, oid, pid, n, u, dOwn, dPos);
    }
    MoveKeepsTotals(t, so, sp, oid, pid, n, u, dOwn, dPos);
  }

  lemma MoveKeepsTotals(t: seq<Asset>, so: nat, sp: nat, oid: Id, pid: Id, n: int, u: seq<Asset>, dOwn: nat, dPos: nat)
    requires WellFormed(t) && WellFormed(u) && so < |t| && sp < |t| && CanMove(t, so, sp, n)
    requires oid.OwnershipId? && pid.PossessionId?
    requires MoveEffect(t, so, sp, oid, pid, n, u, dOwn, dPos)
    ensures forall issuer, name :: Total(u, issuer, name) == Total(t, issuer, name)
  {
    forall x | 0 <= x < |t| && (t[x].Issuance? || u[x].Issuance?)
      ensures IdOf(u[x]) == IdOf(t[x])
    {
      assert x != so && x != sp && x != dOwn && x != dPos;
    }
    forall issuer, name
      ensures Total(u, issuer, name) == Total(t, issuer, name)
    {
      TotalsCarryOver(t, u, issuer, name, 0);
    }
  }

  lemma MoveKeepsManagers(t: seq<Asset>, so: nat, sp: nat, oid: Id, pid: Id, n: int, u: seq<Asset>, dOwn: nat,
                          dPos: nat)
    requires WellFormed(t) && SameManager(t) && WellFormed(u) && so < |t| && sp < |t| && CanMove(t, so, sp, n)
    requires oid.OwnershipId? && pid.PossessionId? && pid.ownership == dOwn && oid.managing == pid.managing
    requires MoveEffect(t, so, sp, oid, pid, n, u, dOwn, dPos)
    ensures SameManager(u)
  {
    forall p | 0 <= p < |u| && u[p].Possession?
      ensures u[p].ownership < |u| && u[u[p].ownership].Ownership? && u[p].managing == u[u[p].ownership].managing
    {
      assert Linked(u, u[p]);
      if p != dPos {
        assert IdOf(u[p]) == IdOf(t[p]);
        assert Linked(t, t[p]);
        var o := t[p].ownership;
        assert IdOf(u[o]) == IdOf(t[o]);
      }
    }
  }

  lemma BurnConserves(t: seq<Asset>, so: nat, sp: nat, n: int)
    requires Sound(t) && so < |t| && sp < |t| && CanMove(t, so, sp, n)
    ensures var u := Burn(t, so, sp, n); Sound(u) && Free(u) == Free(t) && (SameManager(t) ==> SameManager(u))
    ensures Linked(t, t[so])
    ensures var u := Burn(t, so, sp, n); var i := t[t[so].issuance];
      forall issuer, name :: Total(u, issuer, name)
        == Total(t, issuer, name) - (if issuer == i.key && name == i.name then n else 0)
  {
    var u := Burn(t, so, sp, n);
    var t1 := AddShares(t, so, -n);
    assert SameRecords(t, t1) && SameRecords(t1, u);
    assert SameRecords(t, u);
    SameRecordsKeepsWellFormed(t, u);
    assert Linked(t, t[so]);
    forall c
      ensures Sum(u, c) == Sum(t, c) - (if Counts(t[so], c) then n else 0) - (if Counts(t[sp], c) then n else 0)
    {
      SumUpdate(t, so, t1[so], c);
      SumUpdate(t1, sp, u[sp], c);
    }
    forall o | 0 <= o < |u| && u[o].Ownership?
      ensures u[o].shares == Sum(u, OfOwnership(o))
    {
      assert t[o].Ownership?;
    }
    if SameManager(t) { SameRecordsKeepsManagers(t, u); }
    var i := t[t[so].issuance];
    forall issuer, name
      ensures Total(u, issuer, name) == Total(t, issuer, name) - (if issuer == i.key && name == i.name then n else 0)
    {
      var change := if issuer == i.key && name == i.name then -n else 0;
      assert IdOf(i) == IssuanceId(i.key, i.name);
      TotalsCarryOver(t, u, issuer, name, change);
    }
  }

  lemma SameRecordsKeepsManagers(t: seq<Asset>, u: seq<Asset>)
    requires WellFormed(t) && SameRecords(t, u) && SameManager(t)
    ensures SameManager(u)
  {
  }

  // ----- Issuing -----

  lemma {:induction false} IssueSums(t: seq<Asset>, issuer: nat, name: nat, decimals: int, unit: seq<int>,
                                     shares: int, managing: nat, u: seq<Asset>, i: nat, o: nat, p: nat, c: Account)
    requires IssueEffect(t, issuer, name, decimals, unit, shares, managing, u, i, o, p)
    ensures Sum(u, c) == Sum(t, c) + (if c == OfIssuance(i) || c == OfOwnership(o) then shares else 0)
  {
    var t1 := t[i := Issuance(issuer, name, decimals, unit)];
    var t2 := t1[o := Ownership(issuer, managing, i, shares)];
    SumUpdate(t, i, t1[i], c);
    SumUpdate(t1, o, t2[o], c);
    SumUpdate(t2, p, u[p], c);
  }

  lemma IssueShape(t: seq<Asset>, issuer: nat, name: nat, decimals: int, unit: seq<int>, shares: int, managing: nat,
                   u: seq<Asset>, i: nat, o: nat, p: nat)
    requires IssueEffect(t, issuer, name, decimals, unit, shares, managing, u, i, o, p)
    ensures |u| == |t| && i < |t| && o < |t| && p < |t| && i != o && i != p
    ensures t[i].Empty? && t[o].Empty? && t[p].Empty?
    ensures IdOf(u[i]) == IssuanceId(issuer, name)
    ensures u[o].Ownership? && u[o].shares == shares && u[o].managing == managing
    ensures u[p].Possession? && u[p].shares == shares && u[p].managing == managing && u[p].ownership == o
    ensures forall x :: 0 <= x < |t| && x != i && x != o && x != p ==> u[x] == t[x]
  {
  }

  lemma IssueConserves(t: seq<Asset>, issuer: nat, name: nat, decimals: int, unit: seq<int>, shares: int, managing: nat,
                       u: seq<Asset>, i: nat, o: nat, p: nat)
    requires Sound(t) && WellFormed(u) && shares >= 0 && !Holds(t, IssuanceId(issuer, name))
    requires IssueEffect(t, issuer, name, decimals, unit, shares, managing, u, i, o, p)
    ensures Sound(u) && (SameManager(t) ==> SameManager(u))
    ensures forall k, m :: Total(u, k, m) == Total(t, k, m) + (if k == issuer && m == name then shares else 0)
  {
    hide Sum, WellFormed, SameManager, Total, Balanced, NonNegative, Holds, IssueEffect;
    forall c
      ensures Sum(u, c) == Sum(t, c) + (if c == OfIssuance(i) || c == OfOwnership(o) then shares else 0)
    {
      IssueSums(t, issuer, name, decimals, unit, shares, managing, u, i, o, p, c);
    }
    IssueShape(t, issuer, name, decimals, unit, shares, managing, u, i, o, p);
    SumAtEmptySlot(t, o);
    SumAtEmptySlot(t, i);
    IssueKeepsBalance(t, u, i, o, p, shares);
    if SameManager(t) { IssueKeepsManagers(t, u, i, o, p); }
    forall k, m
      ensures Total(u, k, m) == Total(t, k, m) + (if k == issuer && m == name then shares else 0)
    {
      IssueTotal(t, issuer, name, u, i, o, p, shares, k, m);
    }
  }

  lemma {:induction false} IssueKeepsBalance(t: seq<Asset>, u: seq<Asset>, i: nat, o: nat, p: nat, shares: int)
    requires Balanced(t) && NonNegative(t) && shares >= 0 && |u| == |t| && i < |t| && o < |t| && p < |t|
    requires u[i].Issuance? && u[o].Ownership? && u[o].shares == shares && u[p].Possession? && u[p].shares == shares
    requires forall x :: 0 <= x < |t| && x != i && x != o && x != p ==> u[x] == t[x]
    requires forall x: nat :: Sum(u, OfOwnership(x)) == Sum(t, OfOwnership(x)) + (if x == o then shares else 0)
    requires Sum(t, OfOwnership(o)) == 0
    ensures Balanced(u) && NonNegative(u)
  {
    hide Sum;
  }

  lemma IssueKeepsManagers(t: seq<Asset>, u: seq<Asset>, i: nat, o: nat, p: nat)
    requires WellFormed(t) && SameManager(t) && |u| == |t| && i < |t| && o < |t| && p < |t|
    requires t[i].Empty? && t[o].Empty? && t[p].Empty? && u[i].Issuance? && u[o].Ownership?
    requires u[p].Possession? && u[p].ownership == o && u[p].managing == u[o].managing
    requires forall x :: 0 <= x < |t| && x != i && x != o && x != p ==> u[x] == t[x]
    ensures SameManager(u)
  {
  }

  lemma {:induction false} IssueTotal(t: seq<Asset>, issuer: nat, name: nat, u: seq<Asset>, i: nat, o: nat, p: nat,
                                      shares: int, k: nat, m: nat)
    requires WellFormed(t) && WellFormed(u) && |u| == |t| && !Holds(t, IssuanceId(issuer, name))
    requires i < |t| && o < |t| && p < |t| && i != o && i != p && t[i].Empty? && t[o].Empty? && t[p].Empty?
    requires IdOf(u[i]) == IssuanceId(issuer, name) && u[o].Ownership? && u[p].Possession?
    requires forall x :: 0 <= x < |t| && x != i && x != o && x != p ==> u[x] == t[x]
    requires forall x :: 0 <= x < |t| ==>
        Sum(u, OfIssuance(x)) == Sum(t, OfIssuance(x)) + (if x == i then shares else 0)
    requires Sum(t, OfIssuance(i)) == 0
    ensures Total(u, k, m) == Total(t, k, m) + (if k == issuer && m == name then shares else 0)
  {
    if k == issuer && m == name {
      TotalAt(u, i);
    } else if x :| 0 <= x < |t| && IdOf(t[x]) == IssuanceId(k, m) {
      assert u[x] == t[x];
      TotalAt(t, x);
      TotalAt(u, x);
    } else {
      assert forall x :: 0 <= x < |u| ==> IdOf(u[x]) != IssuanceId(k, m);
    }
  }
}
