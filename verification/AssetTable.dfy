/**
 The universe: one open-addressed array holding issuance, ownership and possession
 records that refer to each other by slot index (Asset.h).
 */
module AssetTable {
  import opened Probing

  /** A slot. An unused slot is all zero bytes, so it carries no fields. */
  datatype Asset =
    | Empty
    | Issuance(key: nat, name: nat, decimals: int, unit: seq<int>)
    | Ownership(key: nat, managing: nat, issuance: nat, shares: int)
    | Possession(key: nat, managing: nat, ownership: nat, shares: int)

  /** What the probe loops compare: the logical identity of a record. */
  datatype Id =
    | NoId
    | IssuanceId(key: nat, name: nat)
    | OwnershipId(key: nat, managing: nat, issuance: nat)
    | PossessionId(key: nat, managing: nat, ownership: nat)

  function IdOf(r: Asset): Id {
    match r
    case Empty => NoId
    case Issuance(key, name, _, _) => IssuanceId(key, name)
    case Ownership(key, managing, issuance, _) => OwnershipId(key, managing, issuance)
    case Possession(key, managing, ownership, _) => PossessionId(key, managing, ownership)
  }

  /** Stop at an unused slot or at the record with this identity. */
  function StopAt(id: Id): Asset -> bool {
    (r: Asset) => r.Empty? || IdOf(r) == id
  }

  /** The possession search of the seven-argument transfer, which ignores the managing contract. */
  function StopAtPossessor(key: nat, ownership: nat): Asset -> bool {
    (r: Asset) => r.Empty? || (r.Possession? && r.ownership == ownership && r.key == key)
  }

  // ----- Well-formedness -----

  /** No unused slot between the slot that a key hashes to and slot p. */
  ghost predicate Reaches(t: seq<Asset>, key: nat, p: nat)
    requires |t| > 0
  {
    forall x :: 0 <= x < |t| && InArc(Home(key, |t|), x, p) ==> !t[x].Empty?
  }

  /** Every link of a record leads to a record of the right kind. */
  predicate Linked(t: seq<Asset>, r: Asset) {
    match r
    case Ownership(_, _, issuance, _) => issuance < |t| && t[issuance].Issuance?
    case Possession(_, _, ownership, _) => ownership < |t| && t[ownership].Ownership?
    case _ => true
  }

  ghost predicate Unique(t: seq<Asset>) {
    forall p, q :: 0 <= p < |t| && 0 <= q < |t| && !t[p].Empty? && IdOf(t[p]) == IdOf(t[q]) ==> p == q
  }

  ghost predicate WellFormed(t: seq<Asset>) {
    && |t| > 0
    && (forall p :: 0 <= p < |t| && !t[p].Empty? ==> Reaches(t, t[p].key, p))
    && (forall p :: 0 <= p < |t| ==> Linked(t, t[p]))
    && Unique(t)
  }

  // ----- Unused slots -----

  ghost function FreeSlots(t: seq<Asset>): (s: set<nat>) {
    set x: nat | x < |t| && t[x].Empty?
  }

  ghost function Free(t: seq<Asset>): (n: nat) {
    |FreeSlots(t)|
  }

  lemma FreeHasStop(t: seq<Asset>, stops: Asset -> bool)
    requires Free(t) > 0 && stops(Empty)
    ensures HasStop(t, stops)
  {
  }

  lemma PutTakesOne(t: seq<Asset>, p: nat, r: Asset)
    requires p < |t| && t[p].Empty? && !r.Empty?
    ensures Free(t[p := r]) == Free(t) - 1
  {
    assert p in FreeSlots(t);
    assert FreeSlots(t[p := r]) == FreeSlots(t) - {p};
  }

  // ----- Lookups -----

  /** Where the probe for a record's identity ends. */
  ghost function Locate(t: seq<Asset>, id: Id): (p: nat)
    requires |t| > 0 && id != NoId
    ensures p < |t|
  {
    Probe(t, Home(id.key, |t|), StopAt(id))
  }

  ghost predicate Holds(t: seq<Asset>, id: Id) {
    exists x :: 0 <= x < |t| && IdOf(t[x]) == id
  }

  /** The probe for this identity ends: an unused slot, or the record itself, stops it. */
  ghost predicate CanProbe(t: seq<Asset>, id: Id) {
    HasStop(t, StopAt(id))
  }

  lemma CanProbeStops(t: seq<Asset>, id: Id)
    requires CanProbe(t, id)
    ensures HasStop(t, StopAt(id))
  {
  }

  lemma CanProbeWhen(t: seq<Asset>, id: Id)
    requires id != NoId
    ensures CanProbe(t, id) <==> Free(t) > 0 || Holds(t, id)
  {
    if e :| 0 <= e < |t| && StopAt(id)(t[e]) {
      if t[e].Empty? { assert e in FreeSlots(t); }
    }
    if Free(t) > 0 { FreeHasStop(t, StopAt(id)); }
    if x :| 0 <= x < |t| && IdOf(t[x]) == id { assert StopAt(id)(t[x]); }
  }

  /** A probe that ends on an unused slot proves that the record is nowhere in the table. */
  lemma LocateDecides(t: seq<Asset>, id: Id)
    requires WellFormed(t) && id != NoId && CanProbe(t, id)
    ensures IsFirst(t, Home(id.key, |t|), StopAt(id), Locate(t, id))
    ensures t[Locate(t, id)].Empty? <==> !Holds(t, id)
    ensures !t[Locate(t, id)].Empty? <==> IdOf(t[Locate(t, id)]) == id
    ensures Reaches(t, id.key, Locate(t, id))
  {
    ProbeIsFirst(t, Home(id.key, |t|), StopAt(id));
    var p := Locate(t, id);
    forall x | 0 <= x < |t| && IdOf(t[x]) == id
      ensures !t[p].Empty?
    {
      assert Reaches(t, t[x].key, x);
      ArcCovers(Home(t[x].key, |t|), x, p);
    }
  }

  /** The record that a lookup finds is the only one with that identity. */
  lemma LocateFinds(t: seq<Asset>, id: Id, x: nat)
    requires WellFormed(t) && id != NoId
    requires x < |t| && IdOf(t[x]) == id
    ensures Locate(t, id) == x
  {
    assert StopAt(id)(t[x]);
    LocateDecides(t, id);
  }

  // ----- The two ways a table changes -----

  /** Filling an unused slot that the probe of the new record reaches. */
  lemma PutKeepsWellFormed(t: seq<Asset>, p: nat, r: Asset)
    requires WellFormed(t) && p < |t| && t[p].Empty? && !r.Empty?
    requires Reaches(t, r.key, p)
    requires Linked(t, r)
    requires !Holds(t, IdOf(r))
    ensures WellFormed(t[p := r])
  {
  }

  /** The record with another share count. */
  function WithShares(r: Asset, shares: int): Asset
    requires r.Ownership? || r.Possession?
  {
    match r
    case Ownership(key, managing, issuance, _) => Ownership(key, managing, issuance, shares)
    case Possession(key, managing, ownership, _) => Possession(key, managing, ownership, shares)
  }

  /** The table with the share count of slot p moved by delta. */
  function AddShares(t: seq<Asset>, p: nat, delta: int): (u: seq<Asset>)
    requires p < |t| && (t[p].Ownership? || t[p].Possession?)
    ensures |u| == |t|
    ensures forall x :: 0 <= x < |t| ==> IdOf(u[x]) == IdOf(t[x])
  {
    t[p := WithShares(t[p], t[p].shares + delta)]
  }

  /** Tables that differ in share counts only. */
  ghost predicate SameRecords(t: seq<Asset>, u: seq<Asset>) {
    |u| == |t| && forall x :: 0 <= x < |t| ==> IdOf(u[x]) == IdOf(t[x])
  }

  lemma SameRecordsKeepsWellFormed(t: seq<Asset>, u: seq<Asset>)
    requires WellFormed(t) && SameRecords(t, u)
    ensures WellFormed(u) && Free(u) == Free(t)
  {
    forall p | 0 <= p < |u|
      ensures Linked(u, u[p])
    {
      assert Linked(t, t[p]);
      if u[p].Ownership? { assert IdOf(t[u[p].issuance]) == IdOf(u[u[p].issuance]); }
      if u[p].Possession? { assert IdOf(t[u[p].ownership]) == IdOf(u[u[p].ownership]); }
    }
    forall p | 0 <= p < |u| && !u[p].Empty?
      ensures Reaches(u, u[p].key, p)
    {
      assert IdOf(u[p]) == IdOf(t[p]);
      assert Reaches(t, t[p].key, p);
      forall x | 0 <= x < |u| && InArc(Home(u[p].key, |u|), x, p)
        ensures !u[x].Empty?
      {
        assert IdOf(u[x]) == IdOf(t[x]);
      }
    }
    assert FreeSlots(u) == FreeSlots(t) by {
      assert forall x :: 0 <= x < |t| ==> (t[x].Empty? <==> IdOf(t[x]) == NoId);
      assert forall x :: 0 <= x < |t| ==> (u[x].Empty? <==> IdOf(u[x]) == NoId);
    }
  }

  lemma SameRecordsKeepsProbes(t: seq<Asset>, u: seq<Asset>, id: Id)
    requires SameRecords(t, u) && CanProbe(t, id)
    ensures CanProbe(u, id)
  {
    var e :| 0 <= e < |t| && StopAt(id)(t[e]);
    assert IdOf(u[e]) == IdOf(t[e]) && StopAt(id)(u[e]);
  }

  // ----- Sums of shares -----

  /** Records whose shares are counted together. */
  datatype Account = OfOwnership(slot: nat) | OfIssuance(slot: nat)

  predicate Counts(r: Asset, a: Account) {
    match a
    case OfOwnership(slot) => r.Possession? && r.ownership == slot
    case OfIssuance(slot) => r.Ownership? && r.issuance == slot
  }

  function Weight(r: Asset, a: Account): int {
    if Counts(r, a) then r.shares else 0
  }

  /** Total shares of the records counted by an account. */
  ghost function Sum(t: seq<Asset>, a: Account): int {
    if t == [] then 0 else Sum(t[..|t| - 1], a) + Weight(t[|t| - 1], a)
  }

  lemma {:induction false} SumUpdate(t: seq<Asset>, p: nat, r: Asset, a: Account)
    requires p < |t|
    ensures Sum(t[p := r], a) == Sum(t, a) - Weight(t[p], a) + Weight(r, a)
  {
    var n := |t| - 1;
    if p == n {
      assert t[p := r][..n] == t[..n];
    } else {
      assert t[p := r][..n] == t[..n][p := r];
      SumUpdate(t[..n], p, r, a);
    }
  }

  lemma {:induction false} SumOfNothing(t: seq<Asset>, a: Account)
    requires forall x :: 0 <= x < |t| ==> !Counts(t[x], a)
    ensures Sum(t, a) == 0
  {
    if t != [] {
      SumOfNothing(t[..|t| - 1], a);
    }
  }

  /** Nothing is counted toward an unused slot. */
  lemma {:induction false} SumAtEmptySlot(t: seq<Asset>, p: nat)
    requires WellFormed(t) && p < |t| && t[p].Empty?
    ensures Sum(t, OfOwnership(p)) == 0 && Sum(t, OfIssuance(p)) == 0
  {
    assert forall x :: 0 <= x < |t| ==> Linked(t, t[x]);
    SumOfNothing(t, OfOwnership(p));
    SumOfNothing(t, OfIssuance(p));
  }

  /** Every ownership record holds exactly the shares of its possession records. */
  ghost predicate Balanced(t: seq<Asset>) {
    forall o :: 0 <= o < |t| && t[o].Ownership? ==> t[o].shares == Sum(t, OfOwnership(o))
  }

  ghost predicate NonNegative(t: seq<Asset>) {
    forall p :: 0 <= p < |t| && (t[p].Ownership? || t[p].Possession?) ==> t[p].shares >= 0
  }

  /** A possession record and its ownership record have the same managing contract. */
  ghost predicate SameManager(t: seq<Asset>) {
    forall p :: 0 <= p < |t| && t[p].Possession? && t[p].ownership < |t| && t[t[p].ownership].Ownership? ==>
      t[p].managing == t[t[p].ownership].managing
  }
}
