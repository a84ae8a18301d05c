/**
 The operations of Asset.h as functions on the table, and what each of them keeps.
 The methods of class Universe are proved equal to these functions.
 */
module AssetLedger {
  import opened Probing
  import opened AssetTable

  /** A new table, the slots whose change flags were raised, and the returned value. */
  datatype Change<R> = Change(table: seq<Asset>, touched: seq<nat>, result: R)

  // ----- issueAsset -----

  ghost function Issue(t: seq<Asset>, issuer: nat, name: nat, decimals: int, unit: seq<int>, shares: int, managing: nat)
    : (c: Change<int>)
    requires |t| > 0
    ensures |c.table| == |t|
    ensures forall x :: x in c.touched ==> x < |t|
  {
    var i := Locate(t, IssuanceId(issuer, name));
    if !t[i].Empty? then
      Change(t, [], 0)
    else
      var t1 := t[i := Issuance(issuer, name, decimals, unit)];
      var o := Probe(t1, Next(i, |t|), StopAt(NoId));
      var t2 := t1[o := Ownership(issuer, managing, i, shares)];
      var p := Probe(t2, Next(o, |t|), StopAt(NoId));
      Change(t2[p := Possession(issuer, managing, o, shares)], [i, o, p], shares)
  }

  /** An issuance ends at the record of the same asset, or fills three unused slots. */
  ghost predicate IssueEnds(t: seq<Asset>, issuer: nat, name: nat) {
    Holds(t, IssuanceId(issuer, name)) || Free(t) >= 3
  }

  /** The probe for an unused slot that continues from a slot already reached from home. */
  lemma ProbeOnward(t: seq<Asset>, key: nat, from: nat)
    requires |t| > 0 && from < |t| && Free(t) > 0 && !t[from].Empty? && Reaches(t, key, from)
    ensures var p := Probe(t, Next(from, |t|), StopAt(NoId)); t[p].Empty? && Reaches(t, key, p)
  {
    FreeHasStop(t, StopAt(NoId));
    var h := Home(key, |t|);
    var s := Next(from, |t|);
    ProbeIsFirst(t, s, StopAt(NoId));
    var p := Probe(t, s, StopAt(NoId));
    forall x | 0 <= x < |t| && InArc(h, x, p)
      ensures !t[x].Empty?
    {
      assert InArc(h, x, from) || x == from || InArc(s, x, p) || InArc(h, p, from);
    }
  }

  /** A record whose link points at a slot that nothing links to yet is new. */
  lemma FreshOwnership(t: seq<Asset>, i: nat, r: Asset, key: nat, managing: nat)
    requires WellFormed(t) && i < |t| && t[i].Empty? && r.Issuance?
    ensures !Holds(t[i := r], OwnershipId(key, managing, i))
  {
  }

  lemma FreshPossession(t: seq<Asset>, o: nat, r: Asset, key: nat, managing: nat)
    requires WellFormed(t) && o < |t| && t[o].Empty? && r.Ownership?
    ensures !Holds(t[o := r], PossessionId(key, managing, o))
  {
  }

  /** One insertion of issueAsset: the probe goes on from a slot that the key already reaches. */
  lemma PutOnward(t: seq<Asset>, from: nat, r: Asset)
    requires WellFormed(t) && Free(t) > 0 && !r.Empty? && from < |t| && !t[from].Empty? && Reaches(t, r.key, from)
    requires Linked(t, r) && !Holds(t, IdOf(r))
    ensures var p := Probe(t, Next(from, |t|), StopAt(NoId));
      t[p].Empty? && WellFormed(t[p := r]) && Free(t[p := r]) == Free(t) - 1 && Reaches(t[p := r], r.key, p)
  {
    ProbeOnward(t, r.key, from);
    var p := Probe(t, Next(from, |t|), StopAt(NoId));
    PutKeepsWellFormed(t, p, r);
    PutTakesOne(t, p, r);
  }

  /** issueAsset keeps the table well formed although two of its probes do not start at the home slot. */
  lemma IssueKeepsWellFormed(t: seq<Asset>, issuer: nat, name: nat, decimals: int, unit: seq<int>, shares: int,
                             managing: nat)
    requires WellFormed(t) && IssueEnds(t, issuer, name)
    ensures var c := Issue(t, issuer, name, decimals, unit, shares, managing);
      && WellFormed(c.table)
      && Free(c.table) == Free(t) - |c.touched|
      && (Holds(t, IssuanceId(issuer, name)) ==> c == Change(t, [], 0))
      && (!Holds(t, IssuanceId(issuer, name)) ==>
            && |c.touched| == 3
            && c.result == shares
            && IssueEffect(t, issuer, name, decimals, unit, shares, managing, c.table, c.touched[0], c.touched[1],
                c.touched[2]))
  {
    CanProbeWhen(t, IssuanceId(issuer, name));
    LocateDecides(t, IssuanceId(issuer, name));
    var i := Locate(t, IssuanceId(issuer, name));
    if t[i].Empty? {
      var iss := Issuance(issuer, name, decimals, unit);
      PutKeepsWellFormed(t, i, iss);
      PutTakesOne(t, i, iss);
      FreshOwnership(t, i, iss, issuer, managing);
      var t1 := t[i := iss];
      var own := Ownership(issuer, managing, i, shares);
      PutOnward(t1, i, own);
      var o := Probe(t1, Next(i, |t|), StopAt(NoId));
      FreshPossession(t1, o, own, issuer, managing);
      PutOnward(t1[o := own], o, Possession(issuer, managing, o, shares));
    }
  }

  /** Three unused slots now hold the linked records of the new asset; nothing else changed. */
  ghost predicate IssueEffect(t: seq<Asset>, issuer: nat, name: nat, decimals: int, unit: seq<int>, shares: int,
                              managing: nat,
                              u: seq<Asset>, i: nat, o: nat, p: nat)
  {
    && i < |t| && o < |t| && p < |t| && i != o && o != p && i != p
    && t[i].Empty? && t[o].Empty? && t[p].Empty?
    && u == t[i := Issuance(issuer, name, decimals, unit)]
             [o := Ownership(issuer, managing, i, shares)]
             [p := Possession(issuer, managing, o, shares)]
  }

  // ----- Find or create, then move shares -----

  /** A record with the given identity and no shares. */
  function Blank(id: Id): Asset
    requires id.OwnershipId? || id.PossessionId?
  {
    match id
    case OwnershipId(key, managing, issuance) => Ownership(key, managing, issuance, 0)
    case PossessionId(key, managing, ownership) => Possession(key, managing, ownership, 0)
  }

  /** The table after making sure that the identity has a record. */
  ghost function Open(t: seq<Asset>, id: Id): (u: seq<Asset>)
    requires |t| > 0 && (id.OwnershipId? || id.PossessionId?)
    ensures |u| == |t|
  {
    var d := Locate(t, id);
    if t[d].Empty? then t[d := Blank(id)] else t
  }

  lemma {:induction false} OpenKeeps(t: seq<Asset>, id: Id)
    requires WellFormed(t) && CanProbe(t, id) && (id.OwnershipId? || id.PossessionId?) && Linked(t, Blank(id))
    ensures var u := Open(t, id); var d := Locate(t, id);
      && WellFormed(u)
      && Free(u) >= Free(t) - 1
      && IdOf(u[d]) == id
      && (forall x :: 0 <= x < |t| && x != d ==> u[x] == t[x])
      && (t[d].Empty? ==> u[d] == Blank(id))
      && (!t[d].Empty? ==> u[d] == t[d])
      && (forall a :: Sum(u, a) == Sum(t, a))
  {
    LocateDecides(t, id);
    var d := Locate(t, id);
    if t[d].Empty? {
      PutKeepsWellFormed(t, d, Blank(id));
      PutTakesOne(t, d, Blank(id));
      forall a
        ensures Sum(Open(t, id), a) == Sum(t, a)
      {
        SumUpdate(t, d, Blank(id), a);
      }
    }
  }

  /** n shares leave slot a and arrive at slot b; the slots may coincide. */
  function Shift(t: seq<Asset>, a: nat, b: nat, n: int): (u: seq<Asset>)
    requires a < |t| && b < |t|
    requires (t[a].Ownership? || t[a].Possession?) && (t[b].Ownership? || t[b].Possession?)
    ensures |u| == |t|
  {
    AddShares(AddShares(t, a, -n), b, n)
  }

  lemma {:induction false} ShiftSum(t: seq<Asset>, a: nat, b: nat, n: int, c: Account)
    requires a < |t| && b < |t|
    requires (t[a].Ownership? || t[a].Possession?) && (t[b].Ownership? || t[b].Possession?)
    ensures Sum(Shift(t, a, b, n), c)
         == Sum(t, c) - (if Counts(t[a], c) then n else 0) + (if Counts(t[b], c) then n else 0)
  {
    var t1 := AddShares(t, a, -n);
    var u := AddShares(t1, b, n);
    SumUpdate(t, a, t1[a], c);
    SumUpdate(t1, b, u[b], c);
  }

  lemma ShiftKeeps(t: seq<Asset>, a: nat, b: nat, n: int)
    requires WellFormed(t) && a < |t| && b < |t|
    requires (t[a].Ownership? || t[a].Possession?) && (t[b].Ownership? || t[b].Possession?)
    ensures var u := Shift(t, a, b, n);
      && SameRecords(t, u) && WellFormed(u) && Free(u) == Free(t)
      && (forall x :: 0 <= x < |t| && x != a && x != b ==> u[x] == t[x])
      && u[a].shares == t[a].shares - n + (if a == b then n else 0)
      && u[b].shares == t[b].shares + n - (if a == b then n else 0)
  {
    var t1 := AddShares(t, a, -n);
    var u := AddShares(t1, b, n);
    assert SameRecords(t, t1) && SameRecords(t1, u);
    assert SameRecords(t, u);
    SameRecordsKeepsWellFormed(t, u);
  }

  /** n shares leave slot src for the record with identity id, which is created if it is missing. */
  ghost function Send(t: seq<Asset>, src: nat, id: Id, n: int): (u: seq<Asset>)
    requires WellFormed(t) && CanProbe(t, id) && src < |t| && (id.OwnershipId? || id.PossessionId?)
    requires Linked(t, Blank(id))
    requires t[src].Ownership? || t[src].Possession?
    ensures |u| == |t|
  {
    OpenKeeps(t, id);
    Shift(Open(t, id), src, Locate(t, id), n)
  }

  ghost predicate SendEffect(t: seq<Asset>, src: nat, id: Id, n: int, u: seq<Asset>, d: nat)
    requires src < |t| && (id.OwnershipId? || id.PossessionId?) && (t[src].Ownership? || t[src].Possession?)
  {
    && |u| == |t| && d < |t|
    && (t[d].Empty? || IdOf(t[d]) == id)
    && (forall x :: 0 <= x < |t| && x != src && x != d ==> u[x] == t[x])
    && IdOf(u[src]) == IdOf(t[src]) && IdOf(u[d]) == id
    && u[src].shares == t[src].shares - n + (if d == src then n else 0)
    && (d != src ==> u[d].shares == (if t[d].Empty? then 0 else t[d].shares) + n)
    && (forall c ::
          Sum(u, c) == Sum(t, c) - (if Counts(t[src], c) then n else 0) + (if Counts(Blank(id), c) then n else 0))
  }

  lemma {:induction false} SendSum(t: seq<Asset>, src: nat, id: Id, n: int, c: Account)
    requires WellFormed(t) && CanProbe(t, id) && src < |t| && (id.OwnershipId? || id.PossessionId?)
    requires Linked(t, Blank(id))
    requires t[src].Ownership? || t[src].Possession?
    ensures Sum(Send(t, src, id, n), c)
         == Sum(t, c) - (if Counts(t[src], c) then n else 0) + (if Counts(Blank(id), c) then n else 0)
  {
    OpenKeeps(t, id);
    LocateDecides(t, id);
    var t1, d := Open(t, id), Locate(t, id);
    ShiftSum(t1, src, d, n, c);
    assert Counts(t1[d], c) <==> Counts(Blank(id), c);
  }

  /** The records after a send: only the source and the destination change. */
  lemma SendShape(t: seq<Asset>, src: nat, id: Id, n: int)
    requires WellFormed(t) && CanProbe(t, id) && src < |t| && (id.OwnershipId? || id.PossessionId?)
    requires Linked(t, Blank(id))
    requires t[src].Ownership? || t[src].Possession?
    ensures var u, d := Send(t, src, id, n), Locate(t, id);
      && WellFormed(u) && Free(u) >= Free(t) - 1
      && (t[d].Empty? || IdOf(t[d]) == id)
      && (forall x :: 0 <= x < |t| && x != src && x != d ==> u[x] == t[x])
      && IdOf(u[src]) == IdOf(t[src]) && IdOf(u[d]) == id
      && u[src].shares == t[src].shares - n + (if d == src then n else 0)
      && (d != src ==> u[d].shares == (if t[d].Empty? then 0 else t[d].shares) + n)
  {
    OpenKeeps(t, id);
    LocateDecides(t, id);
    hide Sum, Counts, Free, Reaches, Unique, Linked;
    ShiftKeeps(Open(t, id), src, Locate(t, id), n);
  }

  lemma SendKeeps(t: seq<Asset>, src: nat, id: Id, n: int)
    requires WellFormed(t) && CanProbe(t, id) && src < |t| && (id.OwnershipId? || id.PossessionId?)
    requires Linked(t, Blank(id))
    requires t[src].Ownership? || t[src].Possession?
    ensures var u := Send(t, src, id, n);
      WellFormed(u) && Free(u) >= Free(t) - 1 && SendEffect(t, src, id, n, u, Locate(t, id))
  {
    hide Sum, Counts, WellFormed, Free, Locate, Open, Shift, Send;
    SendShape(t, src, id, n);
    forall c
      ensures Sum(Send(t, src, id, n), c)
           == Sum(t, c) - (if Counts(t[src], c) then n else 0) + (if Counts(Blank(id), c) then n else 0)
    {
      SendSum(t, src, id, n, c);
    }
  }

  /** The source slots name an ownership record and one of its possession records, both holding n shares. */
  predicate CanMove(t: seq<Asset>, so: nat, sp: nat, n: int)
    requires so < |t| && sp < |t|
  {
    && n > 0
    && t[so].Ownership? && t[so].shares >= n
    && t[sp].Possession? && t[sp].shares >= n
    && t[sp].ownership == so
  }

  /** Both find-or-create probes of a move end. */
  ghost predicate MoveEnds(t: seq<Asset>, oid: Id, possessor: nat, possessorManaging: nat)
    requires |t| > 0 && oid.OwnershipId?
  {
    CanProbe(t, oid) && CanProbe(Open(t, oid), PossessionId(possessor, possessorManaging, Locate(t, oid)))
  }

  /** Two unused slots are enough; fewer are, if the destination records are there already. */
  lemma MoveEndsWhen(t: seq<Asset>, oid: Id, possessor: nat, possessorManaging: nat)
    requires WellFormed(t) && oid.OwnershipId? && Linked(t, Blank(oid))
    ensures Free(t) >= 2 ==> MoveEnds(t, oid, possessor, possessorManaging)
    ensures Free(t) == 1 ==> (MoveEnds(t, oid, possessor, possessorManaging) <==> Holds(t, oid))
    ensures Free(t) == 0 ==> (MoveEnds(t, oid, possessor, possessorManaging)
              <==> Holds(t, oid) && Holds(t, PossessionId(possessor, possessorManaging, Locate(t, oid))))
  {
    CanProbeWhen(t, oid);
    if CanProbe(t, oid) {
      LocateDecides(t, oid);
      var d := Locate(t, oid);
      var pid := PossessionId(possessor, possessorManaging, d);
      CanProbeWhen(Open(t, oid), pid);
      if t[d].Empty? {
        PutTakesOne(t, d, Blank(oid));
        FreshPossession(t, d, Blank(oid), possessor, possessorManaging);
      }
    }
  }

  /** After the ownership record was credited, the possession record can be. */
  lemma FirstSend(t: seq<Asset>, so: nat, sp: nat, oid: Id, possessor: nat, possessorManaging: nat, n: int)
    requires so < |t| && sp < |t| && CanMove(t, so, sp, n) && WellFormed(t)
    requires oid.OwnershipId? && oid.issuance == t[so].issuance
    requires MoveEnds(t, oid, possessor, possessorManaging)
    ensures Linked(t, Blank(oid)) && CanProbe(t, oid)
    ensures var t1 := Send(t, so, oid, n); var pid := PossessionId(possessor, possessorManaging, Locate(t, oid));
      && WellFormed(t1) && Free(t1) >= Free(t) - 1 && t1[sp] == t[sp] && Linked(t1, Blank(pid)) && CanProbe(t1, pid)
      && SendEffect(t, so, oid, n, t1, Locate(t, oid))
  {
    assert Linked(t, t[so]);
    SendKeeps(t, so, oid, n);
    OpenKeeps(t, oid);
    SameRecordsKeepsProbes(Open(t, oid), Send(t, so, oid, n),
        PossessionId(possessor, possessorManaging, Locate(t, oid)));
  }

  /** The common body of the transfer and of the management-rights transfer. */
  ghost function Move(t: seq<Asset>, so: nat, sp: nat, owner: nat, ownerManaging: nat, possessor: nat,
                      possessorManaging: nat, n: int)
    : (c: Change<bool>)
    requires so < |t| && sp < |t| && CanMove(t, so, sp, n) && WellFormed(t)
    requires MoveEnds(t, OwnershipId(owner, ownerManaging, t[so].issuance), possessor, possessorManaging)
    ensures |c.table| == |t|
    ensures forall x :: x in c.touched ==> x < |t|
  {
    var oid := OwnershipId(owner, ownerManaging, t[so].issuance);
    var dOwn := Locate(t, oid);
    FirstSend(t, so, sp, oid, possessor, possessorManaging, n);
    var t1 := Send(t, so, oid, n);
    var pid := PossessionId(possessor, possessorManaging, dOwn);
    Change(Send(t1, sp, pid, n), [so, sp, dOwn, Locate(t1, pid)], true)
  }

  /** What Move does, in terms of the old table only. */
  ghost predicate MoveEffect(t: seq<Asset>, so: nat, sp: nat, oid: Id, pid: Id, n: int, u: seq<Asset>, dOwn: nat,
                             dPos: nat)
    requires so < |t| && sp < |t| && CanMove(t, so, sp, n) && oid.OwnershipId? && pid.PossessionId?
  {
    && |u| == |t| && dOwn < |t| && dPos < |t| && dOwn != sp && dPos != so && dOwn != dPos
    && (t[dOwn].Empty? || IdOf(t[dOwn]) == oid)
    && (t[dPos].Empty? || IdOf(t[dPos]) == pid)
    && (forall x :: 0 <= x < |t| && x != so && x != sp && x != dOwn && x != dPos ==> u[x] == t[x])
    && IdOf(u[so]) == IdOf(t[so]) && IdOf(u[sp]) == IdOf(t[sp]) && IdOf(u[dOwn]) == oid && IdOf(u[dPos]) == pid
    && u[so].shares == t[so].shares - n + (if dOwn == so then n else 0)
    && u[sp].shares == t[sp].shares - n + (if dPos == sp then n else 0)
    && (dOwn != so ==> u[dOwn].shares == (if t[dOwn].Empty? then 0 else t[dOwn].shares) + n)
    && (dPos != sp ==> u[dPos].shares == (if t[dPos].Empty? then 0 else t[dPos].shares) + n)
    && (forall o ::
          Sum(u, OfOwnership(o)) == Sum(t, OfOwnership(o)) - (if o == so then n else 0) + (if o == dOwn then n else 0))
    && (forall i :: Sum(u, OfIssuance(i)) == Sum(t, OfIssuance(i)))
  }

  lemma TwoSends(t: seq<Asset>, t1: seq<Asset>, u: seq<Asset>, so: nat, sp: nat, oid: Id, pid: Id, dOwn: nat,
                 dPos: nat, n: int)
    requires so < |t| && sp < |t| && CanMove(t, so, sp, n) && oid.OwnershipId? && pid.PossessionId?
    requires pid.ownership == dOwn && oid.issuance == t[so].issuance
    requires SendEffect(t, so, oid, n, t1, dOwn)
    requires t1[sp] == t[sp] && SendEffect(t1, sp, pid, n, u, dPos)
    ensures MoveEffect(t, so, sp, oid, pid, n, u, dOwn, dPos)
  {
  }

  lemma MoveKeeps(t: seq<Asset>, so: nat, sp: nat, owner: nat, ownerManaging: nat, possessor: nat,
                  possessorManaging: nat, n: int)
    requires so < |t| && sp < |t| && CanMove(t, so, sp, n) && WellFormed(t)
    requires MoveEnds(t, OwnershipId(owner, ownerManaging, t[so].issuance), possessor, possessorManaging)
    ensures var c := Move(t, so, sp, owner, ownerManaging, possessor, possessorManaging, n);
      && WellFormed(c.table) && Free(c.table) >= Free(t) - 2
      && |c.touched| == 4 && c.touched[0] == so && c.touched[1] == sp && c.result
      && MoveEffect(t, so, sp, OwnershipId(owner, ownerManaging, t[so].issuance),
                    PossessionId(possessor, possessorManaging, c.touched[2]), n, c.table, c.touched[2], c.touched[3])
  {
    hide WellFormed, Free, Sum, SendEffect, MoveEffect, Send, MoveEnds, CanProbe;
    var oid := OwnershipId(owner, ownerManaging, t[so].issuance);
    var dOwn := Locate(t, oid);
    FirstSend(t, so, sp, oid, possessor, possessorManaging, n);
    var t1 := Send(t, so, oid, n);
    var pid := PossessionId(possessor, possessorManaging, dOwn);
    SendKeeps(t1, sp, pid, n);
    TwoSends(t, t1, Send(t1, sp, pid, n), so, sp, oid, pid, dOwn, Locate(t1, pid), n);
  }

  // ----- The public operations that move shares -----

  /** Burning: both source records lose n shares. */
  function Burn(t: seq<Asset>, so: nat, sp: nat, n: int): (u: seq<Asset>)
    requires so < |t| && sp < |t| && CanMove(t, so, sp, n)
    ensures |u| == |t|
  {
    AddShares(AddShares(t, so, -n), sp, -n)
  }

  /** A refused transfer and a burn probe nothing. */
  ghost predicate TransferEnds(t: seq<Asset>, so: nat, sp: nat, destination: nat, n: int)
    requires so < |t| && sp < |t|
  {
    CanMove(t, so, sp, n) && destination != 0 ==>
      MoveEnds(t, OwnershipId(destination, t[so].managing, t[so].issuance), destination, t[sp].managing)
  }

  /** transferShareOwnershipAndPossession on slots. The zero key as destination burns. */
  ghost function Transfer(t: seq<Asset>, so: nat, sp: nat, destination: nat, n: int): (c: Change<bool>)
    requires WellFormed(t) && so < |t| && sp < |t| && TransferEnds(t, so, sp, destination, n)
    ensures |c.table| == |t|
    ensures forall x :: x in c.touched ==> x < |t|
  {
    if !CanMove(t, so, sp, n) then
      Change(t, [], false)
    else if destination == 0 then
      assert Linked(t, t[so]);
      if t[t[so].issuance].key == 0 then Change(t, [], false) else Change(Burn(t, so, sp, n), [so, sp], true)
    else
      Move(t, so, sp, destination, t[so].managing, destination, t[sp].managing, n)
  }

  ghost predicate RightsEnd(t: seq<Asset>, so: nat, sp: nat, ownerManaging: nat, possessorManaging: nat, n: int)
    requires so < |t| && sp < |t|
  {
    CanMove(t, so, sp, n) ==>
      MoveEnds(t, OwnershipId(t[so].key, ownerManaging, t[so].issuance), t[sp].key, possessorManaging)
  }

  /** transferShareManagementRights. */
  ghost function Rights(t: seq<Asset>, so: nat, sp: nat, ownerManaging: nat, possessorManaging: nat, n: int)
    : (c: Change<bool>)
    requires WellFormed(t) && so < |t| && sp < |t| && RightsEnd(t, so, sp, ownerManaging, possessorManaging, n)
    ensures |c.table| == |t|
    ensures forall x :: x in c.touched ==> x < |t|
  {
    if !CanMove(t, so, sp, n) then
      Change(t, [], false)
    else
      Move(t, so, sp, t[so].key, ownerManaging, t[sp].key, possessorManaging, n)
  }

  /** Where the seven-argument transfer looks for the possession record. */
  ghost function LocatePossessor(t: seq<Asset>, possessor: nat, o: nat): (p: nat)
    requires |t| > 0
    ensures p < |t|
  {
    Probe(t, Home(possessor, |t|), StopAtPossessor(possessor, o))
  }

  /** The lookups end as far as they are made, and so does the transfer if it comes to that. */
  ghost predicate TransferByKeyEnds(t: seq<Asset>, name: nat, issuer: nat, owner: nat, possessor: nat, n: int,
                                    managing: nat, destination: nat)
    requires |t| > 0
  {
    var i := Locate(t, IssuanceId(issuer, name));
    var o := Locate(t, OwnershipId(owner, managing, i));
    var p := LocatePossessor(t, possessor, o);
    && CanProbe(t, IssuanceId(issuer, name))
    && (t[i].Empty? || CanProbe(t, OwnershipId(owner, managing, i)))
    && (t[i].Empty? || t[o].Empty? || HasStop(t, StopAtPossessor(possessor, o)))
    && (t[i].Empty? || t[o].Empty? || !t[p].Possession? || t[p].managing != managing || t[p].shares < n
        || TransferEnds(t, o, p, destination, n))
  }

  /** transferShareOwnershipAndPossession on keys: three lookups, then the transfer on slots. */
  ghost function TransferByKey(t: seq<Asset>, name: nat, issuer: nat, owner: nat, possessor: nat, n: int,
                               managing: nat, destination: nat)
    : (c: Change<int>)
    requires WellFormed(t) && TransferByKeyEnds(t, name, issuer, owner, possessor, n, managing, destination)
    ensures |c.table| == |t|
    ensures forall x :: x in c.touched ==> x < |t|
  {
    var i := Locate(t, IssuanceId(issuer, name));
    if t[i].Empty? then Change(t, [], -n) else
    var o := Locate(t, OwnershipId(owner, managing, i));
    if t[o].Empty? then Change(t, [], -n) else
    var p := LocatePossessor(t, possessor, o);
    if !t[p].Possession? then Change(t, [], -n)
    else if t[p].managing != managing then Change(t, [], -1)
    else if t[p].shares < n then Change(t, [], t[p].shares - n) else
    var c := Transfer(t, o, p, destination, n);
    Change(c.table, c.touched, if c.result && c.table[p].Possession? then c.table[p].shares else -1)
  }

  /**
   When possession and ownership records agree on their managing contract, the search that
   ignores the contract finds the same record as findPossessionIndex, and the exit taken for
   a differing contract is never reached.
   */
  lemma PossessorSearchAgrees(t: seq<Asset>, possessor: nat, o: nat)
    requires WellFormed(t) && SameManager(t) && o < |t| && t[o].Ownership? && HasStop(t, StopAtPossessor(possessor, o))
    ensures var p := LocatePossessor(t, possessor, o);
      && p == Locate(t, PossessionId(possessor, t[o].managing, o))
      && (t[p].Empty? || t[p].Possession?)
      && (t[p].Possession? ==> t[p].managing == t[o].managing)
  {
    var id := PossessionId(possessor, t[o].managing, o);
    ProbeIsFirst(t, Home(possessor, |t|), StopAtPossessor(possessor, o));
    var p := LocatePossessor(t, possessor, o);
    forall x | 0 <= x < |t|
      ensures StopAt(id)(t[x]) <==> StopAtPossessor(possessor, o)(t[x])
    {
      if StopAtPossessor(possessor, o)(t[x]) && !t[x].Empty? {
        assert t[x].managing == t[o].managing;
      }
    }
    FirstIsProbe(t, Home(possessor, |t|), StopAt(id), p);
  }
}
