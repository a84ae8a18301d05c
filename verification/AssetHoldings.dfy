/**
 What the asset operations do to holdings: who owns and who possesses how many shares of an
 asset under which managing contracts, told by keys alone, without slots.
 */
module AssetHoldings {
  import opened Probing
  import opened AssetTable
  import opened AssetLedger
  import opened AssetEpochResults

  /** Who owns shares: the logical key of an ownership record, free of slot indices. */
  datatype Owning = Owning(issuer: nat, name: nat, owner: nat, managing: nat)

  ghost predicate IsOwning(t: seq<Asset>, o: nat, w: Owning) {
    OwnsAt(t, o, w.owner, w.issuer, w.name, w.managing)
  }

  /** The shares of an ownership record; zero when there is no such record. */
  ghost function OwnedOf(t: seq<Asset>, w: Owning): int {
    if o: nat :| IsOwning(t, o, w) then t[o].shares else 0
  }

  ghost predicate Known(t: seq<Asset>, h: Holding) {
    exists p: nat :: IsHolding(t, p, h)
  }

  /** The keys of the possession record in slot p. */
  function HoldingAt(t: seq<Asset>, p: nat): Holding
    requires p < |t| && t[p].Possession? && Linked(t, t[p]) && Linked(t, t[t[p].ownership])
  {
    var own := t[t[p].ownership];
    Holding(t[own.issuance].key, t[own.issuance].name, own.key, own.managing, t[p].key, t[p].managing)
  }

  /** The ownership record that a possession record belongs to. */
  function OwningOf(h: Holding): Owning {
    Owning(h.issuer, h.name, h.owner, h.ownerManaging)
  }

  lemma KeysAt(t: seq<Asset>, p: nat)
    requires WellFormed(t) && p < |t| && t[p].Possession?
    ensures Linked(t, t[p]) && Linked(t, t[t[p].ownership])
    ensures IsHolding(t, p, HoldingAt(t, p)) && IsOwning(t, t[p].ownership, OwningOf(HoldingAt(t, p)))
  {
  }

  lemma OneHolding(t: seq<Asset>, p: nat, q: nat, h: Holding)
    requires WellFormed(t) && IsHolding(t, p, h) && IsHolding(t, q, h)
    ensures p == q
  {
  }

  lemma OneOwning(t: seq<Asset>, o: nat, q: nat, w: Owning)
    requires WellFormed(t) && IsOwning(t, o, w) && IsOwning(t, q, w)
    ensures o == q
  {
  }

  lemma OwnedAt(t: seq<Asset>, o: nat, w: Owning)
    requires WellFormed(t) && IsOwning(t, o, w)
    ensures OwnedOf(t, w) == t[o].shares
  {
    forall q: nat | IsOwning(t, q, w)
      ensures q == o
    {
      OneOwning(t, o, q, w);
    }
  }

  // ----- Tables that keep all records -----

  /** Every record of t is in u, in the same slot; share counts may differ, and nothing else. */
  ghost predicate Extends(t: seq<Asset>, u: seq<Asset>) {
    && |u| == |t|
    && forall x :: 0 <= x < |t| && !t[x].Empty? ==> IdOf(u[x]) == IdOf(t[x]) && (t[x].Issuance? ==> u[x] == t[x])
  }

  function SharesIn(r: Asset): int {
    if r.Ownership? || r.Possession? then r.shares else 0
  }

  lemma ExtendsHolding(t: seq<Asset>, u: seq<Asset>, p: nat, h: Holding)
    requires WellFormed(t) && WellFormed(u) && Extends(t, u) && p < |t| && !t[p].Empty?
    ensures IsHolding(u, p, h) <==> IsHolding(t, p, h)
  {
    assert IdOf(u[p]) == IdOf(t[p]) && Linked(t, t[p]);
    if t[p].Possession? {
      var o := t[p].ownership;
      assert IdOf(u[o]) == IdOf(t[o]) && Linked(t, t[o]);
      assert IdOf(u[t[o].issuance]) == IdOf(t[t[o].issuance]);
    }
  }

  lemma ExtendsOwning(t: seq<Asset>, u: seq<Asset>, o: nat, w: Owning)
    requires WellFormed(t) && WellFormed(u) && Extends(t, u) && o < |t| && !t[o].Empty?
    ensures IsOwning(u, o, w) <==> IsOwning(t, o, w)
  {
    assert IdOf(u[o]) == IdOf(t[o]) && Linked(t, t[o]);
    if t[o].Ownership? {
      assert IdOf(u[t[o].issuance]) == IdOf(t[t[o].issuance]);
    }
  }

  /** A holding changes by as much as its slot does. */
  lemma HoldingChanges(t: seq<Asset>, u: seq<Asset>, h: Holding)
    requires WellFormed(t) && WellFormed(u) && Extends(t, u)
    ensures forall p: nat :: IsHolding(u, p, h) ==>
      SharesOf(u, h) == SharesOf(t, h) + SharesIn(u[p]) - SharesIn(t[p])
    ensures (forall p: nat :: !IsHolding(u, p, h)) ==> SharesOf(u, h) == SharesOf(t, h) == 0
    ensures Known(t, h) ==> Known(u, h)
  {
    hide WellFormed, IsHolding;
    if p: nat :| IsHolding(t, p, h) {
      HoldingSlot(t, p, h);
      ExtendsHolding(t, u, p, h);
    }
    forall p: nat | IsHolding(u, p, h)
      ensures p < |t| && SharesOf(u, h) == SharesOf(t, h) + SharesIn(u[p]) - SharesIn(t[p])
    {
      HoldingChangesAt(t, u, p, h);
    }
  }

  lemma HoldingSlot(t: seq<Asset>, p: nat, h: Holding)
    requires IsHolding(t, p, h)
    ensures p < |t| && t[p].Possession?
  {
  }

  lemma HoldingChangesAt(t: seq<Asset>, u: seq<Asset>, p: nat, h: Holding)
    requires WellFormed(t) && WellFormed(u) && Extends(t, u) && IsHolding(u, p, h)
    ensures p < |t| && SharesOf(u, h) == SharesOf(t, h) + SharesIn(u[p]) - SharesIn(t[p])
  {
    hide WellFormed, IsHolding;
    HoldingSlot(u, p, h);
    SharesAt(u, p, h);
    if !t[p].Empty? {
      ExtendsHolding(t, u, p, h);
      HoldingSlot(t, p, h);
      SharesAt(t, p, h);
    } else if q: nat :| IsHolding(t, q, h) {
      HoldingSlot(t, q, h);
      ExtendsHolding(t, u, q, h);
      OneHolding(u, p, q, h);
    }
  }

  lemma OwningSlot(t: seq<Asset>, o: nat, w: Owning)
    requires IsOwning(t, o, w)
    ensures o < |t| && t[o].Ownership?
  {
  }

  lemma OwningChangesAt(t: seq<Asset>, u: seq<Asset>, o: nat, w: Owning)
    requires WellFormed(t) && WellFormed(u) && Extends(t, u) && IsOwning(u, o, w)
    ensures o < |t| && OwnedOf(u, w) == OwnedOf(t, w) + SharesIn(u[o]) - SharesIn(t[o])
  {
    hide WellFormed, IsOwning;
    OwningSlot(u, o, w);
    OwnedAt(u, o, w);
    if !t[o].Empty? {
      ExtendsOwning(t, u, o, w);
      OwningSlot(t, o, w);
      OwnedAt(t, o, w);
    } else if q: nat :| IsOwning(t, q, w) {
      OwningSlot(t, q, w);
      ExtendsOwning(t, u, q, w);
      OneOwning(u, o, q, w);
    }
  }

  lemma OwningChanges(t: seq<Asset>, u: seq<Asset>, w: Owning)
    requires WellFormed(t) && WellFormed(u) && Extends(t, u)
    ensures forall o: nat :: IsOwning(u, o, w) ==> OwnedOf(u, w) == OwnedOf(t, w) + SharesIn(u[o]) - SharesIn(t[o])
    ensures (forall o: nat :: !IsOwning(u, o, w)) ==> OwnedOf(u, w) == OwnedOf(t, w) == 0
  {
    hide WellFormed, IsOwning;
    if o: nat :| IsOwning(t, o, w) {
      OwningSlot(t, o, w);
      ExtendsOwning(t, u, o, w);
    }
    forall o: nat | IsOwning(u, o, w)
      ensures o < |t| && OwnedOf(u, w) == OwnedOf(t, w) + SharesIn(u[o]) - SharesIn(t[o])
    {
      OwningChangesAt(t, u, o, w);
    }
  }

  // ----- Shares that change hands -----

  /** n shares leave one possession and one ownership record and arrive at others; all else stays. */
  ghost predicate Handed(t: seq<Asset>, u: seq<Asset>, src: Holding, dst: Holding, n: int, h: Holding, w: Owning) {
    && SharesOf(u, h) == SharesOf(t, h) - (if h == src then n else 0) + (if h == dst then n else 0)
    && OwnedOf(u, w)
       == OwnedOf(t, w) - (if w == OwningOf(src) then n else 0) + (if w == OwningOf(dst) then n else 0)
  }

  /** n shares leave one possession and one ownership record; all else stays. */
  ghost predicate Taken(t: seq<Asset>, u: seq<Asset>, src: Holding, n: int, h: Holding, w: Owning) {
    && SharesOf(u, h) == SharesOf(t, h) - (if h == src then n else 0)
    && OwnedOf(u, w) == OwnedOf(t, w) - (if w == OwningOf(src) then n else 0)
  }

  /** n shares of a new asset arrive at one possession and one ownership record; all else stays. */
  ghost predicate Given(t: seq<Asset>, u: seq<Asset>, dst: Holding, n: int, h: Holding, w: Owning) {
    && SharesOf(u, h) == SharesOf(t, h) + (if h == dst then n else 0)
    && OwnedOf(u, w) == OwnedOf(t, w) + (if w == OwningOf(dst) then n else 0)
  }

  lemma MoveExtends(t: seq<Asset>, so: nat, sp: nat, oid: Id, pid: Id, n: int, u: seq<Asset>, dOwn: nat, dPos: nat)
    requires WellFormed(t) && so < |t| && sp < |t| && CanMove(t, so, sp, n) && oid.OwnershipId? && pid.PossessionId?
    requires MoveEffect(t, so, sp, oid, pid, n, u, dOwn, dPos)
    ensures Extends(t, u) && dOwn < |t| && dPos < |t| && IdOf(u[dOwn]) == oid && IdOf(u[dPos]) == pid
    ensures forall x :: 0 <= x < |t| ==>
      SharesIn(u[x]) == SharesIn(t[x]) - (if x == so || x == sp then n else 0)
                                       + (if x == dOwn || x == dPos then n else 0)
  {
    hide WellFormed, Sum;
  }

  lemma MoveHands(t: seq<Asset>, so: nat, sp: nat, owner: nat, ownerManaging: nat, possessor: nat,
                  possessorManaging: nat, n: int, h: Holding, w: Owning)
    requires so < |t| && sp < |t| && CanMove(t, so, sp, n) && WellFormed(t)
    requires MoveEnds(t, OwnershipId(owner, ownerManaging, t[so].issuance), possessor, possessorManaging)
    ensures Linked(t, t[sp]) && Linked(t, t[so])
    ensures Extends(t, Move(t, so, sp, owner, ownerManaging, possessor, possessorManaging, n).table)
    ensures var src := HoldingAt(t, sp);
      Handed(t, Move(t, so, sp, owner, ownerManaging, possessor, possessorManaging, n).table, src,
             src.(owner := owner, ownerManaging := ownerManaging, possessor := possessor,
             possessorManaging := possessorManaging), n, h, w)
  {
    hide MoveEnds, MoveEffect, WellFormed, Handed, Move, IsHolding, IsOwning;
    KeysAt(t, sp);
    var c := Move(t, so, sp, owner, ownerManaging, possessor, possessorManaging, n);
    MoveKeeps(t, so, sp, owner, ownerManaging, possessor, possessorManaging, n);
    var oid := OwnershipId(owner, ownerManaging, t[so].issuance);
    var pid := PossessionId(possessor, possessorManaging, c.touched[2]);
    MoveExtends(t, so, sp, oid, pid, n, c.table, c.touched[2], c.touched[3]);
    HandedOver(t, c.table, so, sp, oid, pid, n, c.touched[2], c.touched[3], h, w);
  }

  lemma HandedOver(t: seq<Asset>, u: seq<Asset>, so: nat, sp: nat, oid: Id, pid: Id, n: int, dOwn: nat, dPos: nat,
                   h: Holding, w: Owning)
    requires WellFormed(t) && WellFormed(u) && Extends(t, u) && so < |t| && sp < |t| && dOwn < |t| && dPos < |t|
    requires t[so].Ownership? && t[sp].Possession? && t[sp].ownership == so
    requires oid.OwnershipId? && pid.PossessionId? && oid.issuance == t[so].issuance && pid.ownership == dOwn
    requires IdOf(u[dOwn]) == oid && IdOf(u[dPos]) == pid
    requires forall x :: 0 <= x < |t| ==>
      SharesIn(u[x]) == SharesIn(t[x]) - (if x == so || x == sp then n else 0)
                                       + (if x == dOwn || x == dPos then n else 0)
    ensures Linked(t, t[sp]) && Linked(t, t[so])
    ensures var src := HoldingAt(t, sp);
      Handed(t, u, src, src.(owner := oid.key, ownerManaging := oid.managing, possessor := pid.key,
             possessorManaging := pid.managing), n, h, w)
  {
    hide WellFormed, IsHolding, IsOwning, SharesOf, OwnedOf;
    KeysAt(t, sp);
    var src := HoldingAt(t, sp);
    var dst := src.(owner := oid.key, ownerManaging := oid.managing, possessor := pid.key,
                    possessorManaging := pid.managing);
    SlotsNamed(t, u, so, sp, oid, pid, dOwn, dPos);
    SharesHanded(t, u, so, sp, src, dst, n, dOwn, dPos, h);
    OwnedHanded(t, u, so, sp, OwningOf(src), OwningOf(dst), n, dOwn, dPos, w);
  }

  /** n shares move from slots so and sp to slots dOwn and dPos. */
  ghost predicate Shifted(t: seq<Asset>, u: seq<Asset>, so: nat, sp: nat, n: int, dOwn: nat, dPos: nat) {
    && WellFormed(t) && WellFormed(u) && Extends(t, u) && so < |t| && sp < |t| && dOwn < |t| && dPos < |t|
    && |u| == |t| && u[so].Ownership? && u[sp].Possession? && u[dOwn].Ownership? && u[dPos].Possession?
    && forall x :: 0 <= x < |t| ==>
         SharesIn(u[x]) == SharesIn(t[x]) - (if x == so || x == sp then n else 0)
                                          + (if x == dOwn || x == dPos then n else 0)
  }

  lemma SharesHanded(t: seq<Asset>, u: seq<Asset>, so: nat, sp: nat, src: Holding, dst: Holding, n: int, dOwn: nat,
                     dPos: nat, h: Holding)
    requires Shifted(t, u, so, sp, n, dOwn, dPos) && IsHolding(u, sp, src) && IsHolding(u, dPos, dst)
    ensures SharesOf(u, h) == SharesOf(t, h) - (if h == src then n else 0) + (if h == dst then n else 0)
  {
    hide WellFormed, IsHolding, SharesOf, Extends, SharesIn;
    HoldingChanges(t, u, h);
    if p: nat :| IsHolding(u, p, h) {
      HoldingSlot(u, p, h);
      SameHolding(u, p, h, sp, src);
      SameHolding(u, p, h, dPos, dst);
    }
  }

  lemma OwnedHanded(t: seq<Asset>, u: seq<Asset>, so: nat, sp: nat, src: Owning, dst: Owning, n: int, dOwn: nat,
                    dPos: nat, w: Owning)
    requires Shifted(t, u, so, sp, n, dOwn, dPos) && IsOwning(u, so, src) && IsOwning(u, dOwn, dst)
    ensures OwnedOf(u, w) == OwnedOf(t, w) - (if w == src then n else 0) + (if w == dst then n else 0)
  {
    hide WellFormed, IsOwning, OwnedOf, Extends, SharesIn;
    OwningChanges(t, u, w);
    if o: nat :| IsOwning(u, o, w) {
      OwningSlot(u, o, w);
      SameOwning(u, o, w, so, src);
      SameOwning(u, o, w, dOwn, dst);
    }
  }

  lemma SameHolding(t: seq<Asset>, p: nat, h: Holding, q: nat, g: Holding)
    requires WellFormed(t) && IsHolding(t, p, h) && IsHolding(t, q, g)
    ensures h == g <==> p == q
  {
    if h == g { OneHolding(t, p, q, h); }
  }

  lemma SameOwning(t: seq<Asset>, o: nat, w: Owning, q: nat, v: Owning)
    requires WellFormed(t) && IsOwning(t, o, w) && IsOwning(t, q, v)
    ensures w == v <==> o == q
  {
    if w == v { OneOwning(t, o, q, w); }
  }

  /** The keys of the four records of a move, in the new table. */
  lemma SlotsNamed(t: seq<Asset>, u: seq<Asset>, so: nat, sp: nat, oid: Id, pid: Id, dOwn: nat, dPos: nat)
    requires WellFormed(t) && WellFormed(u) && Extends(t, u) && so < |t| && sp < |t| && dOwn < |t| && dPos < |t|
    requires t[so].Ownership? && t[sp].Possession? && t[sp].ownership == so
    requires oid.OwnershipId? && pid.PossessionId? && oid.issuance == t[so].issuance && pid.ownership == dOwn
    requires IdOf(u[dOwn]) == oid && IdOf(u[dPos]) == pid
    ensures Linked(t, t[sp]) && Linked(t, t[so])
    ensures u[so].Ownership? && u[sp].Possession? && u[dOwn].Ownership? && u[dPos].Possession?
    ensures var src := HoldingAt(t, sp);
      var dst := src.(owner := oid.key, ownerManaging := oid.managing, possessor := pid.key,
                      possessorManaging := pid.managing);
      && IsHolding(u, sp, src) && IsHolding(u, dPos, dst)
      && IsOwning(u, so, OwningOf(src)) && IsOwning(u, dOwn, OwningOf(dst))
  {
    KeysAt(t, sp);
    var src := HoldingAt(t, sp);
    ExtendsHolding(t, u, sp, src);
    ExtendsOwning(t, u, so, OwningOf(src));
    assert Linked(u, u[dOwn]) && Linked(u, u[dPos]);
    assert IdOf(u[so]) == IdOf(t[so]) && IdOf(u[sp]) == IdOf(t[sp]);
  }

  /** The slots name an ownership record and a possession record of its own, both with n shares, and n is positive. */
  predicate HaveShares(t: seq<Asset>, so: nat, sp: nat, n: int) {
    && so < |t| && sp < |t| && t[so].Ownership? && t[sp].Possession? && t[sp].ownership == so
    && 0 < n <= t[so].shares && n <= t[sp].shares
  }

  /** Only slot p changes among the possession records. */
  lemma OneHoldingChanges(t: seq<Asset>, u: seq<Asset>, p: nat, g: Holding, delta: int, h: Holding)
    requires WellFormed(t) && WellFormed(u) && Extends(t, u) && IsHolding(u, p, g)
    requires SharesIn(u[p]) == SharesIn(t[p]) + delta
    requires forall x :: 0 <= x < |t| && x != p && u[x].Possession? ==> SharesIn(u[x]) == SharesIn(t[x])
    ensures SharesOf(u, h) == SharesOf(t, h) + (if h == g then delta else 0)
  {
    hide WellFormed, IsHolding, SharesOf, SharesIn;
    HoldingChanges(t, u, h);
    if q: nat :| IsHolding(u, q, h) {
      HoldingSlot(u, q, h);
      SameHolding(u, q, h, p, g);
    }
  }

  /** Only slot o changes among the ownership records. */
  lemma OneOwningChanges(t: seq<Asset>, u: seq<Asset>, o: nat, v: Owning, delta: int, w: Owning)
    requires WellFormed(t) && WellFormed(u) && Extends(t, u) && IsOwning(u, o, v)
    requires SharesIn(u[o]) == SharesIn(t[o]) + delta
    requires forall x :: 0 <= x < |t| && x != o && u[x].Ownership? ==> SharesIn(u[x]) == SharesIn(t[x])
    ensures OwnedOf(u, w) == OwnedOf(t, w) + (if w == v then delta else 0)
  {
    hide WellFormed, IsOwning, OwnedOf, SharesIn;
    OwningChanges(t, u, w);
    if q: nat :| IsOwning(u, q, w) {
      OwningSlot(u, q, w);
      SameOwning(u, q, w, o, v);
    }
  }

  lemma BurnShape(t: seq<Asset>, so: nat, sp: nat, n: int)
    requires WellFormed(t) && so < |t| && sp < |t| && CanMove(t, so, sp, n)
    ensures var u := Burn(t, so, sp, n);
      && WellFormed(u) && Extends(t, u) && u[so].Ownership? && u[sp].Possession?
      && SharesIn(u[so]) == SharesIn(t[so]) - n && SharesIn(u[sp]) == SharesIn(t[sp]) - n
      && forall x :: 0 <= x < |t| && x != so && x != sp ==> u[x] == t[x]
  {
    var u := Burn(t, so, sp, n);
    assert SameRecords(t, u);
    SameRecordsKeepsWellFormed(t, u);
  }

  lemma BurnTakes(t: seq<Asset>, so: nat, sp: nat, n: int, h: Holding, w: Owning)
    requires WellFormed(t) && so < |t| && sp < |t| && CanMove(t, so, sp, n)
    ensures WellFormed(Burn(t, so, sp, n)) && Extends(t, Burn(t, so, sp, n)) && Linked(t, t[sp]) && Linked(t, t[so])
    ensures Taken(t, Burn(t, so, sp, n), HoldingAt(t, sp), n, h, w)
  {
    hide WellFormed, IsHolding, IsOwning, SharesOf, OwnedOf, Burn, SharesIn, Extends;
    var u := Burn(t, so, sp, n);
    BurnShape(t, so, sp, n);
    KeysAt(t, sp);
    var src := HoldingAt(t, sp);
    ExtendsHolding(t, u, sp, src);
    ExtendsOwning(t, u, so, OwningOf(src));
    OneHoldingChanges(t, u, sp, src, -n, h);
    OneOwningChanges(t, u, so, OwningOf(src), -n, w);
  }

  /**
   An accepted transfer takes n shares from the possession record and the ownership record of
   the source and gives them to those of the destination, under the managing contracts of the
   source; with the zero key as destination they are burned. A refused one changes nothing.
   */
  lemma TransferHands(t: seq<Asset>, so: nat, sp: nat, destination: nat, n: int, h: Holding, w: Owning)
    requires WellFormed(t) && so < |t| && sp < |t| && TransferEnds(t, so, sp, destination, n)
    ensures HaveShares(t, so, sp, n) ==> Linked(t, t[sp]) && Linked(t, t[so])
    ensures var c := Transfer(t, so, sp, destination, n);
      && WellFormed(c.table) && Extends(t, c.table)
      && (c.result <==> HaveShares(t, so, sp, n) && (destination == 0 ==> HoldingAt(t, sp).issuer != 0))
      && (!c.result ==> c.table == t)
      && (c.result && destination == 0 ==> Taken(t, c.table, HoldingAt(t, sp), n, h, w))
      && (c.result && destination != 0 ==>
            var src := HoldingAt(t, sp);
            Handed(t, c.table, src, src.(owner := destination, possessor := destination), n, h, w))
  {
    if CanMove(t, so, sp, n) {
      KeysAt(t, sp);
      hide WellFormed, Taken, Handed, IsHolding, IsOwning, Burn, Move, Extends;
      if destination == 0 {
        BurnTakes(t, so, sp, n, h, w);
      } else {
        MoveKeeps(t, so, sp, destination, t[so].managing, destination, t[sp].managing, n);
        MoveHands(t, so, sp, destination, t[so].managing, destination, t[sp].managing, n, h, w);
      }
    }
  }

  /** A transfer of management rights changes the managing contracts of n shares and neither owner nor possessor. */
  lemma RightsHand(t: seq<Asset>, so: nat, sp: nat, ownerManaging: nat, possessorManaging: nat, n: int, h: Holding,
                   w: Owning)
    requires WellFormed(t) && so < |t| && sp < |t| && RightsEnd(t, so, sp, ownerManaging, possessorManaging, n)
    ensures HaveShares(t, so, sp, n) ==> Linked(t, t[sp]) && Linked(t, t[so])
    ensures var c := Rights(t, so, sp, ownerManaging, possessorManaging, n);
      && WellFormed(c.table)
      && (c.result <==> HaveShares(t, so, sp, n))
      && (!c.result ==> c.table == t)
      && (c.result ==>
            var src := HoldingAt(t, sp);
            Handed(t, c.table, src, src.(ownerManaging := ownerManaging, possessorManaging := possessorManaging),
                   n, h, w))
  {
    if CanMove(t, so, sp, n) {
      KeysAt(t, sp);
      hide WellFormed, Handed, IsHolding, IsOwning, Move;
      MoveKeeps(t, so, sp, t[so].key, ownerManaging, t[sp].key, possessorManaging, n);
      MoveHands(t, so, sp, t[so].key, ownerManaging, t[sp].key, possessorManaging, n, h, w);
    }
  }

  /** An issuance gives all shares of a new asset to its issuer; a known asset is not issued again. */
  lemma IssueGives(t: seq<Asset>, issuer: nat, name: nat, decimals: int, unit: seq<int>, shares: int, managing: nat,
                   h: Holding, w: Owning)
    requires WellFormed(t) && IssueEnds(t, issuer, name)
    ensures var c := Issue(t, issuer, name, decimals, unit, shares, managing);
      && WellFormed(c.table)
      && (Holds(t, IssuanceId(issuer, name)) ==> c.table == t && c.result == 0)
      && (!Holds(t, IssuanceId(issuer, name)) ==>
            && c.result == shares && Issuance(issuer, name, decimals, unit) in c.table
            && Given(t, c.table, Holding(issuer, name, issuer, managing, issuer, managing), shares, h, w))
  {
    IssueKeepsWellFormed(t, issuer, name, decimals, unit, shares, managing);
    hide Free, Issue, WellFormed, Given;
    if !Holds(t, IssuanceId(issuer, name)) {
      var c := Issue(t, issuer, name, decimals, unit, shares, managing);
      IssuedIsGiven(t, issuer, name, decimals, unit, shares, managing, c.table, c.touched[0], c.touched[1],
                    c.touched[2], h, w);
    }
  }

  lemma IssuedIsGiven(t: seq<Asset>, issuer: nat, name: nat, decimals: int, unit: seq<int>, shares: int,
                      managing: nat, u: seq<Asset>, i: nat, o: nat, p: nat, h: Holding, w: Owning)
    requires WellFormed(t) && WellFormed(u)
    requires IssueEffect(t, issuer, name, decimals, unit, shares, managing, u, i, o, p)
    ensures Issuance(issuer, name, decimals, unit) in u
    ensures Given(t, u, Holding(issuer, name, issuer, managing, issuer, managing), shares, h, w)
  {
    var dst := Holding(issuer, name, issuer, managing, issuer, managing);
    IssuedShape(t, issuer, name, decimals, unit, shares, managing, u, i, o, p);
    hide WellFormed, IsHolding, IsOwning, SharesOf, OwnedOf, IssueEffect, SharesIn, Extends;
    OneHoldingChanges(t, u, p, dst, shares, h);
    OneOwningChanges(t, u, o, OwningOf(dst), shares, w);
  }

  lemma IssuedShape(t: seq<Asset>, issuer: nat, name: nat, decimals: int, unit: seq<int>, shares: int, managing: nat,
                    u: seq<Asset>, i: nat, o: nat, p: nat)
    requires IssueEffect(t, issuer, name, decimals, unit, shares, managing, u, i, o, p)
    ensures Extends(t, u) && Issuance(issuer, name, decimals, unit) in u && o < |t| && p < |t|
    ensures var dst := Holding(issuer, name, issuer, managing, issuer, managing);
      IsHolding(u, p, dst) && IsOwning(u, o, OwningOf(dst))
    ensures SharesIn(u[o]) == SharesIn(t[o]) + shares && SharesIn(u[p]) == SharesIn(t[p]) + shares
    ensures forall x :: 0 <= x < |t| && x != o && x != p ==> SharesIn(u[x]) == SharesIn(t[x])
    ensures u[o].Ownership? && u[p].Possession?
  {
    assert u[i] == Issuance(issuer, name, decimals, unit);
    assert u[o] == Ownership(issuer, managing, i, shares) && u[p] == Possession(issuer, managing, o, shares);
    assert forall x :: 0 <= x < |t| && x != i && x != o && x != p ==> u[x] == t[x];
  }

  // ----- The transfer by keys -----

  /** The search that ignores the managing contract finds a record of this owner and possessor if there is one. */
  lemma PossessorDecides(t: seq<Asset>, possessor: nat, o: nat)
    requires WellFormed(t) && HasStop(t, StopAtPossessor(possessor, o))
    ensures var p := LocatePossessor(t, possessor, o);
      && (!t[p].Possession? ==> forall x :: 0 <= x < |t| && t[x].Possession? ==>
            t[x].ownership != o || t[x].key != possessor)
      && (t[p].Possession? ==> t[p].ownership == o && t[p].key == possessor)
  {
    ProbeIsFirst(t, Home(possessor, |t|), StopAtPossessor(possessor, o));
    var p := LocatePossessor(t, possessor, o);
    forall x | 0 <= x < |t| && t[x].Possession? && t[x].ownership == o && t[x].key == possessor
      ensures t[p].Possession?
    {
      assert Reaches(t, t[x].key, x);
      ArcCovers(Home(possessor, |t|), x, p);
    }
  }

  /** What the lookups of a transfer by keys find. */
  lemma LookupsMean(t: seq<Asset>, h: Holding)
    requires WellFormed(t) && CanProbe(t, IssuanceId(h.issuer, h.name))
    ensures var i := Locate(t, IssuanceId(h.issuer, h.name));
      && (t[i].Empty? ==> forall m :: !Known(t, h.(possessorManaging := m)))
      && (!t[i].Empty? && CanProbe(t, OwnershipId(h.owner, h.ownerManaging, i)) ==>
            var o := Locate(t, OwnershipId(h.owner, h.ownerManaging, i));
            && (t[o].Empty? ==> forall m :: !Known(t, h.(possessorManaging := m)))
            && (!t[o].Empty? ==> IsOwning(t, o, OwningOf(h))))
  {
    var iid := IssuanceId(h.issuer, h.name);
    LocateDecides(t, iid);
    var i := Locate(t, iid);
    if !t[i].Empty? && CanProbe(t, OwnershipId(h.owner, h.ownerManaging, i)) {
      LocateDecides(t, OwnershipId(h.owner, h.ownerManaging, i));
      forall q: nat, m: nat | IsHolding(t, q, h.(possessorManaging := m))
        ensures t[t[q].ownership].issuance == i
      {
        LocateFinds(t, iid, t[t[q].ownership].issuance);
      }
    }
  }

  /** The holding has n shares, so does its ownership record, and contract shares are not to be burned. */
  ghost predicate Accepts(t: seq<Asset>, src: Holding, n: int, destination: nat) {
    && Known(t, src) && 0 < n <= SharesOf(t, src) && n <= OwnedOf(t, OwningOf(src))
    && !(destination == 0 && src.issuer == 0)
  }

  /** n shares go from the source to the destination, or are burned, or nothing happens. */
  ghost predicate Transferred(t: seq<Asset>, u: seq<Asset>, src: Holding, n: int, destination: nat, h: Holding,
                              w: Owning) {
    if !Accepts(t, src, n, destination) then u == t
    else if destination == 0 then Taken(t, u, src, n, h, w)
    else Handed(t, u, src, src.(owner := destination, possessor := destination), n, h, w)
  }

  /** What is left at the source, or a negative number: how many shares are missing, or -1. */
  ghost function Remaining(t: seq<Asset>, src: Holding, n: int, destination: nat): int {
    if !Known(t, src) then -n
    else if SharesOf(t, src) < n then SharesOf(t, src) - n
    else if !Accepts(t, src, n, destination) then -1
    else if src.owner == src.possessor == destination && destination != 0 then SharesOf(t, src)
    else SharesOf(t, src) - n
  }

  lemma AcceptedAt(t: seq<Asset>, p: nat, src: Holding, n: int, destination: nat)
    requires WellFormed(t) && IsHolding(t, p, src)
    ensures p < |t| && t[p].Possession? && t[p].ownership < |t| && Known(t, src) && SharesOf(t, src) == t[p].shares
    ensures Linked(t, t[p]) && Linked(t, t[t[p].ownership]) && HoldingAt(t, p) == src
    ensures Accepts(t, src, n, destination)
       <==> HaveShares(t, t[p].ownership, p, n) && (destination == 0 ==> src.issuer != 0)
  {
    KeysAt(t, p);
    SharesAt(t, p, src);
    OwnedAt(t, t[p].ownership, OwningOf(src));
    hide WellFormed, OwnedOf, SharesOf;
  }

  /** From the three slots on. */
  lemma FoundTransfer(t: seq<Asset>, p: nat, src: Holding, n: int, destination: nat, h: Holding, w: Owning)
    requires WellFormed(t) && IsHolding(t, p, src) && src.ownerManaging == src.possessorManaging
    requires p < |t| && t[p].Possession? && t[p].shares >= n && t[p].ownership < |t|
    requires TransferEnds(t, t[p].ownership, p, destination, n)
    ensures Known(t, src)
    ensures var c := Transfer(t, t[p].ownership, p, destination, n);
      && WellFormed(c.table) && Transferred(t, c.table, src, n, destination, h, w)
      && Remaining(t, src, n, destination) == if c.result && c.table[p].Possession? then c.table[p].shares else -1
  {
    hide WellFormed, OwnedOf, SharesOf, Transfer, TransferEnds, Extends, IsHolding, HaveShares, Accepts, Known;
    AcceptedAt(t, p, src, n, destination);
    var o := t[p].ownership;
    TransferHands(t, o, p, destination, n, h, w);
    TransferHands(t, o, p, destination, n, src, w);
    var u := Transfer(t, o, p, destination, n).table;
    ExtendsHolding(t, u, p, src);
    AcceptedAt(u, p, src, n, destination);
  }

  /** This owner and possessor have a record under another managing contract. */
  ghost predicate OtherManager(t: seq<Asset>, src: Holding) {
    exists m :: m != src.possessorManaging && Known(t, src.(possessorManaging := m))
  }

  lemma ManagersAgree(t: seq<Asset>, src: Holding)
    requires WellFormed(t) && SameManager(t) && src.ownerManaging == src.possessorManaging
    ensures !OtherManager(t, src)
  {
    hide WellFormed;
    if m, p: nat :| m != src.possessorManaging && IsHolding(t, p, src.(possessorManaging := m)) {
      HoldingSlot(t, p, src.(possessorManaging := m));
      KeysAt(t, p);
      assert false;
    }
  }

  lemma NobodyHolds(t: seq<Asset>, src: Holding, n: int, destination: nat, h: Holding, w: Owning)
    requires forall m :: !Known(t, src.(possessorManaging := m))
    ensures !Known(t, src) && !OtherManager(t, src)
    ensures Remaining(t, src, n, destination) == -n && Transferred(t, t, src, n, destination, h, w)
  {
    assert src == src.(possessorManaging := src.possessorManaging);
  }

  /** What the search of the possession record finds. */
  lemma SearchMeans(t: seq<Asset>, src: Holding, o: nat)
    requires WellFormed(t) && IsOwning(t, o, OwningOf(src)) && HasStop(t, StopAtPossessor(src.possessor, o))
    ensures var p := LocatePossessor(t, src.possessor, o);
      && (!t[p].Possession? ==> forall m :: !Known(t, src.(possessorManaging := m)))
      && (t[p].Possession? ==> t[p].ownership == o && IsHolding(t, p, src.(possessorManaging := t[p].managing)))
  {
    PossessorDecides(t, src.possessor, o);
    forall q: nat, m: nat | IsHolding(t, q, src.(possessorManaging := m))
      ensures t[q].ownership == o
    {
      OneOwning(t, t[q].ownership, o, OwningOf(src));
    }
  }

  lemma UnderOther(t: seq<Asset>, p: nat, src: Holding)
    requires p < |t| && t[p].Possession? && t[p].managing != src.possessorManaging
    requires IsHolding(t, p, src.(possessorManaging := t[p].managing))
    ensures OtherManager(t, src)
  {
    assert Known(t, src.(possessorManaging := t[p].managing));
  }

  lemma TooFew(t: seq<Asset>, p: nat, src: Holding, n: int, destination: nat, h: Holding, w: Owning)
    requires WellFormed(t) && IsHolding(t, p, src) && t[p].shares < n
    ensures Known(t, src)
    ensures Remaining(t, src, n, destination) == t[p].shares - n && Transferred(t, t, src, n, destination, h, w)
  {
    SharesAt(t, p, src);
  }

  /**
   The transfer by keys, told by keys: what it moves and what it returns. Only if this owner and
   possessor also have a record under another managing contract may it refuse with -1 instead.
   */
  lemma TransferByKeyHands(t: seq<Asset>, name: nat, issuer: nat, owner: nat, possessor: nat, n: int, managing: nat,
                           destination: nat, h: Holding, w: Owning)
    requires WellFormed(t) && TransferByKeyEnds(t, name, issuer, owner, possessor, n, managing, destination)
    ensures var c := TransferByKey(t, name, issuer, owner, possessor, n, managing, destination);
      var src := Holding(issuer, name, owner, managing, possessor, managing);
      && WellFormed(c.table)
      && (|| (c.result == Remaining(t, src, n, destination) && Transferred(t, c.table, src, n, destination, h, w)
                && (Known(t, src) || !OtherManager(t, src)))
          || (c.result == -1 && c.table == t && OtherManager(t, src)))
      && (SameManager(t) ==> !OtherManager(t, src))
  {
    hide WellFormed, Remaining, Transferred, Transfer, TransferEnds, SharesOf, OwnedOf, IsOwning, IsHolding,
        OtherManager, SameManager, LocatePossessor, Locate, CanProbe, HasStop, Holds;
    var src := Holding(issuer, name, owner, managing, possessor, managing);
    LookupsMean(t, src);
    if SameManager(t) { ManagersAgree(t, src); }
    var i := Locate(t, IssuanceId(issuer, name));
    var o := Locate(t, OwnershipId(owner, managing, i));
    if t[i].Empty? || t[o].Empty? {
      NobodyHolds(t, src, n, destination, h, w);
    } else {
      SearchMeans(t, src, o);
      var p := LocatePossessor(t, possessor, o);
      if !t[p].Possession? {
        NobodyHolds(t, src, n, destination, h, w);
      } else if t[p].managing != managing {
        UnderOther(t, p, src);
      } else if t[p].shares < n {
        TooFew(t, p, src, n, destination, h, w);
      } else {
        FoundTransfer(t, p, src, n, destination, h, w);
      }
    }
  }

  // ----- Balance queries -----

  /** getAssetBalances, told by keys. */
  lemma BalancesMean(t: seq<Asset>, key: nat, issuer: nat, name: nat, managing: nat)
    requires WellFormed(t) && QueryEnds(t, key, issuer, name, managing)
    ensures var h := Holding(issuer, name, key, managing, key, managing); var w := OwningOf(h);
      Balances(t, key, issuer, name, managing)
        == (if exists o: nat :: IsOwning(t, o, w) then OwnedOf(t, w) else -1,
            if Known(t, h) then SharesOf(t, h) else -1)
  {
    var h := Holding(issuer, name, key, managing, key, managing);
    hide WellFormed, Balances, QueryEnds, IsHolding, SharesOf, OwnedOf, OwnsAt;
    if o: nat :| IsOwning(t, o, OwningOf(h)) {
      BalancesOfOwner(t, o, key, issuer, name, managing);
      OwnedAt(t, o, OwningOf(h));
      BalanceOfPossessor(t, o, h);
    } else {
      forall o: nat
        ensures !OwnsAt(t, o, key, issuer, name, managing)
      {
        assert !IsOwning(t, o, OwningOf(h));
      }
      BalancesOfNobody(t, key, issuer, name, managing);
      forall p: nat
        ensures !IsHolding(t, p, h)
      {
        if IsHolding(t, p, h) { HolderHasOwner(t, p, h); }
      }
    }
  }

  lemma HolderHasOwner(t: seq<Asset>, p: nat, h: Holding)
    requires IsHolding(t, p, h)
    ensures p < |t| && t[p].Possession? && IsOwning(t, t[p].ownership, OwningOf(h))
  {
  }

  lemma BalanceOfPossessor(t: seq<Asset>, o: nat, h: Holding)
    requires WellFormed(t) && IsOwning(t, o, OwningOf(h))
    ensures var pid := PossessionId(h.possessor, h.possessorManaging, o);
      && (Known(t, h) <==> Holds(t, pid))
      && forall p :: 0 <= p < |t| && IdOf(t[p]) == pid ==> SharesOf(t, h) == t[p].shares
  {
    var pid := PossessionId(h.possessor, h.possessorManaging, o);
    forall p: nat | p < |t| && IdOf(t[p]) == pid
      ensures IsHolding(t, p, h) && SharesOf(t, h) == t[p].shares
    {
      SharesAt(t, p, h);
    }
    if p: nat :| IsHolding(t, p, h) {
      OneOwning(t, t[p].ownership, o, OwningOf(h));
    }
  }
}
