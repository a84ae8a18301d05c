/**
 The universe as Asset.h and getUniverseDigest keep it: arrays updated in place. Every
 method is proved equal to the corresponding function of AssetLedger, AssetEpochResults
 or IncrementalDigest.
 */
module Universe {
  import opened Probing
  import opened AssetTable
  import opened AssetLedger
  import opened AssetEpoch
  import opened AssetEpochResults
  import opened ChangeFlags
  import opened MerkleTree
  import opened IncrementalDigest

  class Universe<D> {
    const leafHash: Asset -> D
    const nodeHash: (D, D) -> D
    const assets: array<Asset>
    const changeFlags: array<bv64>
    const digests: array<D>

    /** The global buffers; a snapshot file supplies the table. */
    constructor (leafHash: Asset -> D, nodeHash: (D, D) -> D, assets: array<Asset>, changeFlags: array<bv64>,
                 digests: array<D>)
      ensures this.leafHash == leafHash && this.nodeHash == nodeHash
      ensures this.assets == assets && this.changeFlags == changeFlags && this.digests == digests
    {
      this.leafHash, this.nodeHash := leafHash, nodeHash;
      this.assets, this.changeFlags, this.digests := assets, changeFlags, digests;
    }

    ghost predicate Valid()
      reads this, assets
    {
      && Pow2(assets.Length)
      && assets.Length == 64 * changeFlags.Length
      && digests.Length == 2 * assets.Length - 1
      && WellFormed(assets[..])
    }

    ghost function Flags(): (f: seq<bool>)
      reads this, changeFlags
    {
      Bits(changeFlags[..])
    }

    // ----- Lookups -----

    /** The loop shared by findIssuerIndex, findOwnershipIndex and findPossessionIndex. */
    method Find(id: Id) returns (found: bool, slot: nat)
      requires Valid() && id != NoId && CanProbe(assets[..], id)
      ensures found <==> Holds(assets[..], id)
      ensures found ==> slot < assets.Length && IdOf(assets[slot]) == id
      ensures slot == Locate(assets[..], id)
    {
      LocateDecides(assets[..], id);
      slot := Scan(assets, Home(id.key, assets.Length), StopAt(id));
      found := !assets[slot].Empty?;
    }

    method FindIssuerIndex(issuer: nat, name: nat) returns (found: bool, slot: nat)
      requires Valid() && CanProbe(assets[..], IssuanceId(issuer, name))
      ensures found <==> exists x :: 0 <= x < assets.Length && IdOf(assets[x]) == IssuanceId(issuer, name)
      ensures found ==> slot < assets.Length && IdOf(assets[slot]) == IssuanceId(issuer, name)
      ensures slot == Locate(assets[..], IssuanceId(issuer, name))
    {
      found, slot := Find(IssuanceId(issuer, name));
      assert forall x :: 0 <= x < assets.Length ==> assets[..][x] == assets[x];
    }

    method FindOwnershipIndex(issuance: nat, owner: nat, managing: nat) returns (found: bool, slot: nat)
      requires Valid() && CanProbe(assets[..], OwnershipId(owner, managing, issuance))
      ensures found <==> exists x :: 0 <= x < assets.Length && assets[x].Ownership? && assets[x].issuance == issuance
                                       && assets[x].key == owner && assets[x].managing == managing
      ensures found ==> slot < assets.Length && IdOf(assets[slot]) == OwnershipId(owner, managing, issuance)
      ensures slot == Locate(assets[..], OwnershipId(owner, managing, issuance))
    {
      found, slot := Find(OwnershipId(owner, managing, issuance));
      assert forall x :: 0 <= x < assets.Length ==> assets[..][x] == assets[x];
    }

    method FindPossessionIndex(ownership: nat, possessor: nat, managing: nat) returns (found: bool, slot: nat)
      requires Valid() && CanProbe(assets[..], PossessionId(possessor, managing, ownership))
      ensures found <==> exists x :: 0 <= x < assets.Length && assets[x].Possession? && assets[x].ownership == ownership
                                       && assets[x].key == possessor && assets[x].managing == managing
      ensures found ==> slot < assets.Length && IdOf(assets[slot]) == PossessionId(possessor, managing, ownership)
      ensures slot == Locate(assets[..], PossessionId(possessor, managing, ownership))
    {
      found, slot := Find(PossessionId(possessor, managing, ownership));
      assert forall x :: 0 <= x < assets.Length ==> assets[..][x] == assets[x];
    }

    method GetAssetBalances(key: nat, issuer: nat, name: nat, managing: nat) returns (owned: int, possessed: int)
      requires Valid() && QueryEnds(assets[..], key, issuer, name, managing)
      ensures (owned, possessed) == Balances(assets[..], key, issuer, name, managing)
    {
      owned, possessed := -1, -1;
      var found, i := FindIssuerIndex(issuer, name);
      LocateDecides(assets[..], IssuanceId(issuer, name));
      if !found { return; }
      var o;
      found, o := FindOwnershipIndex(i, key, managing);
      LocateDecides(assets[..], OwnershipId(key, managing, i));
      if !found { return; }
      owned := assets[o].shares;
      var p;
      found, p := FindPossessionIndex(o, key, managing);
      LocateDecides(assets[..], PossessionId(key, managing, o));
      if !found { return; }
      possessed := assets[p].shares;
    }

    // ----- issueAsset -----

    method IssueAsset(issuer: nat, name: nat, decimals: int, unit: seq<int>, shares: int, managing: nat)
      returns (issued: int, i: nat, o: nat, p: nat)
      requires Valid() && IssueEnds(assets[..], issuer, name)
      modifies assets, changeFlags
      ensures Valid()
      ensures var c := Issue(old(assets[..]), issuer, name, decimals, unit, shares, managing);
        && assets[..] == c.table && issued == c.result && Flags() == Mark(old(Flags()), c.touched)
        && i == Locate(old(assets[..]), IssuanceId(issuer, name)) && (c.touched == [] || c.touched == [i, o, p])
    {
      ghost var t := assets[..];
      IssueKeepsWellFormed(t, issuer, name, decimals, unit, shares, managing);
      CanProbeWhen(t, IssuanceId(issuer, name));
      LocateDecides(t, IssuanceId(issuer, name));
      i, o, p := 0, 0, 0;
      i := Scan(assets, Home(issuer, assets.Length), StopAt(IssuanceId(issuer, name)));
      if !assets[i].Empty? {
        assert Mark(Flags(), []) == Flags();
        return 0, i, o, p;
      }
      PutTakesOne(t, i, Issuance(issuer, name, decimals, unit));
      assets[i] := Issuance(issuer, name, decimals, unit);
      ghost var t1 := t[i := Issuance(issuer, name, decimals, unit)];
      assert assets[..] == t1;
      FreeHasStop(t1, StopAt(NoId));
      o := Scan(assets, Next(i, assets.Length), StopAt(NoId));
      PutTakesOne(t1, o, Ownership(issuer, managing, i, shares));
      assets[o] := Ownership(issuer, managing, i, shares);
      ghost var t2 := t1[o := Ownership(issuer, managing, i, shares)];
      assert assets[..] == t2;
      FreeHasStop(t2, StopAt(NoId));
      p := Scan(assets, Next(o, assets.Length), StopAt(NoId));
      assets[p] := Possession(issuer, managing, o, shares);
      assert assets[..] == t2[p := Possession(issuer, managing, o, shares)];
      RaiseEach(changeFlags, [i, o, p]);
      issued := shares;
    }

    // ----- Moving shares -----

    /** An unused slot receives a record without shares. */
    method Fill(d: nat, id: Id)
      requires d < assets.Length && (id.OwnershipId? || id.PossessionId?)
      modifies assets
      ensures assets[..] == FilledAt(old(assets[..]), d, id)
    {
      if assets[d].Empty? {
        assets[d] := Blank(id);
      }
    }

    /** n shares leave slot src for the record with the given identity, found or created by probing. */
    method SendShares(src: nat, id: Id, n: int) returns (d: nat)
      requires Valid() && CanProbe(assets[..], id) && src < assets.Length
      requires (id.OwnershipId? || id.PossessionId?) && Linked(assets[..], Blank(id))
      requires assets[src].Ownership? || assets[src].Possession?
      modifies assets
      ensures d == Locate(old(assets[..]), id) && assets[..] == Send(old(assets[..]), src, id, n)
    {
      hide WellFormed, Linked, CanProbe, Send, FilledAt, Pow2, AddShares, HasStop, IsFirst;
      CanProbeStops(assets[..], id);
      SendStepByStep(assets[..], src, id, n);
      d := Scan(assets, Home(id.key, assets.Length), StopAt(id));
      Credit(assets, src, -n);
      Fill(d, id);
      Credit(assets, d, n);
    }

    /** The part that the transfer and the management-rights transfer have in common. */
    method MoveShares(so: nat, sp: nat, owner: nat, ownerManaging: nat, possessor: nat, possessorManaging: nat, n: int)
      returns (dOwn: nat, dPos: nat)
      requires Valid() && so < assets.Length && sp < assets.Length && CanMove(assets[..], so, sp, n)
      requires MoveEnds(assets[..], OwnershipId(owner, ownerManaging, assets[so].issuance), possessor,
          possessorManaging)
      modifies assets, changeFlags
      ensures Valid()
      ensures var c := Move(old(assets[..]), so, sp, owner, ownerManaging, possessor, possessorManaging, n);
        assets[..] == c.table && Flags() == Mark(old(Flags()), c.touched) && c.touched == [so, sp, dOwn, dPos]
    {
      hide WellFormed, SendEffect, MoveEffect, CanProbe, MoveEnds, Send, Sum, Pow2, Linked, Free, Bits, Mark, Locate;
      ghost var t := assets[..];
      ghost var oid := OwnershipId(owner, ownerManaging, t[so].issuance);
      FirstSend(t, so, sp, oid, possessor, possessorManaging, n);
      MoveKeeps(t, so, sp, owner, ownerManaging, possessor, possessorManaging, n);
      dOwn := SendShares(so, OwnershipId(owner, ownerManaging, assets[so].issuance), n);
      dPos := SendShares(sp, PossessionId(possessor, possessorManaging, dOwn), n);
      RaiseEach(changeFlags, [so, sp, dOwn, dPos]);
    }

    method TransferShareOwnershipAndPossession(so: nat, sp: nat, destination: nat, n: int)
      returns (ok: bool, dOwn: nat, dPos: nat)
      requires Valid() && so < assets.Length && sp < assets.Length && TransferEnds(assets[..], so, sp, destination, n)
      modifies assets, changeFlags
      ensures Valid()
      ensures var c := Transfer(old(assets[..]), so, sp, destination, n);
        && assets[..] == c.table && ok == c.result && Flags() == Mark(old(Flags()), c.touched)
        && (|c.touched| == 4 ==> c.touched == [so, sp, dOwn, dPos])
    {
      assert Mark(Flags(), []) == Flags();
      dOwn, dPos := 0, 0;
      if n <= 0 {
        return false, dOwn, dPos;
      }
      if !(assets[so].Ownership? && assets[so].shares >= n && assets[sp].Possession? && assets[sp].shares >= n
           && assets[sp].ownership == so) {
        return false, dOwn, dPos;
      }
      ghost var t := assets[..];
      assert Linked(t, t[so]);
      if destination == 0 {
        if assets[assets[so].issuance].key == 0 {
          return false, dOwn, dPos;
        }
        assets[so] := WithShares(assets[so], assets[so].shares - n);
        assets[sp] := WithShares(assets[sp], assets[sp].shares - n);
        assert assets[..] == Burn(t, so, sp, n);
        assert SameRecords(t, assets[..]);
        SameRecordsKeepsWellFormed(t, assets[..]);
        RaiseEach(changeFlags, [so, sp]);
        return true, dOwn, dPos;
      }
      dOwn, dPos := MoveShares(so, sp, destination, assets[so].managing, destination, assets[sp].managing, n);
      return true, dOwn, dPos;
    }

    method TransferShareManagementRights(so: nat, sp: nat, ownerManaging: nat, possessorManaging: nat, n: int)
      returns (ok: bool, dOwn: nat, dPos: nat)
      requires Valid() && so < assets.Length && sp < assets.Length
      requires RightsEnd(assets[..], so, sp, ownerManaging, possessorManaging, n)
      modifies assets, changeFlags
      ensures Valid()
      ensures var c := Rights(old(assets[..]), so, sp, ownerManaging, possessorManaging, n);
        && assets[..] == c.table && ok == c.result && Flags() == Mark(old(Flags()), c.touched)
        && (ok ==> c.touched == [so, sp, dOwn, dPos])
    {
      assert Mark(Flags(), []) == Flags();
      dOwn, dPos := 0, 0;
      if n <= 0 {
        return false, dOwn, dPos;
      }
      if !(assets[so].Ownership? && assets[so].shares >= n && assets[sp].Possession? && assets[sp].shares >= n
           && assets[sp].ownership == so) {
        return false, dOwn, dPos;
      }
      MoveKeeps(assets[..], so, sp, assets[so].key, ownerManaging, assets[sp].key, possessorManaging, n);
      dOwn, dPos := MoveShares(so, sp, assets[so].key, ownerManaging, assets[sp].key, possessorManaging, n);
      return true, dOwn, dPos;
    }

    /** The seven-argument transfer: three lookups by key, then the transfer on slots. */
    method TransferByKeys(name: nat, issuer: nat, owner: nat, possessor: nat, n: int, managing: nat, destination: nat)
      returns (result: int)
      requires Valid() && TransferByKeyEnds(assets[..], name, issuer, owner, possessor, n, managing, destination)
      modifies assets, changeFlags
      ensures Valid()
      ensures var c := TransferByKey(old(assets[..]), name, issuer, owner, possessor, n, managing, destination);
        assets[..] == c.table && result == c.result && Flags() == Mark(old(Flags()), c.touched)
    {
      hide Linked, Unique, Transfer, TransferEnds, Reaches;
      assert Mark(Flags(), []) == Flags();
      var found, i := Find(IssuanceId(issuer, name));
      LocateDecides(assets[..], IssuanceId(issuer, name));
      if !found {
        return -n;
      }
      var o;
      found, o := Find(OwnershipId(owner, managing, i));
      LocateDecides(assets[..], OwnershipId(owner, managing, i));
      if !found {
        return -n;
      }
      ProbeIsFirst(assets[..], Home(possessor, assets.Length), StopAtPossessor(possessor, o));
      var p := Scan(assets, Home(possessor, assets.Length), StopAtPossessor(possessor, o));
      if assets[p].Empty? {
        return -n;
      }
      if assets[p].managing != managing {
        return -1;
      }
      if assets[p].shares < n {
        return assets[p].shares - n;
      }
      ghost var t := assets[..];
      var ok, dOwn, dPos := TransferShareOwnershipAndPossession(o, p, destination, n);
      if !ok {
        return -1;
      }
      TransferKeepsPossession(t, o, p, destination, n);
      return assets[p].shares;
    }

    // ----- assetsEndEpoch -----

    /** One round of the rebuild: the three find-or-create probes run on the new array. */
    method CarryRecord(reorg: array<Asset>, i: nat)
      requires Valid() && reorg != assets && reorg.Length == assets.Length
      requires i < assets.Length && Carried(assets[..], i) && RebuiltTo(assets[..], reorg[..], i)
      modifies reorg
      ensures Linked(assets[..], assets[i]) && Linked(assets[..], assets[assets[i].ownership])
      ensures reorg[..] == Carry(assets[..], old(reorg[..]), i)
    {
      ghost var t, u := assets[..], reorg[..];
      RoundHasRoom(t, u, i);
      hide RebuiltTo, Free, Unique;
      var own := assets[assets[i].ownership];
      var iid := IssuanceId(assets[own.issuance].key, assets[own.issuance].name);
      FreeHasStop(reorg[..], StopAt(iid));
      var issuanceIndex := Scan(reorg, Home(iid.key, reorg.Length), StopAt(iid));
      if reorg[issuanceIndex].Empty? {
        reorg[issuanceIndex] := assets[own.issuance];
      }
      ghost var u1 := PutIssuance(t, u, own.issuance);
      assert reorg[..] == u1;
      var oid := OwnershipId(own.key, own.managing, issuanceIndex);
      FreeHasStop(reorg[..], StopAt(oid));
      var ownershipIndex := FindOrCreate(reorg, oid);
      ghost var u2 := Open(u1, oid);
      Credit(reorg, ownershipIndex, assets[i].shares);
      ghost var u3 := AddShares(u2, ownershipIndex, t[i].shares);
      var pid := PossessionId(assets[i].key, assets[i].managing, ownershipIndex);
      FreeHasStop(reorg[..], StopAt(pid));
      var possessionIndex := FindOrCreate(reorg, pid);
      Credit(reorg, possessionIndex, assets[i].shares);
    }

    /** The rebuild into a new array. */
    method Reorganize() returns (reorg: array<Asset>)
      requires Valid()
      ensures fresh(reorg) && reorg[..] == EndEpoch(assets[..])
    {
      reorg := new Asset[assets.Length](_ => Empty);
      assert reorg[..] == Blanks(assets.Length);
      hide RebuiltTo, Unique, Linked;
      for i := 0 to assets.Length
        invariant fresh(reorg) && reorg.Length == assets.Length
        invariant reorg[..] == Rebuild(assets[..], i)
      {
        RebuildIsTraced(assets[..], i);
        if assets[i].Possession? && assets[i].shares > 0 {
          CarryRecord(reorg, i);
        }
      }
    }

    method AssetsEndEpoch()
      requires Valid()
      modifies assets, changeFlags
      ensures Valid()
      ensures assets[..] == EndEpoch(old(assets[..]))
      ensures Flags() == AllFlags(assets.Length)
    {
      EndEpochKeeps(assets[..]);
      hide WellFormed, EndEpoch, Pow2;
      var reorg := Reorganize();
      ghost var u := reorg[..];
      for i := 0 to assets.Length
        invariant reorg[..] == u && reorg.Length == assets.Length
        invariant forall j :: 0 <= j < i ==> assets[j] == u[j]
      {
        assets[i] := reorg[i];
      }
      assert assets[..] == u;
      RaiseAll(changeFlags);
    }

    // ----- getUniverseDigest -----

    /** Every leaf is hashed and flagged. */
    method HashAllLeaves()
      requires Valid()
      modifies digests, changeFlags
      ensures digests[..] == LeafPass(leafHash, assets[..], old(digests[..]), AllFlags(assets.Length))
      ensures Flags() == AllFlags(assets.Length)
    {
      for i := 0 to assets.Length
        invariant forall j :: 0 <= j < i ==> Bits(changeFlags[..])[j]
        invariant forall m :: 0 <= m < digests.Length ==>
            digests[m] == if m < i then leafHash(assets[m]) else old(digests[m])
      {
        digests[i] := leafHash(assets[i]);
        Raise(changeFlags, i);
      }
    }

    /** Flagged leaves are hashed. */
    method HashFlaggedLeaves()
      requires Valid()
      modifies digests
      ensures digests[..] == LeafPass(leafHash, assets[..], old(digests[..]), Flags())
    {
      for i := 0 to assets.Length
        invariant forall m :: 0 <= m < digests.Length ==>
          digests[m] == if m < i && Flags()[m] then leafHash(assets[m]) else old(digests[m])
      {
        var flagged := Test(changeFlags, i);
        if flagged {
          digests[i] := leafHash(assets[i]);
        }
      }
    }

    /** With `full`, every leaf is hashed and flagged; otherwise the flagged leaves are hashed. */
    method GetUniverseDigest(full: bool) returns (root: D)
      requires Valid()
      modifies digests, changeFlags
      ensures digests[..] == DigestCall(leafHash, nodeHash, assets[..], old(digests[..]),
          if full then AllFlags(assets.Length) else old(Flags()))
      ensures Flags() == NoFlags(assets.Length)
      ensures root == digests[2 * assets.Length - 2]
      ensures full || Current(leafHash, nodeHash, assets[..], old(digests[..]), old(Flags())) ==>
        root == Root(nodeHash, Leaves(leafHash, assets[..]))
    {
      hide Current, Root, Leaves, RefreshedAll, LeafPass, WellFormed;
      if full {
        HashAllLeaves();
      } else {
        HashFlaggedLeaves();
      }
      PropagateUp(nodeHash, digests, changeFlags);
      assert Flags() == NoFlags(assets.Length);
      EitherCallIsRoot(leafHash, nodeHash, assets[..], old(digests[..]), old(Flags()), full);
      root := digests[2 * assets.Length - 2];
    }
  }

  /** The probe that stops at the wanted record or at an unused slot, which then receives a blank record. */
  method FindOrCreate(a: array<Asset>, id: Id) returns (d: nat)
    requires a.Length > 0 && CanProbe(a[..], id) && (id.OwnershipId? || id.PossessionId?)
    modifies a
    ensures d == Locate(old(a[..]), id) && d < a.Length && a[..] == Open(old(a[..]), id)
  {
    d := Scan(a, Home(id.key, a.Length), StopAt(id));
    if a[d].Empty? {
      a[d] := Blank(id);
    }
  }

  method Credit(a: array<Asset>, p: nat, shares: int)
    requires p < a.Length && (a[p].Ownership? || a[p].Possession?)
    modifies a
    ensures a[..] == AddShares(old(a[..]), p, shares)
  {
    a[p] := WithShares(a[p], a[p].shares + shares);
  }

  /** The table with a blank record in slot d if that slot was unused. */
  function FilledAt(t: seq<Asset>, d: nat, id: Id): seq<Asset>
    requires d < |t| && (id.OwnershipId? || id.PossessionId?)
  {
    if t[d].Empty? then t[d := Blank(id)] else t
  }

  lemma FillAfterDebit(t: seq<Asset>, src: nat, d: nat, id: Id, n: int)
    requires src < |t| && d < |t| && (id.OwnershipId? || id.PossessionId?) && (t[src].Ownership? || t[src].Possession?)
    ensures FilledAt(AddShares(t, src, -n), d, id) == AddShares(FilledAt(t, d, id), src, -n)
  {
  }

  /** The source debits before it creates the destination record; the result is the same. */
  lemma SendStepByStep(t: seq<Asset>, src: nat, id: Id, n: int)
    requires WellFormed(t) && CanProbe(t, id) && src < |t| && (id.OwnershipId? || id.PossessionId?)
    requires Linked(t, Blank(id))
    requires t[src].Ownership? || t[src].Possession?
    ensures var d := Locate(t, id); var t2 := FilledAt(AddShares(t, src, -n), d, id);
      && (t2[d].Ownership? || t2[d].Possession?)
      && Send(t, src, id, n) == AddShares(t2, d, n)
  {
    LocateDecides(t, id);
    hide WellFormed, Linked, Holds, Reaches, CanProbe;
    FillAfterDebit(t, src, Locate(t, id), id, n);
  }

  lemma TransferKeepsPossession(t: seq<Asset>, so: nat, sp: nat, destination: nat, n: int)
    requires WellFormed(t) && so < |t| && sp < |t| && TransferEnds(t, so, sp, destination, n) && t[sp].Possession?
    ensures Transfer(t, so, sp, destination, n).table[sp].Possession?
  {
  }
}
