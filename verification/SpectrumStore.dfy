/**
 The spectrum as Entity.h and LoggingEventProcessor.cpp keep it: arrays updated in place.
 Every method is proved equal to the corresponding function of Spectrum or QuReplay.
 */
module SpectrumStore {
  import opened Probing
  import opened SpectrumTable
  import opened Spectrum
  import opened QuReplay
  import opened SpectrumRuns
  import opened ChangeFlags
  import opened MerkleTree
  import opened IncrementalDigest

  class SpectrumStore<D> {
    const leafHash: Slot -> D
    const nodeHash: (D, D) -> D
    const records: array<Slot>
    const changeFlags: array<bv64>
    const digests: array<D>

    constructor (leafHash: Slot -> D, nodeHash: (D, D) -> D, records: array<Slot>, changeFlags: array<bv64>,
                 digests: array<D>)
      ensures this.leafHash == leafHash && this.nodeHash == nodeHash
      ensures this.records == records && this.changeFlags == changeFlags && this.digests == digests
    {
      this.leafHash, this.nodeHash := leafHash, nodeHash;
      this.records, this.changeFlags, this.digests := records, changeFlags, digests;
    }

    ghost predicate Valid()
      reads this, records
    {
      && Pow2(records.Length)
      && records.Length == 64 * changeFlags.Length
      && digests.Length == 2 * records.Length - 1
      && WellFormed(records[..])
    }

    ghost function Flags(): (f: seq<bool>)
      reads this, changeFlags
    {
      Bits(changeFlags[..])
    }

    // ----- Entity.h -----

    /** spectrumIndex: the slot of a key, or -1; the zero key has none. */
    method SpectrumIndex(key: nat) returns (index: int)
      requires Valid() && PayEnds(records[..], key)
      ensures index != -1 <==> key in View(records[..])
      ensures index != -1 ==> 0 <= index < records.Length && records[index].Entity?
      ensures index != -1 ==> View(records[..])[key] == records[index]
                              && index == Locate(records[..], key)
    {
      NotZeroKey(records[..]);
      if key == 0 {
        return -1;
      }
      LocateDecides(records[..], key);
      var p := Scan(records, Home(key, records.Length), StopAtKey(key));
      if records[p].Vacant? {
        return -1;
      }
      return p;
    }

    method IncreaseEnergy(key: nat, amount: int, tick: nat)
      requires Valid() && CanCredit(records[..], key, amount)
      modifies records
      ensures Valid() && records[..] == Increase(old(records[..]), key, amount, tick)
    {
      IncreaseKeeps(records[..], key, amount, tick);
      if key == 0 || amount < 0 {
        return;
      }
      var p := Scan(records, Home(key, records.Length), StopAtKey(key));
      records[p] := Credited(records[p], key, amount, tick);
      assert records[..] == Increase(old(records[..]), key, amount, tick);
    }

    method DecreaseEnergy(index: nat, amount: int, tick: nat) returns (ok: bool)
      requires Valid() && index < records.Length && records[index].Entity?
      modifies records
      ensures Valid() && records[..] == Decrease(old(records[..]), index, amount, tick)
      ensures ok == CanPay(old(records[index]), amount)
    {
      DecreaseKeeps(records[..], index, amount, tick);
      if amount >= 0 {
        if Energy(records[index]) >= amount {
          records[index] := Debited(records[index], amount, tick);
          assert records[..] == Decrease(old(records[..]), index, amount, tick);
          return true;
        }
      }
      return false;
    }

    method ReorganizeSpectrum()
      requires Valid()
      modifies records
      ensures Valid() && records[..] == Reorganized(old(records[..]), records.Length)
    {
      ghost var t := records[..];
      var reorg := new Slot[records.Length](_ => Vacant);
      assert reorg[..] == Vacancies(|t|);
      for i := 0 to records.Length
        invariant records[..] == t && reorg != records
        invariant reorg[..] == Reorganized(t, i)
      {
        if Energy(records[i]) != 0 {
          InsertReady(t, i);
          var p := Scan(reorg, Home(records[i].key, reorg.Length), StopAtVacant());
          reorg[p] := records[i];
        }
      }
      ReorganizeRefines(t);
      for i := 0 to records.Length
        invariant reorg[..] == Reorganized(t, |t|)
        invariant forall j :: 0 <= j < i ==> records[j] == reorg[j]
      {
        records[i] := reorg[i];
      }
      assert records[..] == Reorganized(t, |t|);
    }

    // ----- QU events -----

    /** The lookup and debit that the QU events share; a failed lookup or debit is only logged. */
    method DebitSource(source: nat, amount: int, tick: nat)
      requires Valid() && PayEnds(records[..], source)
      modifies records
      ensures Valid() && records[..] == Pay(old(records[..]), source, amount, tick)
    {
      PayKeeps(records[..], source, amount, tick);
      if source != 0 { LocateDecides(records[..], source); }
      NotZeroKey(records[..]);
      var index := SpectrumIndex(source);
      if index != -1 {
        var ok := DecreaseEnergy(index, amount, tick);
      }
    }

    method ProcessQuTransfer(p: Payment, tick: nat)
      requires Valid() && Ends(records[..], QuTransfer(p, tick))
      modifies records
      ensures Valid() && records[..] == Transfer(old(records[..]), p, tick)
    {
      DebitSource(p.source, p.amount, tick);
      IncreaseEnergy(p.destination, p.amount, tick);
    }

    method ProcessQuBurn(source: nat, amount: int, tick: nat)
      requires Valid() && PayEnds(records[..], source)
      modifies records
      ensures Valid() && records[..] == Pay(old(records[..]), source, amount, tick)
    {
      DebitSource(source, amount, tick);
    }

    /** The second loop of processDistributeDividends. */
    method CreditEach(items: seq<Payment>, tick: nat)
      requires Valid() && CreditAllEnds(records[..], items, tick)
      modifies records
      ensures Valid() && records[..] == CreditAll(old(records[..]), items, tick)
    {
      ghost var t := records[..];
      for i := 0 to |items|
        invariant Valid() && CreditAllEnds(records[..], items[i..], tick)
        invariant CreditAll(t, items, tick) == CreditAll(records[..], items[i..], tick)
      {
        IncreaseKeeps(records[..], items[i].destination, items[i].amount, tick);
        assert items[i..][1..] == items[i + 1..];
        IncreaseEnergy(items[i].destination, items[i].amount, tick);
      }
    }

    /** processDistributeDividends on payments of one tick. */
    method ProcessDistributeDividends(items: seq<Payment>, tick: nat) returns (ok: bool)
      requires Valid() && Ends(records[..], Dividends(items, tick))
      modifies records
      ensures Valid() && records[..] == Distribute(old(records[..]), items, tick)
      ensures ok <==> items == []
                      || (items[0].source in View(old(records[..]))
                          && forall i :: 0 <= i < |items| ==> items[i].source == items[0].source)
    {
      if |items| == 0 {
        return true;
      }
      var same, total := CommonSource(items);
      if !same {
        return false;
      }
      var index := SpectrumIndex(items[0].source);
      if items[0].source != 0 { LocateDecides(records[..], items[0].source); }
      NotZeroKey(records[..]);
      if index == -1 {
        return false;
      }
      DebitSource(items[0].source, total, tick);
      CreditEach(items, tick);
      return true;
    }

    // ----- computeSpectrumDigest -----

    /** One leaf is hashed and its flag raised. */
    method HashLeaf(i: nat)
      requires i < records.Length == 64 * changeFlags.Length && digests.Length == 2 * records.Length - 1
      modifies digests, changeFlags
      ensures digests[..] == old(digests[..])[i := leafHash(records[i])]
      ensures Flags() == old(Flags())[i := true]
    {
      digests[i] := leafHash(records[i]);
      Raise(changeFlags, i);
    }

    /** Leaves are hashed and flagged: all of them, or those touched in the window. */
    method HashLeaves(full: bool, from: nat, to: nat)
      requires Valid() && Flags() == NoFlags(records.Length)
      modifies digests, changeFlags
      ensures var f := if full then AllFlags(records.Length) else WindowFlags(records[..], from, to);
        Flags() == f && digests[..] == LeafPass(leafHash, records[..], old(digests[..]), f)
    {
      ghost var f := if full then AllFlags(records.Length) else WindowFlags(records[..], from, to);
      assert digests.Length == 2 * records.Length - 1 && records.Length == 64 * changeFlags.Length;
      hide WellFormed, InWindow, Pow2;
      for i := 0 to records.Length
        invariant forall j :: 0 <= j < records.Length ==> Flags()[j] == (j < i && f[j])
        invariant forall m :: 0 <= m < digests.Length ==>
          digests[..][m] == if m < i && f[m] then leafHash(records[m]) else old(digests[..])[m]
      {
        assert f[i] == (full || InWindow(records[i], from, to));
        if full || InWindow(records[i], from, to) {
          HashLeaf(i);
        }
      }
    }

    method ComputeSpectrumDigest(full: bool, from: nat, to: nat) returns (root: D)
      requires Valid() && Flags() == NoFlags(records.Length)
      modifies digests, changeFlags
      ensures Flags() == NoFlags(records.Length)
      ensures digests[..] == DigestCall(leafHash, nodeHash, records[..], old(digests[..]),
                                        if full then AllFlags(records.Length) else WindowFlags(records[..], from, to))
      ensures root == digests[2 * records.Length - 2]
      ensures full || Current(leafHash, nodeHash, records[..], old(digests[..]), WindowFlags(records[..], from, to)) ==>
        root == Root(nodeHash, Leaves(leafHash, records[..]))
    {
      hide Current, Root, Leaves, RefreshedAll, LeafPass, WellFormed;
      HashLeaves(full, from, to);
      PropagateUp(nodeHash, digests, changeFlags);
      assert Flags() == NoFlags(records.Length);
      EitherCallIsRoot(leafHash, nodeHash, records[..], old(digests[..]), WindowFlags(records[..], from, to), full);
      root := digests[2 * records.Length - 2];
    }
  }

  /** The first loop of processDistributeDividends: one source for all payments, and their total. */
  method CommonSource(items: seq<Payment>) returns (same: bool, total: int)
    requires items != []
    ensures same <==> forall i :: 0 <= i < |items| ==> items[i].source == items[0].source
    ensures same ==> total == Sum(items)
  {
    total := 0;
    for i := 0 to |items|
      invariant forall j :: 0 <= j < i ==> items[j].source == items[0].source
      invariant total + Sum(items[i..]) == Sum(items)
    {
      if items[i].source != items[0].source {
        return false, total;
      }
      total := total + items[i].amount;
    }
    same := true;
  }

  /** Before each insertion of the rebuild there is an unused slot. */
  lemma {:induction false} InsertReady(t: seq<Slot>, n: nat)
    requires WellFormed(t) && n < |t| && Energy(t[n]) != 0
    ensures HasStop(Reorganized(t, n), StopAtVacant())
  {
    ReorganizedKeeps(t, n);
    var u := Reorganized(t, n);
    InsertRoom(t, u, n);
    var x :| x in FreeSlots(u);
    assert StopAtVacant()(u[x]);
  }
}
