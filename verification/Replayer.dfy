/**
 The replay loop of verifyLoggingEvent over the in-place tables, proved equal to
 Replay.ReplayFrom.
 */
module Replayer {
  import ST = SpectrumTable
  import QU = QuReplay
  import opened AssetTable
  import opened AssetLedger
  import opened SpectrumStore
  import opened Universe
  import opened Replay
  import RM = ReplayMeaning
  import opened AssetRuns
  import UR = UniverseRuns
  import DG = IncrementalDigest
  import MT = MerkleTree
  import SR = SpectrumRuns

  class Replayer<D, E> {
    const spectrum: SpectrumStore<D>
    const universe: Universe<E>

    constructor (spectrum: SpectrumStore<D>, universe: Universe<E>)
      ensures this.spectrum == spectrum && this.universe == universe
    {
      this.spectrum, this.universe := spectrum, universe;
    }

    ghost predicate Valid()
      reads this, spectrum, spectrum.records, universe, universe.assets
    {
      && spectrum.Valid() && universe.Valid()
      && Apart(spectrum.records) && Apart(spectrum.changeFlags) && Apart(spectrum.digests)
      && universe.assets as object != universe.digests as object
    }

    /** Not one of the buffers of the universe. */
    ghost predicate Apart(o: object)
    {
      o != universe.assets && o != universe.changeFlags && o != universe.digests
    }

    ghost function Current(): (s: Ledger)
      reads this, spectrum, spectrum.records, universe, universe.assets
    {
      Ledger(spectrum.records[..], universe.assets[..])
    }

    /** The stored universe digests are right wherever no flag is raised. */
    ghost predicate UniverseCurrent()
      reads universe, universe.assets, universe.changeFlags, universe.digests
    {
      DG.Current(universe.leafHash, universe.nodeHash, universe.assets[..], universe.digests[..], universe.Flags())
    }

    method ApplyQuEvent(e: QU.QuEvent)
      requires Valid() && ApplyQu(Current(), e).Done?
      modifies spectrum.records
      ensures Valid() && Done(Current()) == ApplyQu(old(Current()), e)
    {
      match e
      case QuTransfer(p, tick) => spectrum.ProcessQuTransfer(p, tick);
      case QuBurn(source, amount, tick) => spectrum.ProcessQuBurn(source, amount, tick);
      case Dividends(items, tick) => var ok := spectrum.ProcessDistributeDividends(items, tick);
    }

    method ProcessIssueAsset(e: Event)
      requires Valid() && e.Issuance? && ApplyIssuance(Current(), e).Done?
      modifies universe.assets, universe.changeFlags
      ensures Valid() && Done(Current()) == ApplyIssuance(old(Current()), e)
      ensures old(UniverseCurrent()) ==> UniverseCurrent()
    {
      assert IssueEnds(universe.assets[..], e.issuer, e.name);
      hide WellFormed, ST.WellFormed, Issue, IssueEnds, AssetTable.Free, DG.Current;
      var issued, i, o, p := universe.IssueAsset(e.issuer, e.name, e.decimals, e.unit, e.shares, e.managing);
      if old(UniverseCurrent()) {
        OperationKeepsCurrent(universe.leafHash, universe.nodeHash, old(universe.assets[..]), universe.digests[..],
                              old(universe.Flags()),
                              IssueOp(e.issuer, e.name, e.decimals, e.unit, e.shares, e.managing));
      }
    }

    method ProcessChangeOwnershipAndPossession(e0: Event, e1: Event) returns (exited: bool)
      requires Valid() && (e0.OwnershipChange? || e0.PossessionChange?) && (e1.OwnershipChange? || e1.PossessionChange?)
      requires ApplyChange(Current(), e0, e1) != Undefined
      modifies universe.assets, universe.changeFlags
      ensures Valid()
      ensures (if exited then Exited else Done(Current())) == ApplyChange(old(Current()), e0, e1)
      ensures old(UniverseCurrent()) ==> UniverseCurrent()
    {
      if !((e0.OwnershipChange? && e1.PossessionChange?) || (e1.OwnershipChange? && e0.PossessionChange?)) {
        return true;
      }
      if e0.change != e1.change {
        return true;
      }
      hide ApplyMatchedChange;
      TransferOnKeys(e0.change);
      return false;
    }

    /** The seven-argument transfer, with the source as owner and possessor. */
    method TransferOnKeys(c: Replay.Change)
      requires Valid() && ApplyMatchedChange(Current(), c).Done?
      modifies universe.assets, universe.changeFlags
      ensures Valid() && Done(Current()) == ApplyMatchedChange(old(Current()), c)
      ensures old(UniverseCurrent()) ==> UniverseCurrent()
    {
      hide WellFormed, ST.WellFormed, TransferByKey, TransferByKeyEnds, AssetTable.Free, DG.Current;
      var r := universe.TransferByKeys(c.name, c.issuer, c.source, c.source, c.shares, c.managing, c.destination);
      if old(UniverseCurrent()) {
        OperationKeepsCurrent(universe.leafHash, universe.nodeHash, old(universe.assets[..]), universe.digests[..],
                              old(universe.Flags()),
                              TransferKeysOp(c.name, c.issuer, c.source, c.source, c.shares, c.managing,
                                  c.destination));
      }
    }

    method ProcessChangeManagingContract(e0: Event, e1: Event) returns (exited: bool)
      requires Valid() && (e0.OwnershipRights? || e0.PossessionRights?) && (e1.OwnershipRights? || e1.PossessionRights?)
      requires ApplyRights(Current(), e0, e1) != Undefined
      modifies universe.assets, universe.changeFlags
      ensures Valid()
      ensures (if exited then Exited else Done(Current())) == ApplyRights(old(Current()), e0, e1)
      ensures old(UniverseCurrent()) ==> UniverseCurrent()
    {
      if !((e0.OwnershipRights? && e1.PossessionRights?) || (e1.OwnershipRights? && e0.PossessionRights?)) {
        return true;
      }
      var own, pos := e0, e1;
      if !e0.OwnershipRights? {
        own, pos := e1, e0;
      }
      if own.owner != pos.owner || own.name != pos.name || own.shares != pos.shares || own.from != pos.from
          || own.to != pos.to {
        return true;
      }
      exited := TransferRights(own, pos);
    }

    method FindRightsSlots(own: Event, pos: Event) returns (i: nat, o: nat, p: nat)
      requires Valid() && own.OwnershipRights? && pos.PossessionRights?
      requires RightsLookupsEnd(universe.assets[..], own, pos)
      ensures (i, o, p) == RightsSlots(universe.assets[..], own, pos)
    {
      hide WellFormed, ST.WellFormed, CanProbe, Locate;
      var found;
      found, i := universe.FindIssuerIndex(own.issuer, own.name);
      found, o := universe.FindOwnershipIndex(i, own.owner, own.from);
      found, p := universe.FindPossessionIndex(o, pos.possessor, own.from);
    }

    /** Three lookups, then the management-rights transfer; the process stops if that fails. */
    method TransferRights(own: Event, pos: Event) returns (exited: bool)
      requires Valid() && own.OwnershipRights? && pos.PossessionRights?
      requires ApplyMatchedRights(Current(), own, pos) != Undefined
      modifies universe.assets, universe.changeFlags
      ensures Valid()
      ensures (if exited then Exited else Done(Current())) == ApplyMatchedRights(old(Current()), own, pos)
      ensures old(UniverseCurrent()) ==> UniverseCurrent()
    {
      hide WellFormed, Rights, RightsEnd, RightsLookupsEnd, ST.WellFormed, AssetTable.Free, DG.Current, RightsSlots,
          ApplyMatchedRights;
      ghost var s := Current();
      MatchedRights(s, own, pos);
      var i, o, p := FindRightsSlots(own, pos);
      var to := own.to % 0x1_0000;
      var ok := TransferOnSlots(o, p, to, own.shares);
      exited := !ok;
    }

    /** The management-rights transfer itself, to one managing contract. */
    method TransferOnSlots(so: nat, sp: nat, to: nat, n: int) returns (ok: bool)
      requires Valid() && so < universe.assets.Length && sp < universe.assets.Length
      requires RightsEnd(universe.assets[..], so, sp, to, to, n)
      modifies universe.assets, universe.changeFlags
      ensures Valid()
      ensures var c := Rights(old(universe.assets[..]), so, sp, to, to, n);
        universe.assets[..] == c.table && ok == c.result
      ensures old(UniverseCurrent()) ==> UniverseCurrent()
    {
      hide WellFormed, Rights, RightsEnd, ST.WellFormed, AssetTable.Free, DG.Current;
      var dOwn, dPos;
      ok, dOwn, dPos := universe.TransferShareManagementRights(so, sp, to, to, n);
      if old(UniverseCurrent()) {
        OperationKeepsCurrent(universe.leafHash, universe.nodeHash, old(universe.assets[..]), universe.digests[..],
                              old(universe.Flags()), RightsOp(so, sp, to, to, n));
      }
    }

    /** The dividend window that starts after i: collected up to the next custom message. */
    method CollectWindow(events: seq<Event>, i: nat) returns (window: seq<Event>, j: nat)
      requires i <= |events|
      ensures j == FirstCustom(events, i) && window == events[i..j]
    {
      j := i;
      window := [];
      while j < |events| && !events[j].Custom?
        invariant i <= j <= |events| && window == events[i..j]
        invariant FirstCustom(events, i) == FirstCustom(events, j)
      {
        window := window + [events[j]];
        j := j + 1;
      }
    }

    /** One turn of the loop. */
    method ProcessEvent(events: seq<Event>, c: Cursor) returns (exited: bool, next: nat)
      requires Valid() && c.i < |events| && CursorOk(c) && ApplyAt(Current(), events, c) != Undefined
      modifies spectrum.records, universe.assets, universe.changeFlags
      ensures Valid() && next == NextIndex(events, c.i)
      ensures (if exited then Exited else Done(Current())) == ApplyAt(old(Current()), events, c)
      ensures old(UniverseCurrent()) ==> UniverseCurrent()
    {
      hide ApplyQu, ApplyIssuance, ApplyChange, ApplyRights, DG.Current;
      exited, next := false, c.i + 1;
      var e := events[c.i];
      match e
      case Transfer(payment, tick) => ApplyQuEvent(QU.QuTransfer(payment, tick));
      case Burning(source, amount, tick) => ApplyQuEvent(QU.QuBurn(source, amount, tick));
      case Issuance(_, _, _, _, _, _) => ProcessIssueAsset(e);
      case OwnershipChange(_) =>
        if c.ple.Some? { exited := ProcessChangeOwnershipAndPossession(c.ple.value, e); }
      case PossessionChange(_) =>
        if c.ple.Some? { exited := ProcessChangeOwnershipAndPossession(c.ple.value, e); }
      case OwnershipRights(_, _, _, _, _, _) =>
        if c.ple1.Some? { exited := ProcessChangeManagingContract(c.ple1.value, e); }
      case PossessionRights(_, _, _, _, _, _) =>
        if c.ple1.Some? { exited := ProcessChangeManagingContract(c.ple1.value, e); }
      case Custom(message) =>
        if message == StartDividends {
          var window, j := CollectWindow(events, c.i + 1);
          next := j + 1;
          if j == |events| {
            exited := true;
          } else {
            ApplyQuEvent(WindowEvent(window));
          }
        }
      case Ignored =>
    }

    /** The whole loop; it either runs to the end or stops the process. */
    method ReplayEvents(events: seq<Event>) returns (exited: bool)
      requires Valid() && ReplayFrom(Current(), events, Start()) != Undefined
      modifies spectrum.records, universe.assets, universe.changeFlags
      ensures Valid()
      ensures (if exited then Exited else Done(Current())) == ReplayFrom(old(Current()), events, Start())
      ensures exited <==> !RM.CanReplay(old(Current()), events)
      ensures !exited ==>
        Current() == RM.After(old(Current()), RM.QuActions(events, 0), RM.Actions(events, 0))
      ensures old(UniverseCurrent()) ==> UniverseCurrent()
    {
      hide DG.Current, RM.CanReplay, RM.After, RM.QuActions, RM.Actions;
      LogMeans(Current(), events);
      var c := Start();
      while c.i < |events|
        invariant Valid() && CursorOk(c)
        invariant old(UniverseCurrent()) ==> UniverseCurrent()
        invariant ReplayFrom(old(Current()), events, Start()) == ReplayFrom(Current(), events, c)
        decreases |events| - c.i
      {
        var next;
        hide ApplyAt;
        exited, next := ProcessEvent(events, c);
        if exited {
          return;
        }
        c := Advance(events, c);
      }
      exited := false;
    }

    /** Both digest trees belong to the tables: the state between two batches. */
    ghost predicate Settled()
      reads this, spectrum, spectrum.records, spectrum.changeFlags, spectrum.digests
      reads universe, universe.assets, universe.changeFlags, universe.digests
    {
      && Valid() && UniverseCurrent()
      && spectrum.Flags() == DG.NoFlags(spectrum.records.Length)
      && DG.Current(spectrum.leafHash, spectrum.nodeHash, spectrum.records[..], spectrum.digests[..],
                    DG.NoFlags(spectrum.records.Length))
    }

    /** The first full pass over both tables, from any stored digests. */
    method FullPass()
      requires Valid() && spectrum.Flags() == DG.NoFlags(spectrum.records.Length)
      modifies spectrum.changeFlags, spectrum.digests, universe.changeFlags, universe.digests
      ensures Settled() && Current() == old(Current())
    {
      hide DG.Current, MT.Root, DG.Leaves, ST.WellFormed, WellFormed, MT.Pow2, SR.WindowFlags, DG.DigestCall, MT.IsTree;
      DG.FullCallIsRoot(spectrum.leafHash, spectrum.nodeHash, spectrum.records[..], spectrum.digests[..]);
      DG.FullCallIsRoot(universe.leafHash, universe.nodeHash, universe.assets[..], universe.digests[..]);
      var spectrumRoot := spectrum.ComputeSpectrumDigest(true, 0, 0);
      var universeRoot := universe.GetUniverseDigest(true);
    }

    /**
     One batch of the verifier: the events of the ticks from..to are replayed and both roots
     are brought up to date. They are the roots, from scratch, of the ledgers that the replay
     specifies, and the state is ready for the next batch.
     */
    method VerifyBatch(events: seq<Event>, from: nat, to: nat)
      returns (exited: bool, spectrumRoot: D, universeRoot: E)
      requires Settled() && ReplayFrom(Current(), events, Start()) != Undefined
      requires SR.TicksInWindow(SR.Batch(QuEvents(events, 0), from, to))
      modifies spectrum.records, spectrum.changeFlags, spectrum.digests
      modifies universe.assets, universe.changeFlags, universe.digests
      ensures exited ==> ReplayFrom(old(Current()), events, Start()) == Exited
      ensures exited <==> !RM.CanReplay(old(Current()), events)
      ensures !exited ==>
        && Settled() && Done(Current()) == ReplayFrom(old(Current()), events, Start())
        && Current() == RM.After(old(Current()), RM.QuActions(events, 0), RM.Actions(events, 0))
        && (old(Healthy(Current())) && Issuable(events) ==> Healthy(Current()))
        && spectrumRoot == MT.Root(spectrum.nodeHash, DG.Leaves(spectrum.leafHash, spectrum.records[..]))
        && universeRoot == MT.Root(universe.nodeHash, DG.Leaves(universe.leafHash, universe.assets[..]))
    {
      hide DG.Current, MT.Root, DG.Leaves, Healthy, ST.WellFormed, WellFormed, Issuable, MT.Pow2, SR.TicksInWindow;
      hide ReplayFrom, QuEvents, QU.RunQu, SR.WindowFlags, DG.DigestCall, RM.CanReplay, RM.After;
      hide RM.QuActions, RM.Actions;
      ghost var before := Current();
      spectrumRoot, universeRoot := spectrum.digests[0], universe.digests[0];
      exited := ReplayEvents(events);
      if exited {
        return;
      }
      SpectrumNonEmpty(before);
      ReplaySpectrum(before, events, Start());
      if Healthy(before) && Issuable(events) { ReplayKeeps(before, events, Start()); }
      WindowIsCurrent(spectrum.leafHash, spectrum.nodeHash, before.spectrum, spectrum.records[..], spectrum.digests[..],
                      SR.Batch(QuEvents(events, 0), from, to));
      DG.DigestCallIsRoot(spectrum.leafHash, spectrum.nodeHash, spectrum.records[..], spectrum.digests[..],
                          SR.WindowFlags(spectrum.records[..], from, to));
      spectrumRoot := spectrum.ComputeSpectrumDigest(false, from, to);
      DG.DigestCallIsRoot(universe.leafHash, universe.nodeHash, universe.assets[..], universe.digests[..],
          universe.Flags());
      universeRoot := universe.GetUniverseDigest(false);
    }
  }

  lemma {:induction false} LogMeans(s: Ledger, events: seq<Event>)
    requires ST.WellFormed(s.spectrum) && WellFormed(s.universe)
    ensures var o := ReplayFrom(s, events, Start());
      && (o.Done? <==> RM.CanReplay(s, events))
      && (o.Done? ==> o.ledger == RM.After(s, RM.QuActions(events, 0), RM.Actions(events, 0)))
  {
    hide RM.Performs, RM.FormedFrom, RM.QuActions, RM.Actions, ReplayFrom;
    RM.ReplayMeans(s, events);
  }

  lemma SpectrumNonEmpty(s: Ledger)
    requires ST.WellFormed(s.spectrum)
    ensures |s.spectrum| > 0
  {
  }

  /** After a batch the stored spectrum digests are right outside the records that its window selects. */
  lemma {:induction false} WindowIsCurrent<D>(leaf: ST.Slot -> D, node: (D, D) -> D, t: seq<ST.Slot>, u: seq<ST.Slot>,
                                              d: seq<D>, b: SR.Batch)
    requires |t| > 0 && DG.Current(leaf, node, t, d, DG.NoFlags(|t|))
    requires u == QU.RunQu(t, b.events) && SR.TicksInWindow(b)
    ensures DG.Current(leaf, node, u, d, SR.WindowFlags(u, b.from, b.to))
  {
    hide DG.Current, QU.RunQu, SR.WindowFlags, SR.ChangesInWindow;
    SR.BatchInWindow(t, b.events, b.from, b.to);
    SR.WindowCovers(leaf, node, t, u, d, b.from, b.to);
  }

  /** A transfer of management rights without shares is refused, and a refused one leaves the table alone. */
  lemma RefusalChangesNothing(t: seq<Asset>, so: nat, sp: nat, managing: nat, n: int)
    requires so < |t| && sp < |t| && WellFormed(t)
    ensures n <= 0 ==> RightsEnd(t, so, sp, managing, managing, n) && !Rights(t, so, sp, managing, managing, n).result
    ensures RightsEnd(t, so, sp, managing, managing, n) && !Rights(t, so, sp, managing, managing, n).result
            ==> Rights(t, so, sp, managing, managing, n).table == t
  {
    hide WellFormed, MoveEnds;
    if RightsEnd(t, so, sp, managing, managing, n) && CanMove(t, so, sp, n) {
      MoveKeeps(t, so, sp, t[so].key, managing, t[sp].key, managing, n);
    }
  }

  /** What a matched pair of rights changes does, from the three slots on. */
  lemma MatchedRights(s: Ledger, own: Event, pos: Event)
    requires own.OwnershipRights? && pos.PossessionRights? && ApplyMatchedRights(s, own, pos) != Undefined
    ensures WellFormed(s.universe) && RightsLookupsEnd(s.universe, own, pos)
    ensures var (i, o, p) := RightsSlots(s.universe, own, pos);
      var to := own.to % 0x1_0000;
      && o < |s.universe| && p < |s.universe| && RightsEnd(s.universe, o, p, to, to, own.shares)
      && var c := Rights(s.universe, o, p, to, to, own.shares);
         && ApplyMatchedRights(s, own, pos) == (if c.result then Done(Ledger(s.spectrum, c.table)) else Exited)
         && (!c.result ==> c.table == s.universe)
  {
    hide Reaches, Unique, Linked, RightsLookupsEnd, RightsSlots, RightsEnd, Rights;
    var (_, o, p) := RightsSlots(s.universe, own, pos);
    var to := own.to % 0x1_0000;
    RefusalChangesNothing(s.universe, o, p, to, own.shares);
  }

  /** An operation that raises its flags keeps the stored digests current. */
  lemma OperationKeepsCurrent<E>(leaf: Asset -> E, node: (E, E) -> E, t: seq<Asset>, d: seq<E>, f: seq<bool>, op: Op)
    requires WellFormed(t) && Completes(t, op) && DG.Current(leaf, node, t, d, f)
    ensures DG.Current(leaf, node, Step(t, op), d, UR.Flagged(t, op, f))
  {
    UR.LedgerKeepsCurrent(leaf, node, UR.State(t, d, f), op);
  }
}
