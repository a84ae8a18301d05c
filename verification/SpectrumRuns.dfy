/**
 The spectrum digest selects the leaves to re-hash by the ticks stored in the records.
 Every record that a batch of events changes carries a tick of that batch, so the
 incremental root after each batch is the root of a rebuild from scratch.
 */
module SpectrumRuns {
  import opened SpectrumTable
  import opened Spectrum
  import opened QuReplay
  import opened MerkleTree
  import opened IncrementalDigest

  /** The record was touched at a tick of the window. An unused slot carries tick zero. */
  predicate InWindow(r: Slot, from: nat, to: nat) {
    match r
    case Vacant => from == 0
    case Entity(_, _, _, _, _, latestIncoming, latestOutgoing) =>
        from <= latestIncoming <= to || from <= latestOutgoing <= to
  }

  function WindowFlags(t: seq<Slot>, from: nat, to: nat): (f: seq<bool>)
    ensures |f| == |t|
  {
    seq(|t|, i requires 0 <= i < |t| => InWindow(t[i], from, to))
  }

  function TickOf(e: QuEvent): nat {
    match e
    case QuTransfer(_, tick) => tick
    case QuBurn(_, _, tick) => tick
    case Dividends(_, tick) => tick
  }

  /** Slots outside the window are as before, and slots inside it stay inside. */
  ghost predicate ChangesInWindow(t: seq<Slot>, u: seq<Slot>, from: nat, to: nat) {
    && |u| == |t|
    && forall x :: 0 <= x < |t| && !InWindow(u[x], from, to) ==> u[x] == t[x]
  }

  lemma PayInWindow(t: seq<Slot>, source: nat, amount: int, tick: nat, from: nat, to: nat)
    requires |t| > 0 && from <= tick <= to
    ensures ChangesInWindow(t, Pay(t, source, amount, tick), from, to)
  {
  }

  lemma IncreaseInWindow(t: seq<Slot>, key: nat, amount: int, tick: nat, from: nat, to: nat)
    requires |t| > 0 && from <= tick <= to
    ensures ChangesInWindow(t, Increase(t, key, amount, tick), from, to)
  {
  }

  /** Windows compose as long as a record, once inside, is not moved out by a later event of the batch. */
  lemma {:induction false} CreditAllInWindow(t: seq<Slot>, items: seq<Payment>, tick: nat, from: nat, to: nat)
    requires |t| > 0 && from <= tick <= to
    ensures ChangesInWindow(t, CreditAll(t, items, tick), from, to)
    decreases |items|
  {
    if items != [] {
      var u := Increase(t, items[0].destination, items[0].amount, tick);
      IncreaseInWindow(t, items[0].destination, items[0].amount, tick, from, to);
      CreditAllInWindow(u, items[1..], tick, from, to);
    }
  }

  lemma EventInWindow(t: seq<Slot>, e: QuEvent, from: nat, to: nat)
    requires |t| > 0 && from <= TickOf(e) <= to
    ensures ChangesInWindow(t, StepQu(t, e), from, to)
  {
    match e
    case QuTransfer(p, tick) =>
      PayInWindow(t, p.source, p.amount, tick, from, to);
      IncreaseInWindow(Pay(t, p.source, p.amount, tick), p.destination, p.amount, tick, from, to);
    case QuBurn(source, amount, tick) =>
      PayInWindow(t, source, amount, tick, from, to);
    case Dividends(items, tick) =>
      if items != [] {
        PayInWindow(t, items[0].source, Sum(items), tick, from, to);
        CreditAllInWindow(Pay(t, items[0].source, Sum(items), tick), items, tick, from, to);
      }
  }

  lemma {:induction false} BatchInWindow(t: seq<Slot>, events: seq<QuEvent>, from: nat, to: nat)
    requires |t| > 0 && forall i :: 0 <= i < |events| ==> from <= TickOf(events[i]) <= to
    ensures ChangesInWindow(t, RunQu(t, events), from, to)
    decreases |events|
  {
    if events != [] {
      EventInWindow(t, events[0], from, to);
      BatchInWindow(StepQu(t, events[0]), events[1..], from, to);
    }
  }

  // ----- Runs of batches -----

  /** The events of the ticks from..to, followed by one digest call for that window. */
  datatype Batch = Batch(events: seq<QuEvent>, from: nat, to: nat)

  ghost predicate TicksInWindow(b: Batch) {
    forall i :: 0 <= i < |b.events| ==> b.from <= TickOf(b.events[i]) <= b.to
  }

  /** The digests after the batch. */
  ghost function Digested<D>(leaf: Slot -> D, node: (D, D) -> D, t: seq<Slot>, d: seq<D>, b: Batch): (e: seq<D>)
    requires |t| > 0 && |d| == 2 * |t| - 1
    ensures |e| == |d|
  {
    var u := RunQu(t, b.events);
    DigestCall(leaf, node, u, d, WindowFlags(u, b.from, b.to))
  }

  lemma WindowCovers<D>(leaf: Slot -> D, node: (D, D) -> D, t: seq<Slot>, u: seq<Slot>, d: seq<D>, from: nat, to: nat)
    requires Current(leaf, node, t, d, NoFlags(|t|)) && ChangesInWindow(t, u, from, to)
    ensures Current(leaf, node, u, d, WindowFlags(u, from, to))
  {
  }

  /** One batch: if the tree was exact before, the windowed digest call makes it exact again. */
  lemma {:induction false} BatchRootIsExact<D>(leaf: Slot -> D, node: (D, D) -> D, t: seq<Slot>, d: seq<D>, b: Batch)
    requires |t| > 0 && |d| == 2 * |t| - 1
    requires Pow2(|t|) && Current(leaf, node, t, d, NoFlags(|t|)) && TicksInWindow(b)
    ensures var u := RunQu(t, b.events); var e := Digested(leaf, node, t, d, b);
      Current(leaf, node, u, e, NoFlags(|u|)) && e[|e| - 1] == Root(node, Leaves(leaf, u))
  {
    hide Current, Root, Leaves, RunQu, WindowFlags, DigestCall, ChangesInWindow, Pow2, InWindow;
    var u := RunQu(t, b.events);
    BatchInWindow(t, b.events, b.from, b.to);
    WindowCovers(leaf, node, t, u, d, b.from, b.to);
    DigestCallIsRoot(leaf, node, u, d, WindowFlags(u, b.from, b.to));
  }

  /** After every batch of the run the stored root is the root from scratch. */
  ghost predicate SpectrumRootsAreExact<D>(leaf: Slot -> D, node: (D, D) -> D, t: seq<Slot>, d: seq<D>, run: seq<Batch>)
    requires |t| > 0 && |d| == 2 * |t| - 1
    decreases |run|
  {
    run == [] ||
    (var u, e := RunQu(t, run[0].events), Digested(leaf, node, t, d, run[0]);
     && Pow2(|u|) && e[|e| - 1] == Root(node, Leaves(leaf, u))
     && SpectrumRootsAreExact(leaf, node, u, e, run[1..]))
  }

  lemma {:induction false} SpectrumRunIsExact<D>(leaf: Slot -> D, node: (D, D) -> D, t: seq<Slot>, d: seq<D>,
                                                 run: seq<Batch>)
    requires |t| > 0 && |d| == 2 * |t| - 1
    requires Pow2(|t|) && Current(leaf, node, t, d, NoFlags(|t|))
    requires forall i :: 0 <= i < |run| ==> TicksInWindow(run[i])
    ensures SpectrumRootsAreExact(leaf, node, t, d, run)
    decreases |run|
  {
    hide Current, Root, Leaves, RunQu, Digested, TicksInWindow, Pow2;
    if run != [] {
      BatchRootIsExact(leaf, node, t, d, run[0]);
      SpectrumRunIsExact(leaf, node, RunQu(t, run[0].events), Digested(leaf, node, t, d, run[0]), run[1..]);
    }
  }

  /** Asking for the same window again, as the vote-refetch loop does, leaves the digests alone. */
  lemma {:induction false} RepeatedDigestIsIdle<D>(leaf: Slot -> D, node: (D, D) -> D, t: seq<Slot>, d: seq<D>,
                                                   from: nat, to: nat)
    requires Pow2(|t|) && Current(leaf, node, t, d, NoFlags(|t|))
    ensures var e := DigestCall(leaf, node, t, d, WindowFlags(t, from, to));
      Current(leaf, node, t, e, NoFlags(|t|)) && e[|e| - 1] == d[|d| - 1]
  {
    hide Current, Root, Leaves, IsTree, WindowFlags, DigestCall, Pow2;
    CurrentSizes(leaf, node, t, d, NoFlags(|t|));
    var f := WindowFlags(t, from, to);
    ChangeKeepsCurrent(leaf, node, t, t, d, NoFlags(|t|), f);
    DigestCallIsRoot(leaf, node, t, d, f);
    DigestCallIsRoot(leaf, node, t, d, NoFlags(|t|));
    IdleCallKeeps(leaf, node, t, d);
  }
}
