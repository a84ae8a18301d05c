/**
 QU events of the replay (processQuTransfer, processQuBurn, processDistributeDividends):
 supply accounting over every run, and the batched dividend against single transfers.
 */
module QuReplay {
  import opened SpectrumTable
  import opened Spectrum

  datatype Payment = Payment(source: nat, destination: nat, amount: int)

  datatype QuEvent =
    | QuTransfer(p: Payment, tick: nat)
    | QuBurn(source: nat, amount: int, tick: nat)
    | Dividends(items: seq<Payment>, tick: nat)

  // ----- What each event does -----

  /** spectrumIndex followed by decreaseEnergy; the zero key has no index. */
  ghost function Pay(t: seq<Slot>, source: nat, amount: int, tick: nat): (u: seq<Slot>)
    requires |t| > 0
    ensures |u| == |t|
  {
    if source != 0 && t[Locate(t, source)].Entity? then Decrease(t, Locate(t, source), amount, tick) else t
  }

  /** The destination is credited even when the debit failed. */
  ghost function Transfer(t: seq<Slot>, p: Payment, tick: nat): (u: seq<Slot>)
    requires |t| > 0
    ensures |u| == |t|
  {
    Increase(Pay(t, p.source, p.amount, tick), p.destination, p.amount, tick)
  }

  ghost function CreditAll(t: seq<Slot>, items: seq<Payment>, tick: nat): (u: seq<Slot>)
    requires |t| > 0
    ensures |u| == |t|
    decreases |items|
  {
    if items == [] then t
    else CreditAll(Increase(t, items[0].destination, items[0].amount, tick), items[1..], tick)
  }

  function Sum(items: seq<Payment>): int {
    if items == [] then 0 else items[0].amount + Sum(items[1..])
  }

  /** processDistributeDividends: one debit of the total, then all credits. */
  ghost function Distribute(t: seq<Slot>, items: seq<Payment>, tick: nat): (u: seq<Slot>)
    requires |t| > 0
    ensures |u| == |t|
  {
    if items == [] || (exists i :: 0 <= i < |items| && items[i].source != items[0].source) then t
    else if items[0].source == 0 || t[Locate(t, items[0].source)].Vacant? then t
    else CreditAll(Pay(t, items[0].source, Sum(items), tick), items, tick)
  }

  ghost function StepQu(t: seq<Slot>, e: QuEvent): (u: seq<Slot>)
    requires |t| > 0
    ensures |u| == |t|
  {
    match e
    case QuTransfer(p, tick) => Transfer(t, p, tick)
    case QuBurn(source, amount, tick) => Pay(t, source, amount, tick)
    case Dividends(items, tick) => Distribute(t, items, tick)
  }

  // ----- Events that end -----

  ghost predicate PayEnds(t: seq<Slot>, source: nat) {
    source == 0 || CanProbe(t, source)
  }

  /** Each credit finds its record or room for a new one. */
  ghost predicate CreditAllEnds(t: seq<Slot>, items: seq<Payment>, tick: nat)
    requires |t| > 0
    decreases |items|
  {
    items == [] ||
    (CanCredit(t, items[0].destination, items[0].amount)
     && CreditAllEnds(Increase(t, items[0].destination, items[0].amount, tick), items[1..], tick))
  }

  /** Every probe of the event ends. */
  ghost predicate Ends(t: seq<Slot>, e: QuEvent)
    requires |t| > 0
  {
    match e
    case QuTransfer(p, tick) =>
      PayEnds(t, p.source) && CanCredit(Pay(t, p.source, p.amount, tick), p.destination, p.amount)
    case QuBurn(source, _, _) => PayEnds(t, source)
    case Dividends(items, tick) =>
      items == [] || (exists i :: 0 <= i < |items| && items[i].source != items[0].source) || items[0].source == 0
      || (CanProbe(t, items[0].source)
          && (t[Locate(t, items[0].source)].Vacant?
              || CreditAllEnds(Pay(t, items[0].source, Sum(items), tick), items, tick)))
  }

  // ----- Debits that succeed -----

  ghost predicate Covered(t: seq<Slot>, source: nat, amount: int) {
    source in View(t) && CanPay(View(t)[source], amount)
  }

  /** Every debit of the event succeeds; a transfer from the zero key is a mint and has no debit. */
  ghost predicate Settled(t: seq<Slot>, e: QuEvent) {
    match e
    case QuTransfer(p, _) => p.amount >= 0 && (p.source == 0 || Covered(t, p.source, p.amount))
    case QuBurn(source, amount, _) => Covered(t, source, amount)
    case Dividends(items, _) =>
      && (forall i :: 0 <= i < |items| ==> items[i].source == items[0].source && items[i].amount >= 0)
      && (items != [] ==> Covered(t, items[0].source, Sum(items)))
  }

  function Minted(e: QuEvent): int {
    if e.QuTransfer? && e.p.source == 0 && e.p.destination != 0 then e.p.amount else 0
  }

  /** The part of a list of payments that goes to the zero key. */
  function ToZero(items: seq<Payment>): int {
    if items == [] then 0 else (if items[0].destination == 0 then items[0].amount else 0) + ToZero(items[1..])
  }

  function Burned(e: QuEvent): int {
    match e
    case QuTransfer(p, _) => if p.source != 0 && p.destination == 0 then p.amount else 0
    case QuBurn(_, amount, _) => amount
    case Dividends(items, _) => ToZero(items)
  }

  /** Slots that an event may have to create. */
  function Needed(e: QuEvent): nat {
    match e
    case QuTransfer(_, _) => 1
    case QuBurn(_, _, _) => 0
    case Dividends(items, _) => |items|
  }

  // ----- One event -----

  lemma {:induction false} PayKeeps(t: seq<Slot>, source: nat, amount: int, tick: nat)
    requires WellFormed(t) && PayEnds(t, source)
    ensures var u := Pay(t, source, amount, tick); var loss := if Covered(t, source, amount) then amount else 0;
      && WellFormed(u) && Free(u) == Free(t)
      && (forall k :: Balance(u, k) == Balance(t, k) - (if k == source then loss else 0))
      && (forall k :: k in View(u) <==> k in View(t))
      && Supply(u) == Supply(t) - loss
      && (NonNegative(t) ==> NonNegative(u))
  {
    NotZeroKey(t);
    if source != 0 { LocateDecides(t, source); }
    if source in View(t) {
      ViewHas(t, source);
      DecreaseKeeps(t, Locate(t, source), amount, tick);
    }
  }

  lemma {:induction false} TransferKeeps(t: seq<Slot>, p: Payment, tick: nat)
    requires WellFormed(t) && Ends(t, QuTransfer(p, tick))
    ensures var u := Transfer(t, p, tick);
      var loss := if Covered(t, p.source, p.amount) then p.amount else 0;
      var gain := if p.destination != 0 && p.amount >= 0 then p.amount else 0;
      && WellFormed(u) && Free(u) >= Free(t) - 1
      && (forall k ::
            Balance(u, k)
            == Balance(t, k) - (if k == p.source then loss else 0) + (if k == p.destination then gain else 0))
      && Supply(u) == Supply(t) - loss + gain
      && (NonNegative(t) ==> NonNegative(u))
  {
    PayKeeps(t, p.source, p.amount, tick);
    IncreaseKeeps(Pay(t, p.source, p.amount, tick), p.destination, p.amount, tick);
    hide WellFormed, View, Free, Supply, NonNegative, Increase, Pay, Balance;
  }

  /** What key k receives from a list of payments. */
  function Received(items: seq<Payment>, k: nat): int {
    if items == [] then 0
    else
      (if items[0].destination == k && k != 0 && items[0].amount >= 0 then items[0].amount else 0)
      + Received(items[1..], k)
  }

  function AllReceived(items: seq<Payment>): int {
    if items == [] then 0
    else (if items[0].destination != 0 && items[0].amount >= 0 then items[0].amount else 0) + AllReceived(items[1..])
  }

  lemma {:induction false} CreditAllKeeps(t: seq<Slot>, items: seq<Payment>, tick: nat)
    requires |t| > 0 && WellFormed(t) && CreditAllEnds(t, items, tick)
    ensures var u := CreditAll(t, items, tick);
      && WellFormed(u) && Free(u) >= Free(t) - |items|
      && (forall k :: Balance(u, k) == Balance(t, k) + Received(items, k))
      && Supply(u) == Supply(t) + AllReceived(items)
      && (NonNegative(t) ==> NonNegative(u))
    decreases |items|
  {
    if items != [] {
      IncreaseKeeps(t, items[0].destination, items[0].amount, tick);
      hide WellFormed, View, Free, Supply, NonNegative, Increase, Balance;
      CreditAllKeeps(Increase(t, items[0].destination, items[0].amount, tick), items[1..], tick);
    }
  }

  lemma {:induction false} PaidIsReceived(items: seq<Payment>)
    requires forall i :: 0 <= i < |items| ==> items[i].amount >= 0
    ensures AllReceived(items) == Sum(items) - ToZero(items)
  {
    if items != [] {
      PaidIsReceived(items[1..]);
    }
  }

  /** An event whose debits succeed changes the supply by what it mints and burns. */
  lemma {:induction false} StepQuKeeps(t: seq<Slot>, e: QuEvent)
    requires |t| > 0 && WellFormed(t) && Ends(t, e) && NonNegative(t)
    ensures var u := StepQu(t, e); WellFormed(u) && Free(u) >= Free(t) - Needed(e) && NonNegative(u)
    ensures Settled(t, e) ==> Supply(StepQu(t, e)) == Supply(t) + Minted(e) - Burned(e)
  {
    match e
    case QuTransfer(p, tick) =>
      NotZeroKey(t);
      TransferKeeps(t, p, tick);
    case QuBurn(source, amount, tick) =>
      PayKeeps(t, source, amount, tick);
    case Dividends(items, tick) =>
      DistributeKeeps(t, items, tick);
  }

  lemma NotZeroKey(t: seq<Slot>)
    requires WellFormed(t)
    ensures 0 !in View(t)
  {
  }

  lemma {:induction false} DistributeKeeps(t: seq<Slot>, items: seq<Payment>, tick: nat)
    requires |t| > 0 && WellFormed(t) && Ends(t, Dividends(items, tick)) && NonNegative(t)
    ensures var u := Distribute(t, items, tick);
      && WellFormed(u) && Free(u) >= Free(t) - |items| && NonNegative(u)
      && (Settled(t, Dividends(items, tick)) ==>
            && Supply(u) == Supply(t) - ToZero(items)
            && (items != [] ==> forall k ::
                  Balance(u, k)
                  == Balance(t, k) - (if k == items[0].source then Sum(items) else 0) + Received(items, k)))
  {
    if items != [] && (forall i :: 0 <= i < |items| ==> items[i].source == items[0].source)
        && items[0].source in View(t) {
      PaidOutKeeps(t, items, tick);
      hide WellFormed, View, Free, Supply, NonNegative, Balance, Pay, Locate, CreditAll, Distribute;
      if Settled(t, Dividends(items, tick)) { PaidIsReceived(items); }
    } else if items != [] && items[0].source != 0 && CanProbe(t, items[0].source) {
      LocateDecides(t, items[0].source);
    }
  }

  /** A batch from one known source: the debit if it is covered, and every credit in any case. */
  lemma {:induction false} PaidOutKeeps(t: seq<Slot>, items: seq<Payment>, tick: nat)
    requires |t| > 0 && WellFormed(t) && Ends(t, Dividends(items, tick))
    requires items != [] && (forall i :: 0 <= i < |items| ==> items[i].source == items[0].source)
    requires items[0].source in View(t)
    ensures var u := Distribute(t, items, tick); var source := items[0].source;
      var loss := if Covered(t, source, Sum(items)) then Sum(items) else 0;
      && WellFormed(u) && Free(u) >= Free(t) - |items| && (NonNegative(t) ==> NonNegative(u))
      && (forall k :: Balance(u, k) == Balance(t, k) - (if k == source then loss else 0) + Received(items, k))
      && Supply(u) == Supply(t) - loss + AllReceived(items)
  {
    var source := items[0].source;
    NotZeroKey(t);
    assert CanProbe(t, source);
    LocateDecides(t, source);
    PayKeeps(t, source, Sum(items), tick);
    CreditAllKeeps(Pay(t, source, Sum(items), tick), items, tick);
    hide WellFormed, View, Free, Supply, NonNegative, Balance, Pay, Locate, CreditAll;
  }

  /** The code goes on with a batch: all payments have one source, and the source has a record. */
  ghost predicate Distributed(t: seq<Slot>, items: seq<Payment>) {
    && items != [] && (forall i :: 0 <= i < |items| ==> items[i].source == items[0].source)
    && items[0].source in View(t)
  }

  lemma RefusedBatchChangesNothing(t: seq<Slot>, items: seq<Payment>, tick: nat)
    requires |t| > 0 && WellFormed(t) && Ends(t, Dividends(items, tick)) && !Distributed(t, items)
    ensures Distribute(t, items, tick) == t
  {
    hide View, CreditAllEnds, CreditAll;
    if items != [] && items[0].source != 0 && CanProbe(t, items[0].source) {
      LocateDecides(t, items[0].source);
    }
  }

  /**
   The same for a batch: its credits happen even when the debit of their sum does not. Apart
   from what it pays to the zero key, a batch conserves the supply exactly if it is refused
   or covered; otherwise it creates the sum.
   */
  lemma {:induction false} UncoveredDividendsCreateQu(t: seq<Slot>, items: seq<Payment>, tick: nat)
    requires |t| > 0 && WellFormed(t) && NonNegative(t) && Ends(t, Dividends(items, tick))
    requires forall i :: 0 <= i < |items| ==> items[i].amount >= 0
    ensures var u := Distribute(t, items, tick); var lost := if Distributed(t, items) then ToZero(items) else 0;
      && (Supply(u) == Supply(t) - lost <==> !Distributed(t, items) || Covered(t, items[0].source, Sum(items)))
      && (Distributed(t, items) && !Covered(t, items[0].source, Sum(items)) ==>
            Supply(u) == Supply(t) - lost + Sum(items) > Supply(t) - lost)
  {
    if Distributed(t, items) {
      PaidOutKeeps(t, items, tick);
      PaidIsReceived(items);
      SumOfNonNegative(items);
      ViewHas(t, items[0].source);
      hide WellFormed, View, Free, Supply, Locate, Distribute, Ends, Sum, ToZero, AllReceived;
    } else {
      RefusedBatchChangesNothing(t, items, tick);
    }
  }

  // ----- Runs -----

  ghost function RunQu(t: seq<Slot>, events: seq<QuEvent>): (u: seq<Slot>)
    requires |t| > 0
    ensures |u| == |t|
    decreases |events|
  {
    if events == [] then t else RunQu(StepQu(t, events[0]), events[1..])
  }

  /** Every debit along the run succeeds. */
  ghost predicate AllSettled(t: seq<Slot>, events: seq<QuEvent>)
    requires |t| > 0
    decreases |events|
  {
    events == [] || (Settled(t, events[0]) && AllSettled(StepQu(t, events[0]), events[1..]))
  }

  function NetMinted(events: seq<QuEvent>): int {
    if events == [] then 0 else Minted(events[0]) - Burned(events[0]) + NetMinted(events[1..])
  }

  function TotalNeeded(events: seq<QuEvent>): nat {
    if events == [] then 0 else Needed(events[0]) + TotalNeeded(events[1..])
  }

  /** Every probe of the run ends. */
  ghost predicate RunEnds(t: seq<Slot>, events: seq<QuEvent>)
    requires |t| > 0
    decreases |events|
  {
    events == [] || (Ends(t, events[0]) && RunEnds(StepQu(t, events[0]), events[1..]))
  }

  lemma {:induction false} CreditAllEndsWithRoom(t: seq<Slot>, items: seq<Payment>, tick: nat)
    requires |t| > 0 && WellFormed(t) && Free(t) > |items|
    ensures CreditAllEnds(t, items, tick)
    decreases |items|
  {
    if items != [] {
      CanProbeWhen(t, items[0].destination);
      IncreaseKeeps(t, items[0].destination, items[0].amount, tick);
      CreditAllEndsWithRoom(Increase(t, items[0].destination, items[0].amount, tick), items[1..], tick);
    }
  }

  lemma EndsWithRoom(t: seq<Slot>, e: QuEvent)
    requires |t| > 0 && WellFormed(t) && Free(t) > Needed(e)
    ensures Ends(t, e)
  {
    match e
    case QuTransfer(p, tick) =>
      CanProbeWhen(t, p.source);
      PayKeeps(t, p.source, p.amount, tick);
      CanProbeWhen(Pay(t, p.source, p.amount, tick), p.destination);
    case QuBurn(source, _, _) =>
      CanProbeWhen(t, source);
    case Dividends(items, tick) =>
      if items != [] {
        CanProbeWhen(t, items[0].source);
        PayKeeps(t, items[0].source, Sum(items), tick);
        CreditAllEndsWithRoom(Pay(t, items[0].source, Sum(items), tick), items, tick);
      }
  }

  /** A run ends if there are more unused slots than records that it may create. */
  lemma {:induction false} RunEndsWithRoom(t: seq<Slot>, events: seq<QuEvent>)
    requires |t| > 0 && WellFormed(t) && NonNegative(t) && Free(t) > TotalNeeded(events)
    ensures RunEnds(t, events)
    decreases |events|
  {
    if events != [] {
      EndsWithRoom(t, events[0]);
      StepQuKeeps(t, events[0]);
      RunEndsWithRoom(StepQu(t, events[0]), events[1..]);
    }
  }

  /**
   Over every run, balances stay non-negative; if all debits succeed the supply is the
   initial one plus minted minus burned.
   */
  lemma {:induction false} RunAccounts(t: seq<Slot>, events: seq<QuEvent>)
    requires |t| > 0 && WellFormed(t) && NonNegative(t) && RunEnds(t, events)
    ensures var u := RunQu(t, events); WellFormed(u) && NonNegative(u) && Free(u) >= Free(t) - TotalNeeded(events)
    ensures AllSettled(t, events) ==> Supply(RunQu(t, events)) == Supply(t) + NetMinted(events)
    decreases |events|
  {
    if events != [] {
      StepQuKeeps(t, events[0]);
      hide WellFormed, Free, Supply, NonNegative, StepQu, Settled, View;
      RunAccounts(StepQu(t, events[0]), events[1..]);
    }
  }

  /** Without the condition the supply is not conserved: an uncovered transfer still credits. */
  lemma {:induction false} UncoveredTransferCreatesQu(t: seq<Slot>, p: Payment, tick: nat)
    requires |t| > 0 && WellFormed(t) && Ends(t, QuTransfer(p, tick)) && p.source != 0 && p.destination != 0
    requires p.amount > 0
    ensures Supply(Transfer(t, p, tick)) == Supply(t) <==> Covered(t, p.source, p.amount)
  {
    TransferKeeps(t, p, tick);
  }

  // ----- Batched dividends against single transfers -----

  ghost function Singly(items: seq<Payment>, tick: nat): (events: seq<QuEvent>)
    ensures |events| == |items|
  {
    seq(|items|, i requires 0 <= i < |items| => QuTransfer(items[i], tick))
  }

  /** One payment that its source can cover. */
  lemma CoveredTransfer(t: seq<Slot>, p: Payment, tick: nat)
    requires |t| > 0 && WellFormed(t) && NonNegative(t) && Ends(t, QuTransfer(p, tick))
    requires p.source in View(t) && 0 <= p.amount <= Balance(t, p.source)
    ensures Settled(t, QuTransfer(p, tick))
    ensures var u := Transfer(t, p, tick);
      && |u| > 0 && WellFormed(u) && NonNegative(u) && Free(u) >= Free(t) - 1 && p.source in View(u)
      && (forall k ::
            Balance(u, k)
            == Balance(t, k) - (if k == p.source then p.amount else 0)
               + (if k == p.destination && k != 0 then p.amount else 0))
  {
    NotZeroKey(t);
    ViewHas(t, p.source);
    TransferKeeps(t, p, tick);
    TransferKeepsKey(t, p, tick, p.source);
    hide WellFormed, Free, Supply, NonNegative, View, Transfer;
  }

  /** Balances after the same payments as single transfers, as long as the source can pay for all of them. */
  lemma {:induction false} SinglyBalances(t: seq<Slot>, items: seq<Payment>, source: nat, tick: nat)
    requires |t| > 0 && WellFormed(t) && NonNegative(t) && RunEnds(t, Singly(items, tick))
    requires forall i :: 0 <= i < |items| ==> items[i].source == source && items[i].amount >= 0
    requires source in View(t) && Balance(t, source) >= Sum(items)
    ensures AllSettled(t, Singly(items, tick))
    ensures forall k :: Balance(RunQu(t, Singly(items, tick)), k)
                     == Balance(t, k) - (if k == source then Sum(items) else 0) + Received(items, k)
    decreases |items|
  {
    hide WellFormed, Free, NonNegative, View, Transfer, Settled, Balance, Ends;
    if items != [] {
      SumOfNonNegative(items[1..]);
      assert Singly(items, tick)[0] == QuTransfer(items[0], tick)
          && Singly(items, tick)[1..] == Singly(items[1..], tick);
      CoveredTransfer(t, items[0], tick);
      SinglyBalances(Transfer(t, items[0], tick), items[1..], source, tick);
    }
  }

  lemma {:induction false} SumOfNonNegative(items: seq<Payment>)
    requires forall i :: 0 <= i < |items| ==> items[i].amount >= 0
    ensures Sum(items) >= 0
  {
    if items != [] { SumOfNonNegative(items[1..]); }
  }

  lemma TransferKeepsKey(t: seq<Slot>, p: Payment, tick: nat, k: nat)
    requires |t| > 0 && WellFormed(t) && Ends(t, QuTransfer(p, tick)) && k in View(t)
    ensures k in View(Transfer(t, p, tick))
  {
    PayKeeps(t, p.source, p.amount, tick);
    var u := Pay(t, p.source, p.amount, tick);
    if p.destination != 0 && p.amount >= 0 {
      IncreaseView(u, p.destination, p.amount, tick);
    }
  }

  /** Tables with the same keys and the same room; every probe ends in both or in neither. */
  ghost predicate SameKeys(t: seq<Slot>, u: seq<Slot>) {
    Free(t) == Free(u) && forall k :: k in View(t) <==> k in View(u)
  }

  lemma SameKeysCredit(t: seq<Slot>, u: seq<Slot>, key: nat, amount: int, tick: nat)
    requires |t| > 0 && |u| > 0 && WellFormed(t) && WellFormed(u) && SameKeys(t, u) && CanCredit(t, key, amount)
    ensures CanCredit(u, key, amount)
    ensures var t', u' := Increase(t, key, amount, tick), Increase(u, key, amount, tick);
      WellFormed(t') && WellFormed(u') && SameKeys(t', u')
  {
    CanProbeWhen(t, key);
    CanProbeWhen(u, key);
    hide WellFormed, Free, View, Increase;
    if key != 0 && amount >= 0 {
      IncreaseView(t, key, amount, tick);
      IncreaseView(u, key, amount, tick);
    } else {
      NoCredit(t, key, amount, tick);
      NoCredit(u, key, amount, tick);
    }
  }

  lemma NoCredit(t: seq<Slot>, key: nat, amount: int, tick: nat)
    requires |t| > 0 && (key == 0 || amount < 0)
    ensures Increase(t, key, amount, tick) == t
  {
  }

  /** If the credits of a batch end, so do the single transfers. */
  lemma {:induction false} TransfersEnd(t: seq<Slot>, u: seq<Slot>, items: seq<Payment>, source: nat, tick: nat)
    requires |t| > 0 && |u| > 0 && WellFormed(t) && WellFormed(u) && SameKeys(t, u) && source in View(u)
    requires forall i :: 0 <= i < |items| ==> items[i].source == source
    requires CreditAllEnds(t, items, tick)
    ensures RunEnds(u, Singly(items, tick))
    decreases |items|
  {
    hide WellFormed, Free, View, Increase, Pay, Locate, CanCredit, CanProbe;
    if items != [] {
      var p := items[0];
      assert Singly(items, tick)[0] == QuTransfer(p, tick) && Singly(items, tick)[1..] == Singly(items[1..], tick);
      KnownSourceEnds(u, source);
      PayKeeps(u, source, p.amount, tick);
      var paid := Pay(u, source, p.amount, tick);
      SameKeysCredit(t, paid, p.destination, p.amount, tick);
      TransferKeepsKey(u, p, tick, source);
      TransfersEnd(Increase(t, p.destination, p.amount, tick), Increase(paid, p.destination, p.amount, tick),
                   items[1..], source, tick);
    }
  }

  lemma KnownSourceEnds(t: seq<Slot>, source: nat)
    requires source in View(t)
    ensures PayEnds(t, source)
  {
    CanProbeWhen(t, source);
  }

  /** A batch from a known source ends only if its credits do. */
  lemma {:induction false} CreditsEnd(t: seq<Slot>, items: seq<Payment>, tick: nat)
    requires |t| > 0 && WellFormed(t) && Ends(t, Dividends(items, tick)) && items != [] && items[0].source in View(t)
    requires forall i :: 0 <= i < |items| ==> items[i].source == items[0].source
    ensures CreditAllEnds(Pay(t, items[0].source, Sum(items), tick), items, tick)
  {
    hide CreditAllEnds, Pay, Sum;
    NotZeroKey(t);
    LocateDecides(t, items[0].source);
  }

  lemma {:induction false} SinglyEnds(t: seq<Slot>, items: seq<Payment>, tick: nat)
    requires |t| > 0 && WellFormed(t) && Ends(t, Dividends(items, tick)) && items != [] && items[0].source in View(t)
    requires forall i :: 0 <= i < |items| ==> items[i].source == items[0].source
    ensures RunEnds(t, Singly(items, tick))
  {
    hide WellFormed, View, Free, Ends, Pay, CreditAllEnds, RunEnds, Singly, Sum;
    CreditsEnd(t, items, tick);
    KnownSourceEnds(t, items[0].source);
    PayKeeps(t, items[0].source, Sum(items), tick);
    TransfersEnd(Pay(t, items[0].source, Sum(items), tick), t, items, items[0].source, tick);
  }

  /** A batched dividend that the source can cover ends with the balances of the individual transfers in sequence. */
  lemma {:induction false} DividendsEqualTransfers(t: seq<Slot>, items: seq<Payment>, tick: nat)
    requires |t| > 0 && WellFormed(t) && NonNegative(t) && Ends(t, Dividends(items, tick))
    requires Settled(t, Dividends(items, tick))
    ensures RunEnds(t, Singly(items, tick))
    ensures AllSettled(t, Singly(items, tick))
    ensures forall k :: Balance(Distribute(t, items, tick), k) == Balance(RunQu(t, Singly(items, tick)), k)
  {
    if items != [] {
      DistributeKeeps(t, items, tick);
      SinglyEnds(t, items, tick);
      hide WellFormed, Free, Supply, NonNegative, View, Ends, RunEnds, Distribute, Balance, AllSettled, RunQu;
      SinglyBalances(t, items, items[0].source, tick);
    }
  }
}
