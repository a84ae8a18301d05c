/**
 The five threads that move along the ticks: fetching, log fetching, verifying, indexing and
 cleaning, and the threads that store arriving votes and tick data. Each step is one read or
 write of a shared cursor or of the stores; what a thread has read and not yet used is its
 own part of the state. The shutdown at the end of an epoch is not part of this model, and
 the start is the moment when every thread has set up its cursor.
 */
module Pipeline {
  import opened Options

  /** A message that was admitted and is not stored yet; its signature is being checked. */
  datatype Arrival = VoteFor(tick: int) | DataFor(tick: int)

  /**
   The shared cursors, the stored latest tick, and what each thread holds. The cleaner has
   moved ticks to disk up to `recorded`, and deleted their data up to `dataGone` and their
   votes up to `votesGone`; it deletes nothing up to the initial tick.
   */
  datatype State = State(
    initial: int, fetching: int, logFetching: int, verifying: int, indexing: int, cleaned: int, latest: int,
    confirmed: Option<int>, logsWanted: bool, batch: Option<(int, int)>, next: Option<int>,
    limit: Option<int>, goal: Option<int>, recorded: int, dataGone: int, votesGone: int,
    arrivals: multiset<Arrival>)

  const BATCH := 64

  datatype Step =
    | ConfirmQuorum            // the quorum of the fetching tick is verified
    | StoreLatest              // the stored latest tick moves up to it
    | AdvanceFetching          // and the fetching tick advances if that is what is stored
    | WantLogs                 // the log tick is not ahead of the fetching tick
    | AdvanceLogs              // and all its logs are there
    | BeginBatch               // ticks are ready to be verified
    | CutBatch(endTick: int)   // the batch stops before an end-of-epoch tick
    | FinishBatch              // the digests match the quorum
    | BeginIndexing
    | FinishIndexing
    | ReadLimit                // the cleaner reads the indexing tick
    | ReadGoal(keep: Option<nat>) // and, to keep a number of ticks, reads it again
    | RecordTick               // in the mode that keeps ticks on disk, the next tick is compressed
    | DropData                 // the next tick loses its data
    | DropVotes                // and then its votes
    | FinishCleaning
    | Admit(a: Arrival)        // a message is compared with the verifying tick
    | Store(a: Arrival)        // and, its signature being good, stored

  predicate Enabled(s: State, step: Step) {
    match step
    case ConfirmQuorum => s.confirmed.None?
    case StoreLatest => s.confirmed.Some?
    case AdvanceFetching => s.confirmed.Some?
    case WantLogs => s.logFetching < s.fetching + 1
    case AdvanceLogs => s.logsWanted
    case BeginBatch => s.batch.None? && s.verifying <= s.logFetching - 1
    case CutBatch(endTick) => s.batch.Some? && s.batch.value.0 < endTick <= s.batch.value.1
    case FinishBatch => s.batch.Some? && s.verifying != s.fetching
    case BeginIndexing => s.next.None? && s.indexing + 1 < s.verifying
    case FinishIndexing => s.next.Some?
    case ReadLimit => s.limit.None?
    case ReadGoal(keep) => s.limit.Some? && s.goal.None?
    case RecordTick => s.goal.Some? && s.recorded < s.goal.value
    case DropData => s.goal.Some? && s.goal.value <= s.recorded && s.dataGone == s.votesGone < s.goal.value
    case DropVotes => s.votesGone < s.dataGone
    case FinishCleaning => s.goal.Some? && s.goal.value <= s.votesGone
    case Admit(a) => !TurnedAway(s, a.tick)
    case Store(a) => a in s.arrivals
  }

  /** Votes and tick data this far back are turned away on arrival. */
  predicate TurnedAway(s: State, tick: int) {
    tick < s.verifying - 1
  }

  function Min(a: int, b: int): int {
    if a < b then a else b
  }

  function Max(a: int, b: int): int {
    if a < b then b else a
  }

  /** The tick up to which the cleaner will go. */
  function GoalOf(s: State, keep: Option<nat>): int
    requires s.limit.Some?
  {
    if keep.Some? then Min(s.limit.value, s.indexing - 1 - keep.value) else s.limit.value
  }

  function After(s: State, step: Step): State
    requires Enabled(s, step)
  {
    match step
    case ConfirmQuorum => s.(confirmed := Some(s.fetching))
    case StoreLatest => s.(latest := if s.confirmed.value > s.latest then s.confirmed.value else s.latest)
    case AdvanceFetching =>
      s.(fetching := if s.confirmed.value == s.latest then s.fetching + 1 else s.fetching, confirmed := None)
    case WantLogs => s.(logsWanted := true)
    case AdvanceLogs => s.(logFetching := s.logFetching + 1, logsWanted := false)
    case BeginBatch => s.(batch := Some((s.verifying, Min(s.verifying + BATCH, s.logFetching - 1))))
    case CutBatch(endTick) => s.(batch := Some((s.batch.value.0, endTick - 1)))
    case FinishBatch => s.(verifying := s.batch.value.1 + 1, batch := None)
    case BeginIndexing => s.(next := Some(s.indexing + 1))
    case FinishIndexing => s.(indexing := s.next.value, next := None)
    case ReadLimit => s.(limit := Some(s.indexing - 5))
    case ReadGoal(keep) =>
      s.(goal := Some(GoalOf(s, keep)), recorded := if keep.Some? then Max(s.recorded, GoalOf(s, keep)) else s.recorded)
    case RecordTick => s.(recorded := s.recorded + 1)
    case DropData => s.(dataGone := s.dataGone + 1)
    case DropVotes => s.(votesGone := s.votesGone + 1)
    case FinishCleaning => s.(cleaned := Max(s.cleaned, s.goal.value), limit := None, goal := None)
    case Admit(a) => s.(arrivals := s.arrivals + multiset{a})
    case Store(a) => s.(arrivals := s.arrivals - multiset{a})
  }

  /** A fresh start at this tick. */
  function Start(tick: int): State {
    State(tick, tick, tick, tick, tick - 1, tick, 0, None, false, None, None, None, None, tick, tick, tick, multiset{})
  }

  /** The state after a run, or nothing if some step was not possible. */
  function Run(s: State, steps: seq<Step>): Option<State>
    decreases |steps|
  {
    if steps == [] then Some(s)
    else if Enabled(s, steps[0]) then Run(After(s, steps[0]), steps[1..])
    else None
  }

  /** The order of the cursors. */
  predicate InOrder(s: State) {
    && s.indexing < s.verifying <= s.logFetching <= s.fetching + 1
    && s.cleaned <= s.votesGone <= s.dataGone <= Max(s.initial, s.indexing - 5)
  }

  /** What the threads hold is still true when they use it. */
  predicate Consistent(s: State) {
    && (s.confirmed.Some? ==> s.confirmed.value == s.fetching)
    && (s.logsWanted ==> s.logFetching < s.fetching + 1)
    && (s.batch.Some? ==> s.batch.value.0 == s.verifying <= s.batch.value.1 < s.logFetching)
    && (s.next.Some? ==> s.next.value == s.indexing + 1 < s.verifying)
    && (s.limit.Some? ==> s.limit.value <= s.indexing - 5)
    && (s.goal.Some? ==> s.goal.value <= s.indexing - 5)
    && s.initial <= s.cleaned && s.initial - 1 <= s.indexing
    && (s.goal.Some? ==> s.limit.Some?)
    && s.dataGone <= s.recorded <= (if s.goal.Some? then Max(s.cleaned, s.goal.value) else s.cleaned)
    && s.dataGone <= s.votesGone + 1
  }

  lemma FetchingKeepsOrder(s: State, step: Step)
    requires InOrder(s) && Consistent(s) && Enabled(s, step)
    requires step.ConfirmQuorum? || step.StoreLatest? || step.AdvanceFetching?
    ensures InOrder(After(s, step)) && Consistent(After(s, step))
  {
  }

  lemma LogFetchingKeepsOrder(s: State, step: Step)
    requires InOrder(s) && Consistent(s) && Enabled(s, step)
    requires step.WantLogs? || step.AdvanceLogs?
    ensures InOrder(After(s, step)) && Consistent(After(s, step))
  {
  }

  lemma VerifyingKeepsOrder(s: State, step: Step)
    requires InOrder(s) && Consistent(s) && Enabled(s, step)
    requires step.BeginBatch? || step.CutBatch? || step.FinishBatch?
    ensures InOrder(After(s, step)) && Consistent(After(s, step))
  {
  }

  lemma IndexingKeepsOrder(s: State, step: Step)
    requires InOrder(s) && Consistent(s) && Enabled(s, step)
    requires step.BeginIndexing? || step.FinishIndexing?
    ensures InOrder(After(s, step)) && Consistent(After(s, step))
  {
  }

  lemma CleaningKeepsOrder(s: State, step: Step)
    requires InOrder(s) && Consistent(s) && Enabled(s, step)
    requires step.ReadLimit? || step.ReadGoal? || step.RecordTick? || step.DropData? || step.DropVotes?
        || step.FinishCleaning?
    ensures InOrder(After(s, step)) && Consistent(After(s, step))
  {
  }

  lemma ArrivingKeepsOrder(s: State, step: Step)
    requires InOrder(s) && Consistent(s) && Enabled(s, step)
    requires step.Admit? || step.Store?
    ensures InOrder(After(s, step)) && Consistent(After(s, step))
  {
  }

  /** A step of any thread. */
  lemma StepKeepsOrder(s: State, step: Step)
    requires InOrder(s) && Consistent(s) && Enabled(s, step)
    ensures InOrder(After(s, step)) && Consistent(After(s, step))
  {
    hide InOrder, Consistent, Enabled, After;
    if step.ConfirmQuorum? || step.StoreLatest? || step.AdvanceFetching? {
      FetchingKeepsOrder(s, step);
    } else if step.WantLogs? || step.AdvanceLogs? {
      LogFetchingKeepsOrder(s, step);
    } else if step.BeginBatch? || step.CutBatch? || step.FinishBatch? {
      VerifyingKeepsOrder(s, step);
    } else if step.BeginIndexing? || step.FinishIndexing? {
      IndexingKeepsOrder(s, step);
    } else if step.Admit? || step.Store? {
      ArrivingKeepsOrder(s, step);
    } else {
      CleaningKeepsOrder(s, step);
    }
  }

  /** In every interleaving: indexing < verifying <= log fetching <= fetching + 1, cleaning behind. */
  lemma {:induction false} RunKeepsOrder(s: State, steps: seq<Step>)
    requires InOrder(s) && Consistent(s)
    ensures Run(s, steps).Some? ==> InOrder(Run(s, steps).value) && Consistent(Run(s, steps).value)
    decreases |steps|
  {
    hide InOrder, Consistent, After;
    if steps != [] && Enabled(s, steps[0]) {
      StepKeepsOrder(s, steps[0]);
      RunKeepsOrder(After(s, steps[0]), steps[1..]);
    }
  }

  lemma {:induction false} FreshRunInOrder(tick: int, steps: seq<Step>)
    requires Run(Start(tick), steps).Some?
    ensures InOrder(Run(Start(tick), steps).value) && Consistent(Run(Start(tick), steps).value)
  {
    RunKeepsOrder(Start(tick), steps);
  }

  // ----- What a run does tick by tick -----

  /** The batches that a run finishes, joined: the ticks verified, in order. */
  function VerifiedTicks(s: State, steps: seq<Step>): seq<int>
    decreases |steps|
  {
    if steps == [] || !Enabled(s, steps[0]) then []
    else
      (if steps[0].FinishBatch? then Interval(s.batch.value.0, s.batch.value.1) else [])
      + VerifiedTicks(After(s, steps[0]), steps[1..])
  }

  /** The ticks that a run indexes, in order. */
  function IndexedTicks(s: State, steps: seq<Step>): seq<int>
    decreases |steps|
  {
    if steps == [] || !Enabled(s, steps[0]) then []
    else
      (if steps[0].FinishIndexing? then [s.next.value] else [])
      + IndexedTicks(After(s, steps[0]), steps[1..])
  }

  function Interval(first: int, last: int): (r: seq<int>)
    decreases last - first
  {
    if first > last then [] else [first] + Interval(first + 1, last)
  }

  lemma {:induction false} IntervalJoin(first: int, mid: int, last: int)
    requires first <= mid <= last + 1
    ensures Interval(first, mid - 1) + Interval(mid, last) == Interval(first, last)
    decreases mid - first
  {
    if first < mid {
      IntervalJoin(first + 1, mid, last);
    } else {
      assert [] + Interval(mid, last) == Interval(mid, last);
    }
  }

  lemma CursorsMoveUp(s: State, step: Step)
    requires Consistent(s) && Enabled(s, step)
    ensures var t := After(s, step);
      s.fetching <= t.fetching && s.logFetching <= t.logFetching && s.verifying <= t.verifying
          && s.indexing <= t.indexing
  {
    if step.FinishBatch? {
      assert After(s, step).verifying == s.batch.value.1 + 1;
    } else if step.FinishIndexing? {
      assert After(s, step).indexing == s.next.value;
    } else {
      OtherStepsMoveUp(s, step);
    }
  }

  lemma OtherStepsMoveUp(s: State, step: Step)
    requires Enabled(s, step) && !step.FinishBatch? && !step.FinishIndexing?
    ensures var t := After(s, step);
      s.fetching <= t.fetching && s.logFetching <= t.logFetching && s.verifying == t.verifying
          && s.indexing == t.indexing
  {
  }

  lemma CleanerMovesUp(s: State, step: Step)
    requires Enabled(s, step)
    ensures var t := After(s, step);
      s.cleaned <= t.cleaned && s.dataGone <= t.dataGone && s.votesGone <= t.votesGone && s.initial == t.initial
  {
  }

  /** No tick is verified or indexed twice, none is skipped, and none is indexed before it is verified. */
  lemma {:induction false} EveryTickOnce(s: State, steps: seq<Step>)
    requires InOrder(s) && Consistent(s) && Run(s, steps).Some?
    ensures var t := Run(s, steps).value;
      && s.verifying <= t.verifying && s.indexing <= t.indexing
      && VerifiedTicks(s, steps) == Interval(s.verifying, t.verifying - 1)
      && IndexedTicks(s, steps) == Interval(s.indexing + 1, t.indexing)
      && t.indexing < t.verifying
    decreases |steps|
  {
    hide Interval, InOrder, Consistent, After, Enabled;
    if steps == [] {
      EmptyIntervals(s);
    } else {
      var step := steps[0];
      var mid := After(s, step);
      StepKeepsOrder(s, step);
      CursorsMoveUp(s, step);
      EveryTickOnce(mid, steps[1..]);
      var t := Run(s, steps).value;
      IntervalJoin(s.verifying, mid.verifying, t.verifying - 1);
      IntervalJoin(s.indexing + 1, mid.indexing + 1, t.indexing);
      StepTicks(s, step);
    }
  }

  lemma EmptyIntervals(s: State)
    requires InOrder(s)
    ensures Interval(s.verifying, s.verifying - 1) == [] && Interval(s.indexing + 1, s.indexing) == []
    ensures s.indexing < s.verifying
  {
  }

  lemma StepTicks(s: State, step: Step)
    requires InOrder(s) && Consistent(s) && Enabled(s, step)
    ensures var t := After(s, step);
      && Interval(s.verifying, t.verifying - 1)
         == (if step.FinishBatch? then Interval(s.batch.value.0, s.batch.value.1) else [])
      && Interval(s.indexing + 1, t.indexing) == (if step.FinishIndexing? then [s.next.value] else [])
  {
  }

  // ----- Batches and quorums -----

  /** The ticks whose quorum a run verifies. */
  function QuorumTicks(s: State, steps: seq<Step>): set<int>
    decreases |steps|
  {
    if steps == [] || !Enabled(s, steps[0]) then {}
    else (if steps[0].ConfirmQuorum? then {s.fetching} else {}) + QuorumTicks(After(s, steps[0]), steps[1..])
  }

  /** The fetching tick passes a tick only after its quorum. */
  lemma {:induction false} PassedTicksHaveQuorum(s: State, steps: seq<Step>, t: int)
    requires InOrder(s) && Consistent(s) && Run(s, steps).Some?
    requires s.fetching <= t < Run(s, steps).value.fetching
    ensures t in QuorumTicks(s, steps) || s.confirmed == Some(t)
    decreases |steps|
  {
    hide InOrder, Consistent, After;
    if steps != [] {
      StepKeepsOrder(s, steps[0]);
      FetchingStep(s, steps[0]);
      if After(s, steps[0]).fetching <= t {
        PassedTicksHaveQuorum(After(s, steps[0]), steps[1..], t);
      }
    }
  }

  lemma FetchingStep(s: State, step: Step)
    requires Consistent(s) && Enabled(s, step)
    ensures var t := After(s, step);
      && (t.fetching > s.fetching ==> s.confirmed == Some(s.fetching) && t.fetching == s.fetching + 1)
      && (t.confirmed.Some? ==> t.confirmed == s.confirmed || (step.ConfirmQuorum? && t.confirmed == Some(s.fetching)))
  {
  }

  /**
   When a batch of a fresh run is finished, the quorum of its first tick has been verified,
   and so has that of every other tick of the batch except possibly the last one.
   */
  lemma {:induction false} FinishedBatchHasQuorum(tick: int, steps: seq<Step>)
    requires Run(Start(tick), steps).Some? && Enabled(Run(Start(tick), steps).value, FinishBatch)
    ensures var s := Run(Start(tick), steps).value; var (first, last) := s.batch.value;
      && first in QuorumTicks(Start(tick), steps)
      && forall t :: first <= t < last ==> t in QuorumTicks(Start(tick), steps)
  {
    var s := Run(Start(tick), steps).value;
    var (first, last) := s.batch.value;
    FreshRunInOrder(tick, steps);
    EveryTickOnce(Start(tick), steps);
    forall t | first <= t < last || t == first
      ensures t in QuorumTicks(Start(tick), steps)
    {
      assert tick <= t < s.fetching;
      PassedTicksHaveQuorum(Start(tick), steps, t);
    }
  }

  lemma {:induction false} StartKept(s: State, steps: seq<Step>)
    ensures Run(s, steps).Some? ==> Run(s, steps).value.initial == s.initial
    decreases |steps|
  {
    if steps != [] && Enabled(s, steps[0]) {
      StartKept(After(s, steps[0]), steps[1..]);
    }
  }

  lemma {:induction false} BatchesStayShort(s: State, steps: seq<Step>)
    requires s.batch.Some? ==> s.batch.value.1 <= s.batch.value.0 + 64
    ensures Run(s, steps).Some? ==>
      var b := Run(s, steps).value.batch; b.Some? ==> b.value.1 <= b.value.0 + 64
    decreases |steps|
  {
    if steps != [] && Enabled(s, steps[0]) {
      BatchesStayShort(After(s, steps[0]), steps[1..]);
    }
  }

  /**
   In a fresh run a batch starts with all ticks from the verifying tick on whose logs are all
   there, at most 65 of them, and only ever gets shorter.
   */
  lemma BatchTicks(tick: int, steps: seq<Step>, t: int)
    requires Run(Start(tick), steps).Some?
    ensures var s := Run(Start(tick), steps).value;
      && (s.batch.Some? ==>
            s.batch.value.0 == s.verifying <= s.batch.value.1 < s.logFetching && s.batch.value.1 < s.verifying + 65)
      && (Enabled(s, BeginBatch) ==>
            var (first, last) := After(s, BeginBatch).batch.value;
            (first <= t <= last <==> s.verifying <= t < s.logFetching && t < s.verifying + 65))
  {
    FreshRunInOrder(tick, steps);
    BatchesStayShort(Start(tick), steps);
  }

  /**
   In a fresh run the cleaner may delete ticks that are at least five behind the indexing tick
   and beyond the number to keep; all of them that the run came by are indexed.
   */
  lemma GoalTicks(tick: int, steps: seq<Step>, keep: Option<nat>, t: int)
    requires Run(Start(tick), steps).Some? && Enabled(Run(Start(tick), steps).value, ReadGoal(keep))
    ensures var s := Run(Start(tick), steps).value; var goal := After(s, ReadGoal(keep)).goal.value;
      && (t <= goal <==> t <= s.limit.value && (keep.Some? ==> t + keep.value < s.indexing))
      && (tick <= t <= goal ==> t + 5 <= s.indexing && t in IndexedTicks(Start(tick), steps))
  {
    hide VerifiedTicks, Interval;
    StartInOrder(tick);
    FreshRunInOrder(tick, steps);
    EveryTickOnce(Start(tick), steps);
    InInterval(tick, Run(Start(tick), steps).value.indexing, t);
  }

  /** In a fresh run, messages for a tick are turned away exactly from the moment that the next tick is verified. */
  lemma {:induction false} TurnedAwayWhen(tick: int, steps: seq<Step>, a: Arrival)
    requires Run(Start(tick), steps).Some? && a.tick + 1 >= tick
    ensures var s := Run(Start(tick), steps).value;
      && (a.tick + 1 in VerifiedTicks(Start(tick), steps) <==> TurnedAway(s, a.tick))
      && (Enabled(s, Admit(a)) <==> a.tick + 1 !in VerifiedTicks(Start(tick), steps))
  {
    hide InOrder, Consistent, After, Interval, VerifiedTicks, Run;
    StartInOrder(tick);
    EveryTickOnce(Start(tick), steps);
    InInterval(tick, Run(Start(tick), steps).value.verifying - 1, a.tick + 1);
  }

  lemma StartInOrder(tick: int)
    ensures InOrder(Start(tick)) && Consistent(Start(tick))
  {
  }

  lemma {:induction false} InInterval(first: int, last: int, t: int)
    ensures t in Interval(first, last) <==> first <= t <= last
    decreases last - first
  {
    if first <= last {
      InInterval(first + 1, last, t);
    }
  }
}
