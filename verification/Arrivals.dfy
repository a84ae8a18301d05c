/**
 Votes and tick data that arrive while the threads move on. A message is compared with the
 verifying tick when it is admitted, and stored only after its signature was checked. What
 this leaves open: exactly which runs store a message after its tick was cleaned.
 */
module Arrivals {
  import opened Options
  import opened Pipeline

  // ----- When a message comes too late -----

  /** How far the cleaner has deleted what messages of this kind store. */
  function Gone(s: State, a: Arrival): int {
    if a.VoteFor? then s.votesGone else s.dataGone
  }

  /** What this message would join was deleted already. */
  predicate TooLate(s: State, a: Arrival) {
    s.initial < a.tick <= Gone(s, a)
  }

  /** The step deletes what this message would join. */
  predicate Drops(s: State, step: Step, a: Arrival) {
    a.tick == Gone(s, a) + 1 && if a.VoteFor? then step.DropVotes? else step.DropData?
  }

  /** At the moment of the comparison nothing that was cleaned is admitted. */
  lemma {:induction false} CleanedTicksAreClosed(tick: int, steps: seq<Step>, a: Arrival)
    requires Run(Start(tick), steps).Some?
    ensures var s := Run(Start(tick), steps).value;
      TooLate(s, a) ==> TurnedAway(s, a.tick) && !Enabled(s, Admit(a))
  {
    FreshRunInOrder(tick, steps);
    StartKept(Start(tick), steps);
  }

  // ----- Prefixes of runs -----

  /** The state in which step k of a run is taken. */
  function StateAt(s: State, steps: seq<Step>, k: nat): (t: State)
    requires k <= |steps| && Run(s, steps).Some?
    ensures k == |steps| ==> t == Run(s, steps).value
    ensures Run(s, steps[..k]) == Some(t)
    decreases k
  {
    if k == 0 then s
    else
      assert steps[..k][0] == steps[0] && steps[..k][1..] == steps[1..][..k - 1];
      StateAt(After(s, steps[0]), steps[1..], k - 1)
  }

  lemma {:induction false} RunJoin(s: State, first: seq<Step>, second: seq<Step>)
    ensures Run(s, first + second) == if Run(s, first).Some? then Run(Run(s, first).value, second) else None
    decreases |first|
  {
    if first == [] {
      assert first + second == second;
    } else {
      assert (first + second)[1..] == first[1..] + second;
      if Enabled(s, first[0]) {
        RunJoin(After(s, first[0]), first[1..], second);
      }
    }
  }

  lemma GoneStep(s: State, step: Step, a: Arrival)
    requires InOrder(s) && Consistent(s) && Enabled(s, step)
    ensures TooLate(After(s, step), a) <==> TooLate(s, a) || Drops(s, step, a)
    ensures Drops(s, step, a) ==> !TooLate(s, a)
  {
    CleanerMovesUp(s, step);
  }

  /** A message that is in time becomes too late by the one step that deletes its place. */
  lemma {:induction false} TooLateIffDropped(s: State, steps: seq<Step>, a: Arrival)
    requires InOrder(s) && Consistent(s) && Run(s, steps).Some?
    ensures TooLate(Run(s, steps).value, a)
       <==> TooLate(s, a) || exists k :: 0 <= k < |steps| && Drops(StateAt(s, steps, k), steps[k], a)
    decreases |steps|
  {
    hide InOrder, Consistent, Enabled, After, TooLate, Drops;
    if steps != [] {
      var next, rest := After(s, steps[0]), steps[1..];
      StepKeepsOrder(s, steps[0]);
      GoneStep(s, steps[0], a);
      TooLateIffDropped(next, rest, a);
      assert StateAt(s, steps, 0) == s;
      forall k: nat | 1 <= k < |steps|
        ensures StateAt(s, steps, k) == StateAt(next, rest, k - 1) && steps[k] == rest[k - 1]
      {
      }
      if k: nat :| k < |rest| && Drops(StateAt(next, rest, k), rest[k], a) {
        assert Drops(StateAt(s, steps, k + 1), steps[k + 1], a);
      }
    }
  }

  /**
   For every run and every admission in it: at the end of the run the message is too late if
   and only if the cleaner deleted its place after the admission.
   */
  lemma {:induction false} LateIffDroppedMeanwhile(tick: int, steps: seq<Step>, i: nat, a: Arrival)
    requires Run(Start(tick), steps).Some? && i < |steps| && steps[i] == Admit(a)
    ensures TooLate(Run(Start(tick), steps).value, a)
       <==> exists k :: i < k < |steps| && Drops(StateAt(Start(tick), steps, k), steps[k], a)
  {
    hide InOrder, Consistent, Enabled, After, TooLate, Drops, StateAt;
    var s := StateAt(Start(tick), steps, i);
    FreshRunInOrder(tick, steps[..i]);
    AdmittedInTime(tick, steps, i, a);
    StateAtLater(Start(tick), steps, i, 0);
    TooLateIffDropped(s, steps[i..], a);
    forall k: nat | k < |steps| - i
      ensures StateAt(s, steps[i..], k) == StateAt(Start(tick), steps, i + k) && steps[i..][k] == steps[i + k]
    {
      StateAtLater(Start(tick), steps, i, k);
    }
    AdmissionDropsNothing(s, a);
    DropsFrom(s, steps, i, a, Start(tick));
  }

  lemma {:induction false} AdmittedInTime(tick: int, steps: seq<Step>, i: nat, a: Arrival)
    requires Run(Start(tick), steps).Some? && i < |steps| && steps[i] == Admit(a)
    ensures !TooLate(StateAt(Start(tick), steps, i), a)
  {
    StepIsEnabled(Start(tick), steps, i);
    CleanedTicksAreClosed(tick, steps[..i], a);
  }

  /** The same deletions, counted from the admission and from the start. */
  lemma {:induction false} DropsFrom(s: State, steps: seq<Step>, i: nat, a: Arrival, start: State)
    requires Run(start, steps).Some? && i < |steps| && Run(s, steps[i..]).Some? && !Drops(s, steps[i], a)
    requires forall k: nat :: k < |steps| - i ==>
      StateAt(s, steps[i..], k) == StateAt(start, steps, i + k) && steps[i..][k] == steps[i + k]
    ensures (exists k :: 0 <= k < |steps| - i && Drops(StateAt(s, steps[i..], k), steps[i..][k], a))
       <==> (exists k :: i < k < |steps| && Drops(StateAt(start, steps, k), steps[k], a))
  {
    hide Drops, Run;
    assert StateAt(s, steps[i..], 0) == s;
    if k :| i < k < |steps| && Drops(StateAt(start, steps, k), steps[k], a) {
      assert Drops(StateAt(s, steps[i..], k - i), steps[i..][k - i], a);
    }
    if k :| 0 <= k < |steps| - i && Drops(StateAt(s, steps[i..], k), steps[i..][k], a) {
      assert Drops(StateAt(start, steps, i + k), steps[i + k], a);
    }
  }

  lemma AdmissionDropsNothing(s: State, a: Arrival)
    ensures !Drops(s, Admit(a), a)
  {
  }

  lemma {:induction false} StepIsEnabled(s: State, steps: seq<Step>, i: nat)
    requires Run(s, steps).Some? && i < |steps|
    ensures Enabled(StateAt(s, steps, i), steps[i])
    decreases i
  {
    if i > 0 {
      StepIsEnabled(After(s, steps[0]), steps[1..], i - 1);
    }
  }

  lemma {:induction false} StateAtLater(s: State, steps: seq<Step>, i: nat, k: nat)
    requires Run(s, steps).Some? && i + k <= |steps|
    ensures Run(StateAt(s, steps, i), steps[i..]) == Run(s, steps)
    ensures StateAt(StateAt(s, steps, i), steps[i..], k) == StateAt(s, steps, i + k)
  {
    assert steps == steps[..i] + steps[i..];
    RunJoin(s, steps[..i], steps[i..]);
    assert steps[..i + k] == steps[..i] + steps[i..][..k];
    RunJoin(s, steps[..i], steps[i..][..k]);
  }

  // ----- The run that stores a message too late -----

  function Fetch(): seq<Step> {
    [ConfirmQuorum, StoreLatest, AdvanceFetching]
  }

  function Logs(): seq<Step> {
    [WantLogs, AdvanceLogs]
  }

  function Verify(): seq<Step> {
    [BeginBatch, FinishBatch]
  }

  function Index(): seq<Step> {
    [BeginIndexing, FinishIndexing]
  }

  function Round(): seq<Step> {
    Fetch() + Logs() + Verify() + Index()
  }

  /** All threads move on by n ticks. */
  function Follow(n: nat): seq<Step> {
    if n == 0 then [] else Round() + Follow(n - 1)
  }

  function RecordTicks(n: nat): seq<Step> {
    if n == 0 then [] else [RecordTick] + RecordTicks(n - 1)
  }

  function DropTicks(n: nat): seq<Step> {
    if n == 0 then [] else [DropData, DropVotes] + DropTicks(n - 1)
  }

  function CleanTicks(n: nat): seq<Step> {
    [ReadLimit, ReadGoal(None)] + RecordTicks(n) + DropTicks(n)
  }

  /** The message is admitted at once, and stored six ticks after its own. */
  function LateRun(tick: nat, a: Arrival): seq<Step>
    requires tick < a.tick
  {
    [Admit(a)] + Follow(a.tick + 6 - tick) + CleanTicks(a.tick - tick)
  }

  /** All threads wait at tick m, and the cleaner has not begun. */
  predicate Level(s: State, tick: int, m: int, arrivals: multiset<Arrival>) {
    s == State(tick, m, m, m, m - 1, tick, s.latest, None, false, None, None, None, None, tick, tick, tick, arrivals)
    && s.latest <= m
  }

  lemma {:induction false} RunOne(s: State, step: Step)
    requires Enabled(s, step)
    ensures Run(s, [step]) == Some(After(s, step))
  {
    assert [step][1..] == [];
  }

  lemma {:induction false} RunTwo(s: State, first: Step, second: Step)
    requires Enabled(s, first) && Enabled(After(s, first), second)
    ensures Run(s, [first, second]) == Some(After(After(s, first), second))
  {
    RunOne(After(s, first), second);
    assert [first, second][1..] == [second];
  }

  lemma ConfirmedAndStored(s: State) returns (t: State)
    requires s.confirmed.None? && s.latest <= s.fetching
    ensures Run(s, [ConfirmQuorum, StoreLatest]) == Some(t)
    ensures t == s.(confirmed := Some(s.fetching), latest := s.fetching)
  {
    RunTwo(s, ConfirmQuorum, StoreLatest);
    t := After(After(s, ConfirmQuorum), StoreLatest);
  }

  lemma {:induction false} FetchMovesOn(s: State)
    requires s.confirmed.None? && s.latest <= s.fetching
    ensures Run(s, Fetch()) == Some(s.(latest := s.fetching, fetching := s.fetching + 1))
  {
    hide Run;
    var s2 := ConfirmedAndStored(s);
    RunOne(s2, AdvanceFetching);
    RunJoin(s, [ConfirmQuorum, StoreLatest], [AdvanceFetching]);
    assert Fetch() == [ConfirmQuorum, StoreLatest] + [AdvanceFetching];
  }

  lemma {:induction false} LogsMoveOn(s: State)
    requires !s.logsWanted && s.logFetching < s.fetching + 1
    ensures Run(s, Logs()) == Some(s.(logFetching := s.logFetching + 1))
  {
    RunTwo(s, WantLogs, AdvanceLogs);
  }

  lemma {:induction false} VerifyMovesOn(s: State)
    requires s.batch.None? && s.verifying == s.logFetching - 1 && s.verifying != s.fetching
    ensures Run(s, Verify()) == Some(s.(verifying := s.verifying + 1))
  {
    RunTwo(s, BeginBatch, FinishBatch);
  }

  lemma {:induction false} IndexMovesOn(s: State)
    requires s.next.None? && s.indexing + 1 < s.verifying
    ensures Run(s, Index()) == Some(s.(indexing := s.indexing + 1))
  {
    RunTwo(s, BeginIndexing, FinishIndexing);
  }

  lemma {:induction false} RoundMovesOn(s: State, tick: int, m: int, arrivals: multiset<Arrival>)
    requires Level(s, tick, m, arrivals)
    ensures Run(s, Round()).Some? && Level(Run(s, Round()).value, tick, m + 1, arrivals)
  {
    hide Run, Fetch, Logs, Verify, Index;
    FetchMovesOn(s);
    var s1 := s.(latest := m, fetching := m + 1);
    LogsMoveOn(s1);
    var s2 := s1.(logFetching := m + 1);
    VerifyMovesOn(s2);
    var s3 := s2.(verifying := m + 1);
    IndexMovesOn(s3);
    RunJoin(s, Fetch(), Logs());
    RunJoin(s, Fetch() + Logs(), Verify());
    RunJoin(s, Fetch() + Logs() + Verify(), Index());
  }

  lemma {:induction false} FollowMovesOn(s: State, tick: int, m: int, arrivals: multiset<Arrival>, n: nat)
    requires Level(s, tick, m, arrivals)
    ensures Run(s, Follow(n)).Some? && Level(Run(s, Follow(n)).value, tick, m + n, arrivals)
    decreases n
  {
    hide Level, Round;
    if n > 0 {
      RoundMovesOn(s, tick, m, arrivals);
      RunJoin(s, Round(), Follow(n - 1));
      FollowMovesOn(Run(s, Round()).value, tick, m + 1, arrivals, n - 1);
    }
  }

  lemma {:induction false} RecordMovesOn(s: State, n: nat)
    requires s.goal.Some? && s.recorded + n <= s.goal.value
    ensures Run(s, RecordTicks(n)) == Some(s.(recorded := s.recorded + n))
    decreases n
  {
    if n > 0 {
      assert RecordTicks(n)[1..] == RecordTicks(n - 1);
      RecordMovesOn(After(s, RecordTick), n - 1);
    }
  }

  lemma {:induction false} DropMovesOn(s: State, n: nat)
    requires s.goal.Some? && s.goal.value <= s.recorded && s.dataGone == s.votesGone && s.votesGone + n <= s.goal.value
    ensures Run(s, DropTicks(n)) == Some(s.(dataGone := s.dataGone + n, votesGone := s.votesGone + n))
    decreases n
  {
    if n > 0 {
      var d := DropTicks(n);
      assert d[1..] == [DropVotes] + DropTicks(n - 1) && d[1..][1..] == DropTicks(n - 1);
      var s2 := s.(dataGone := s.dataGone + 1, votesGone := s.votesGone + 1);
      assert Run(s, d) == Run(s2, DropTicks(n - 1));
      DropMovesOn(s2, n - 1);
    }
  }

  lemma {:induction false} CleanMovesOn(s: State, tick: int, m: int, arrivals: multiset<Arrival>, n: nat)
    requires Level(s, tick, m, arrivals) && tick + n == m - 6
    ensures Run(s, CleanTicks(n)).Some?
    ensures var t := Run(s, CleanTicks(n)).value;
      t.dataGone == t.votesGone == m - 6 && t.verifying == m && t.initial == tick && t.arrivals == arrivals
  {
    var head := [ReadLimit, ReadGoal(None)];
    var s2 := s.(limit := Some(m - 6), goal := Some(m - 6));
    assert head[1..] == [ReadGoal(None)] && head[1..][1..] == [];
    assert Run(s, head) == Some(s2);
    RecordMovesOn(s2, n);
    var s3 := s2.(recorded := m - 6);
    DropMovesOn(s3, n);
    RunJoin(s, head, RecordTicks(n));
    RunJoin(s, head + RecordTicks(n), DropTicks(n));
  }

  lemma StartAdmits(tick: nat, a: Arrival)
    requires tick < a.tick
    ensures Enabled(Start(tick), Admit(a)) && Level(After(Start(tick), Admit(a)), tick, tick, multiset{a})
    ensures Run(Start(tick), [Admit(a)]) == Some(After(Start(tick), Admit(a)))
  {
    RunOne(Start(tick), Admit(a));
  }

  /** After this run the message can be stored, and its tick was cleaned. */
  lemma LateRunIsLate(tick: nat, a: Arrival)
    requires tick < a.tick
    ensures Run(Start(tick), LateRun(tick, a)).Some?
    ensures var s := Run(Start(tick), LateRun(tick, a)).value;
      Enabled(s, Store(a)) && TooLate(s, a) && s.verifying == a.tick + 6
  {
    hide Follow, CleanTicks, Round, Level, Run;
    var s1 := After(Start(tick), Admit(a));
    var admit, follow, clean := [Admit(a)], Follow(a.tick + 6 - tick), CleanTicks(a.tick - tick);
    StartAdmits(tick, a);
    FollowMovesOn(s1, tick, tick, multiset{a}, a.tick + 6 - tick);
    RunJoin(Start(tick), admit, follow);
    CleanMovesOn(Run(s1, follow).value, tick, a.tick + 6, multiset{a}, a.tick - tick);
    RunJoin(Start(tick), admit + follow, clean);
  }

  /** From a fresh start a message can come too late exactly if its tick is ahead of the start. */
  lemma LateIffAhead(tick: nat, a: Arrival)
    ensures (exists steps :: Run(Start(tick), steps).Some?
               && Enabled(Run(Start(tick), steps).value, Store(a)) && TooLate(Run(Start(tick), steps).value, a))
       <==> tick < a.tick
  {
    if tick < a.tick {
      LateRunIsLate(tick, a);
    }
    forall steps | Run(Start(tick), steps).Some?
      ensures Run(Start(tick), steps).value.initial == tick
    {
      StartKept(Start(tick), steps);
    }
  }

  // ----- A second comparison -----

  /** How many of the three steps that move a tick to disk and delete it are done. */
  function StepsDone(s: State, t: int): (n: nat)
    ensures n <= 3
  {
    if t <= s.initial || s.recorded < t then 0
    else if s.dataGone < t then 1
    else if s.votesGone < t then 2
    else 3
  }

  /** As long as the verifying tick is at most five ticks ahead, moving the tick has not begun. */
  lemma {:induction false} InTimeWithinFive(tick: int, steps: seq<Step>, a: Arrival)
    requires Run(Start(tick), steps).Some? && Run(Start(tick), steps).value.verifying <= a.tick + 5
    ensures var s := Run(Start(tick), steps).value; StepsDone(s, a.tick) == 0 && !TooLate(s, a)
  {
    FreshRunInOrder(tick, steps);
  }

  /** After this run, the verifying tick is ahead of the message by no more than the slack. */
  predicate Within(end: Option<State>, a: Arrival, slack: int) {
    end.Some? && end.value.verifying <= a.tick + slack
  }

  /** Every message that is stored within this slack finds its tick untouched. */
  ghost predicate InTimeWith(tick: nat, slack: int) {
    forall steps, a: Arrival :: Within(Run(Start(tick), steps), a, slack) ==>
      StepsDone(Run(Start(tick), steps).value, a.tick) == 0
  }

  ghost predicate NeverLateWith(tick: nat, slack: int) {
    forall steps, a: Arrival :: Within(Run(Start(tick), steps), a, slack) ==>
      !TooLate(Run(Start(tick), steps).value, a)
  }

  /** Five is exact: comparing again when storing is enough with up to five ticks of slack and not with more. */
  lemma FiveIsExact(tick: nat, slack: int)
    ensures slack <= 5 <==> InTimeWith(tick, slack)
    ensures slack <= 5 <==> NeverLateWith(tick, slack)
  {
    hide Run, Start;
    if slack <= 5 {
      forall steps, a: Arrival | Within(Run(Start(tick), steps), a, slack)
        ensures StepsDone(Run(Start(tick), steps).value, a.tick) == 0 && !TooLate(Run(Start(tick), steps).value, a)
      {
        InTimeWithinFive(tick, steps, a);
      }
    } else {
      LateRunIsLate(tick, VoteFor(tick + 1));
      LateIsDone(tick, LateRun(tick, VoteFor(tick + 1)), VoteFor(tick + 1));
    }
  }

  /** A message is too late once its own step of the three is done. */
  lemma {:induction false} LateIsDone(tick: int, steps: seq<Step>, a: Arrival)
    requires Run(Start(tick), steps).Some?
    ensures var s := Run(Start(tick), steps).value;
      TooLate(s, a) <==> StepsDone(s, a.tick) >= if a.VoteFor? then 3 else 2
  {
    FreshRunInOrder(tick, steps);
  }
}
