/** The garbage cleaner over both stores: a round as a sequence of store operations, cut anywhere. */
module Cleaner {
  import opened Options
  import opened TickVotes
  import opened TickStore
  import opened Tiering

  /** The hot votes and tick data, the records on disk and the saved cursor. */
  datatype Tiers = Tiers(votes: map<(nat, nat), Vote>, data: map<nat, TickData>,
                         full: map<nat, FullTick>, cursor: nat)

  datatype Step = Compress(tick: nat) | DropData(tick: nat) | DropVotes(tick: nat) | Save(tick: nat)

  function Lookup<T>(m: map<nat, T>, t: nat): Option<T> {
    if t in m then Some(m[t]) else None
  }

  function LocalOf(s: Tiers, t: nat): Local {
    Local(Lookup(s.data, t), SlotsOf(s.votes, t), Lookup(s.full, t))
  }

  function DropVotesOf(votes: map<(nat, nat), Vote>, t: nat): map<(nat, nat), Vote> {
    map k | k in votes && !(k.0 == t && k.1 < COMPUTORS) :: votes[k]
  }

  function Perform(s: Tiers, step: Step): Tiers {
    match step
    case Compress(t) =>
      var l := Compressed(LocalOf(s, t));
      if l.full.Some? then s.(full := s.full[t := l.full.value]) else s
    case DropData(t) => s.(data := s.data - {t})
    case DropVotes(t) => s.(votes := DropVotesOf(s.votes, t))
    case Save(t) => s.(cursor := t)
  }

  /** Step i of a round from one cursor to the next. */
  function StepAt(from: nat, to: nat, i: nat): Step
    requires from < to
  {
    var n := to - from;
    if i < n then Compress(from + 1 + i)
    else if i < 3 * n then
      var t := from + 1 + (i - n) / 2;
      if (i - n) % 2 == 0 then DropData(t) else DropVotes(t)
    else Save(to)
  }

  function Length(from: nat, to: nat): nat
    requires from < to
  {
    3 * (to - from) + 1
  }

  /** The stores after the first k steps of a round. */
  function Apply(s: Tiers, from: nat, to: nat, k: nat): Tiers
    requires from < to
  {
    if k == 0 then s else Perform(Apply(s, from, to, k - 1), StepAt(from, to, k - 1))
  }

  /** One attempt at a round that stops after at most `crash` steps. */
  function Attempt(s: Tiers, to: nat, crash: nat): Tiers {
    if s.cursor < to then
      Apply(s, s.cursor, to, if crash < Length(s.cursor, to) then crash else Length(s.cursor, to))
    else s
  }

  /** Starts and crashes in any number. */
  function Run(s: Tiers, attempts: seq<(nat, nat)>): Tiers
    decreases |attempts|
  {
    if attempts == [] then s else Run(Attempt(s, attempts[0].0, attempts[0].1), attempts[1..])
  }

  // ----- What a round does to one tick -----

  /** How many of the three steps of tick t are among the first k of the round. */
  function Reached(from: nat, to: nat, k: nat, t: nat): (n: nat)
    ensures n <= 3
  {
    if from < t <= to then
      var n, j := to - from, t - from - 1;
      if k > n + 2 * j + 1 then 3 else if k > n + 2 * j then 2 else if k > j then 1 else 0
    else 0
  }

  lemma PerformElsewhere(s: Tiers, step: Step, t: nat)
    requires step.Save? || step.tick != t
    ensures LocalOf(Perform(s, step), t) == LocalOf(s, t)
  {
  }

  lemma PerformHere(s: Tiers, t: nat)
    ensures LocalOf(Perform(s, Compress(t)), t) == Compressed(LocalOf(s, t))
    ensures LocalOf(Perform(s, DropData(t)), t) == WithoutData(LocalOf(s, t))
    ensures LocalOf(Perform(s, DropVotes(t)), t) == WithoutVotes(LocalOf(s, t))
  {
  }

  lemma {:induction false} RoundOnTick(s: Tiers, from: nat, to: nat, k: nat, t: nat)
    requires from < to && k <= Length(from, to)
    ensures LocalOf(Apply(s, from, to, k), t) == Attempted(LocalOf(s, t), Reached(from, to, k, t))
  {
    hide LocalOf, Perform, Compressed, WithoutData, WithoutVotes;
    if k > 0 {
      RoundOnTick(s, from, to, k - 1, t);
      var step := StepAt(from, to, k - 1);
      var before := Apply(s, from, to, k - 1);
      ReachedStep(from, to, k - 1, t);
      if step.Save? || step.tick != t {
        PerformElsewhere(before, step, t);
      } else {
        PerformHere(before, t);
      }
    }
  }

  lemma ReachedStep(from: nat, to: nat, k: nat, t: nat)
    requires from < to && k < Length(from, to)
    ensures var step := StepAt(from, to, k);
      var r, r' := Reached(from, to, k, t), Reached(from, to, k + 1, t);
      if step.Save? || step.tick != t then r' == r
      else r' == r + 1 && step == if r == 0 then Compress(t) else if r == 1 then DropData(t) else DropVotes(t)
  {
  }

  /** The steps of tick t in each attempt of a run. */
  function StepsOf(s: Tiers, attempts: seq<(nat, nat)>, t: nat): (steps: seq<nat>)
    ensures forall i :: 0 <= i < |steps| ==> steps[i] <= 3
    decreases |attempts|
  {
    if attempts == [] then []
    else
      var (to, crash) := attempts[0];
      [if s.cursor < to then
         Reached(s.cursor, to, if crash < Length(s.cursor, to) then crash else Length(s.cursor, to), t)
       else 0]
      + StepsOf(Attempt(s, to, crash), attempts[1..], t)
  }

  lemma {:induction false} RunOnTick(s: Tiers, attempts: seq<(nat, nat)>, t: nat)
    ensures LocalOf(Run(s, attempts), t) == Attempts(LocalOf(s, t), StepsOf(s, attempts, t))
    decreases |attempts|
  {
    hide LocalOf, Compressed, WithoutData, WithoutVotes;
    if attempts != [] {
      var (to, crash) := attempts[0];
      var next := Attempt(s, to, crash);
      if s.cursor < to {
        RoundOnTick(s, s.cursor, to, if crash < Length(s.cursor, to) then crash else Length(s.cursor, to), t);
      }
      RunOnTick(next, attempts[1..], t);
      var steps := StepsOf(s, attempts, t);
      assert steps[1..] == StepsOf(next, attempts[1..], t);
    }
  }

  // ----- Crash safety -----

  /** A movable tick reads the same after any starts and crashes. */
  lemma {:induction false} CrashSafe(s: Tiers, attempts: seq<(nat, nat)>, t: nat)
    requires Raw(LocalOf(s, t), t) && Movable(LocalOf(s, t))
    ensures SameReading(LocalOf(s, t), LocalOf(Run(s, attempts), t), t)
  {
    hide LocalOf, Raw, Movable, SameReading, Attempts;
    RunOnTick(s, attempts, t);
    MovableIsSafe(LocalOf(s, t), StepsOf(s, attempts, t), t);
  }

  lemma {:induction false} CursorUntilSaved(s: Tiers, from: nat, to: nat, k: nat)
    requires from < to && k <= 3 * (to - from)
    ensures Apply(s, from, to, k).cursor == s.cursor
  {
    hide Compressed;
    if k > 0 {
      CursorUntilSaved(s, from, to, k - 1);
    }
  }

  /** A crash at the right moment of a round up to t gives any number of steps of t. */
  function CrashFor(n: nat, steps: nat): nat
    requires n > 0
  {
    if steps == 1 then n else if steps == 2 then 3 * n - 1 else 3 * n
  }

  lemma AttemptWith(s: Tiers, t: nat, steps: nat)
    requires s.cursor < t && 1 <= steps <= 3
    ensures var next := Attempt(s, t, CrashFor(t - s.cursor, steps));
      next.cursor == s.cursor && LocalOf(next, t) == Attempted(LocalOf(s, t), steps)
  {
    hide LocalOf, Attempted;
    var k := CrashFor(t - s.cursor, steps);
    RoundOnTick(s, s.cursor, t, k, t);
    CursorUntilSaved(s, s.cursor, t, k);
  }

  lemma {:induction false} RunTwice(s: Tiers, attempts: seq<(nat, nat)>)
    requires |attempts| == 2
    ensures Run(s, attempts)
         == Attempt(Attempt(s, attempts[0].0, attempts[0].1), attempts[1].0, attempts[1].1)
  {
    var next := Attempt(s, attempts[0].0, attempts[0].1);
    assert attempts[1..] == [attempts[1]] && attempts[1..][1..] == [];
    assert Run(next, attempts[1..]) == Run(Attempt(next, attempts[1].0, attempts[1].1), []);
  }

  lemma {:induction false} AttemptsTwice(l: Local, steps: seq<nat>)
    requires |steps| == 2 && steps[0] <= 3 && steps[1] <= 3
    ensures Attempts(l, steps) == Attempted(Attempted(l, steps[0]), steps[1])
  {
    assert steps[1..] == [steps[1]] && steps[1..][1..] == [];
    assert Attempts(Attempted(l, steps[0]), steps[1..]) == Attempts(Attempted(Attempted(l, steps[0]), steps[1]), []);
  }

  /** A tick ahead of the cursor that is not movable reads differently after some crash. */
  lemma OthersAreHarmed(s: Tiers, t: nat) returns (attempts: seq<(nat, nat)>)
    requires s.cursor < t && Raw(LocalOf(s, t), t) && !Movable(LocalOf(s, t))
    ensures !SameReading(LocalOf(s, t), LocalOf(Run(s, attempts), t), t)
  {
    hide LocalOf, Raw, Movable, SameReading, Attempted, Attempt;
    var l := LocalOf(s, t);
    NotMovableIsHarmed(l, t);
    var h := Harmful(l);
    var n := t - s.cursor;
    AttemptWith(s, t, h[0]);
    var next := Attempt(s, t, CrashFor(n, h[0]));
    if |h| == 2 {
      AttemptWith(next, t, h[1]);
      attempts := [(t, CrashFor(n, h[0])), (t, CrashFor(n, h[1]))];
      RunTwice(s, attempts);
      AttemptsTwice(l, h);
    } else {
      attempts := [(t, CrashFor(n, h[0]))];
      assert attempts[1..] == [] && h[1..] == [];
      assert Attempts(l, h) == Attempts(Attempted(l, h[0]), []);
    }
  }

  /** Crash safety holds exactly for the movable ticks. */
  lemma {:induction false} CrashSafeIffMovable(s: Tiers, t: nat)
    requires s.cursor < t && Raw(LocalOf(s, t), t)
    ensures Movable(LocalOf(s, t)) <==>
      forall attempts :: SameReading(LocalOf(s, t), LocalOf(Run(s, attempts), t), t)
  {
    hide LocalOf, Raw, Movable, SameReading, Run;
    if Movable(LocalOf(s, t)) {
      forall attempts
        ensures SameReading(LocalOf(s, t), LocalOf(Run(s, attempts), t), t)
      {
        CrashSafe(s, attempts, t);
      }
    } else {
      var attempts := OthersAreHarmed(s, t);
    }
  }

  // ----- The loops -----

  function Blanks(): (tv: seq<Vote>)
    ensures |tv| == COMPUTORS
  {
    seq(COMPUTORS, _ => Blank)
  }

  /** The record slots after copying a list of votes into them. */
  function Placed(vs: seq<Vote>): (tv: seq<Vote>)
    ensures |tv| == COMPUTORS
  {
    if vs == [] then Blanks()
    else
      var v, tv := vs[|vs| - 1], Placed(vs[..|vs| - 1]);
      if v.Cast? && v.computor < COMPUTORS && EpochOf(v) != 0 then tv[v.computor := v] else tv
  }

  function Kept(o: Option<Vote>): Vote {
    if o.Some? && EpochOf(o.value) != 0 then o.value else Blank
  }

  lemma {:induction false} OnDiskAt(s: Slots, j: nat)
    requires j < |s|
    ensures OnDisk(s)[j] == Kept(s[j])
  {
    if j < |s| - 1 {
      OnDiskAt(s[..|s| - 1], j);
    }
  }

  lemma {:induction false} PlacedAppend(vs: seq<Vote>, v: Vote, j: nat)
    requires j < COMPUTORS
    ensures Placed(vs + [v])[j] ==
      if v.Cast? && v.computor == j && EpochOf(v) != 0 then v else Placed(vs)[j]
  {
  }

  lemma {:induction false} PlacedAt(s: Slots, tick: nat, j: nat)
    requires |s| <= COMPUTORS && Proper(s, tick) && j < COMPUTORS
    ensures Placed(Present(s))[j] == if j < |s| then Kept(s[j]) else Blank
  {
    hide Placed;
    if s == [] {
      NonePlaced(j);
    } else {
      var init, last := s[..|s| - 1], s[|s| - 1];
      PlacedAt(init, tick, j);
      if last.Some? {
        PlacedAppend(Present(init), last.value, j);
        assert Present(s) == Present(init) + [last.value];
      } else {
        assert Present(s) == Present(init) + [] == Present(init);
      }
    }
  }

  lemma NonePlaced(j: nat)
    requires j < COMPUTORS
    ensures Placed([])[j] == Blank
  {
  }

  /** Copying the votes into a blank record gives the record of the slots. */
  lemma {:induction false} PlacedIsOnDisk(s: Slots, tick: nat)
    requires |s| == COMPUTORS && Proper(s, tick)
    ensures Placed(Present(s)) == OnDisk(s)
  {
    hide Placed, OnDisk, Present;
    forall j: nat | j < COMPUTORS
      ensures Placed(Present(s))[j] == OnDisk(s)[j]
    {
      PlacedAt(s, tick, j);
      OnDiskAt(s, j);
    }
  }

  class TieredStore {
    const hot: HotStore
    var fullTicks: map<nat, FullTick>
    var cursor: nat

    ghost predicate Valid()
      reads this, hot
    {
      WellKeyed(hot.votes)
    }

    function View(): Tiers
      reads this, hot
    {
      Tiers(hot.votes, hot.data, fullTicks, cursor)
    }

    constructor (store: HotStore, initialTick: nat)
      requires WellKeyed(store.votes)
      ensures Valid() && hot == store && View() == Tiers(store.votes, store.data, map[], initialTick)
    {
      hot := store;
      fullTicks := map[];
      cursor := initialTick;
    }

    /** compressTickAndMoveToKVRocks */
    method CompressTick(tick: nat)
      requires Valid()
      modifies this`fullTicks
      ensures Valid() && View() == Perform(old(View()), Compress(tick))
    {
      hide SlotsOf;
      ghost var s := SlotsOf(hot.votes, tick);
      SlotsAreProper(hot.votes, tick);
      var votes := hot.GetTickVotes(tick);
      var tv := Blanks();
      var emptyCount := 0;
      for i := 0 to |votes|
        invariant fullTicks == old(fullTicks)
        invariant |tv| == COMPUTORS && tv == Placed(votes[..i])
        invariant emptyCount == KeptEmpties(votes[..i])
      {
        assert votes[..i + 1][..i] == votes[..i];
        var v := votes[i];
        PresentAreCast(s, tick, i);
        if v.computor < COMPUTORS && EpochOf(v) != 0 {
          tv := tv[v.computor := v];
          if DigestOf(v) == 0 {
            emptyCount := emptyCount + 1;
          }
        }
      }
      assert votes[..|votes|] == votes;
      PlacedIsOnDisk(s, tick);
      var td := hot.GetTickData(tick);
      if td.None? && emptyCount <= 225 {
        RewritingChangesNothing(fullTicks, tick);
        assert Compressed(LocalOf(View(), tick)) == LocalOf(View(), tick);
        return;
      }
      fullTicks := fullTicks[tick := FullTick(if td.Some? then td.value else NoData, tv)];
    }

    /** cleanRawTick without transactions, for a range of ticks */
    method CleanRawTick(fromTick: nat, toTick: nat, ghost start: Tiers)
      requires Valid() && fromTick < toTick
      requires View() == Apply(start, fromTick, toTick, toTick - fromTick)
      modifies hot`data, hot`votes
      ensures Valid() && View() == Apply(start, fromTick, toTick, 3 * (toTick - fromTick))
    {
      hide SlotsOf, LocalOf, Compressed, Apply, Perform;
      var n := toTick - fromTick;
      for tick := fromTick + 1 to toTick + 1
        invariant Valid()
        invariant View() == Apply(start, fromTick, toTick, n + 2 * (tick - fromTick - 1))
      {
        DropSteps(start, fromTick, toTick, tick);
        ghost var was := hot.votes;
        hot.DeleteTickData(tick);
        hot.DeleteTickVotes(tick);
        assert hot.votes == DropVotesOf(was, tick);
      }
    }

    /** One round of the cleaner at this indexing tick. */
    method CleanRound(indexingTick: int)
      requires Valid()
      modifies this, hot
      ensures Valid()
      ensures View() == if indexingTick - 5 > old(cursor)
                        then Attempt(old(View()), indexingTick - 5, Length(old(cursor), indexingTick - 5))
                        else old(View())
    {
      hide SlotsOf, LocalOf, Compressed, Perform;
      var cleanToTick := indexingTick - 5;
      if cursor < cleanToTick {
        ghost var start := View();
        var from := cursor;
        for t := from + 1 to cleanToTick + 1
          invariant Valid() && cursor == from && View() == Apply(start, from, cleanToTick, t - from - 1)
        {
          CompressTick(t);
        }
        CleanRawTick(from, cleanToTick, start);
        SaveLast(View(), from, cleanToTick);
        cursor := cleanToTick;
      }
    }
  }

  lemma RewritingChangesNothing<T>(m: map<nat, T>, t: nat)
    ensures t in m ==> m[t := m[t]] == m
  {
  }

  /** The two deletions of a tick. */
  lemma DropSteps(start: Tiers, from: nat, to: nat, t: nat)
    requires from < t <= to
    ensures var i := to - from + 2 * (t - from - 1);
      var s := Apply(start, from, to, i);
      Apply(start, from, to, i + 2) == Tiers(DropVotesOf(s.votes, t), s.data - {t}, s.full, s.cursor)
  {
  }

  lemma SaveLast(s: Tiers, from: nat, to: nat)
    requires from < to
    ensures Perform(s, StepAt(from, to, 3 * (to - from))) == Tiers(s.votes, s.data, s.full, to)
  {
  }

  lemma SlotsAreProper(votes: map<(nat, nat), Vote>, tick: nat)
    requires WellKeyed(votes)
    ensures Proper(SlotsOf(votes, tick), tick)
  {
  }

  lemma {:induction false} PresentAreCast(s: Slots, tick: nat, i: nat)
    requires Proper(s, tick) && i < |Present(s)|
    ensures Present(s)[i].Cast? && Present(s)[i].computor < |s|
  {
    if i < |Present(s[..|s| - 1])| {
      PresentAreCast(s[..|s| - 1], tick, i);
    }
  }
}
