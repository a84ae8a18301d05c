/**
 Moving ticks from the hot store to disk: compress every tick of a range into one record,
 then delete the raw data, then save the cursor. A crash can stop this anywhere, and the
 next start begins again from the saved cursor.
 */
module Tiering {
  import opened Options
  import opened TickVotes
  import opened TickStore

  datatype FullTick = FullTick(td: TickData, tv: seq<Vote>)

  // ----- One tick -----

  /** Everything the two stores hold about one tick. */
  datatype Local = Local(data: Option<TickData>, slots: Slots, full: Option<FullTick>)

  /** The votes for the empty tick among those that belong to an epoch. */
  function KeptEmpties(vs: seq<Vote>): (n: nat)
    ensures n <= |vs|
  {
    if vs == [] then 0
    else
      var last := vs[|vs| - 1];
      KeptEmpties(vs[..|vs| - 1]) + if EpochOf(last) != 0 && DigestOf(last) == 0 then 1 else 0
  }

  function Record(data: Option<TickData>, s: Slots): FullTick {
    FullTick(if data.Some? then data.value else NoData, OnDisk(s))
  }

  /** compressTickAndMoveToKVRocks: without tick data only a voted empty tick is recorded. */
  function Compressed(l: Local): Local {
    if l.data.None? && KeptEmpties(Present(l.slots)) <= 225 then l
    else Local(l.data, l.slots, Some(Record(l.data, l.slots)))
  }

  function WithoutData(l: Local): Local {
    Local(None, l.slots, l.full)
  }

  function WithoutVotes(l: Local): Local {
    Local(l.data, seq(|l.slots|, _ => None), l.full)
  }

  /** The votes of a record that are for this tick. */
  function Listed(tv: seq<Vote>, tick: nat): seq<Vote> {
    if tv == [] then []
    else
      var last := tv[|tv| - 1];
      Listed(tv[..|tv| - 1], tick) + if TickOf(last) == tick then [last] else []
  }

  /** db_try_get_tick_data */
  function ReadData(l: Local): Option<TickData> {
    if l.data.Some? then l.data
    else if l.full.Some? then Some(l.full.value.td)
    else None
  }

  /** db_try_get_tick_vote */
  function ReadVotes(l: Local, tick: nat): seq<Vote> {
    if Present(l.slots) != [] then Present(l.slots)
    else if l.full.Some? then Listed(l.full.value.tv, tick)
    else []
  }

  /** What an attempt has done to a tick when it stops: nothing, one, two or all three steps. */
  function Attempted(l: Local, steps: nat): Local
    requires steps <= 3
  {
    if steps == 0 then l
    else if steps == 1 then Compressed(l)
    else if steps == 2 then WithoutData(Compressed(l))
    else WithoutVotes(WithoutData(Compressed(l)))
  }

  /** A tick over a sequence of attempts. */
  function Attempts(l: Local, steps: seq<nat>): Local
    requires forall i :: 0 <= i < |steps| ==> steps[i] <= 3
    decreases |steps|
  {
    if steps == [] then l else Attempts(Attempted(l, steps[0]), steps[1..])
  }

  /** A tick of the hot store: its votes are its own and of some epoch, its data is real. */
  ghost predicate Raw(l: Local, tick: nat) {
    && tick != 0 && |l.slots| == COMPUTORS && Proper(l.slots, tick) && l.full.None?
    && (forall i :: 0 <= i < COMPUTORS && l.slots[i].Some? ==> EpochOf(l.slots[i].value) != 0)
    && (l.data.Some? ==> l.data.value.Data?)
  }

  /** Tick data with at most 225 votes against it, or nothing at all. */
  predicate Movable(l: Local) {
    if l.data.Some? then KeptEmpties(Present(l.slots)) <= 225 else Present(l.slots) == []
  }

  /** What a reader sees is the same. */
  ghost predicate SameReading(l: Local, l': Local, tick: nat) {
    ReadData(l') == ReadData(l) && ReadVotes(l', tick) == ReadVotes(l, tick)
  }

  // ----- Movable ticks -----

  lemma {:induction false} ListedOnDisk(s: Slots, tick: nat)
    requires tick != 0
    requires forall i :: 0 <= i < |s| && s[i].Some? ==> TickOf(s[i].value) == tick && EpochOf(s[i].value) != 0
    ensures Listed(OnDisk(s), tick) == Present(s)
  {
    if s != [] {
      var init, last := s[..|s| - 1], s[|s| - 1];
      ListedOnDisk(init, tick);
      var kept := if last.Some? && EpochOf(last.value) != 0 then last.value else Blank;
      assert (OnDisk(init) + [kept])[..|init|] == OnDisk(init);
    }
  }

  lemma {:induction false} NobodyPresent(n: nat)
    ensures Present(seq(n, _ => None)) == []
  {
    if n > 0 {
      NobodyPresent(n - 1);
      var all: Slots := seq(n, _ => None);
      var fewer: Slots := seq(n - 1, _ => None);
      assert all[..n - 1] == fewer;
    }
  }

  /** The tick as it was, or with data, then votes, gone behind a complete record. */
  ghost predicate OnItsWay(l0: Local, l: Local) {
    && (l.full.Some? ==> l.full == Some(Record(l0.data, l0.slots)))
    && ((l.data == l0.data && l.slots == l0.slots)
        || (l.full.Some? && l.data.None? && (l.slots == l0.slots || l.slots == WithoutVotes(l0).slots)))
  }

  lemma AttemptStaysOnItsWay(l0: Local, l: Local, steps: nat, tick: nat)
    requires Raw(l0, tick) && Movable(l0) && l0.data.Some? && OnItsWay(l0, l) && steps <= 3
    ensures OnItsWay(l0, Attempted(l, steps))
  {
    NobodyPresent(|l0.slots|);
  }

  lemma OnItsWayReads(l0: Local, l: Local, tick: nat)
    requires Raw(l0, tick) && l0.data.Some? && OnItsWay(l0, l)
    ensures SameReading(l0, l, tick)
  {
    NobodyPresent(|l0.slots|);
    ListedOnDisk(l0.slots, tick);
  }

  lemma {:induction false} AttemptsStayOnTheirWay(l0: Local, l: Local, steps: seq<nat>, tick: nat)
    requires forall i :: 0 <= i < |steps| ==> steps[i] <= 3
    requires Raw(l0, tick) && Movable(l0) && l0.data.Some? && OnItsWay(l0, l)
    ensures OnItsWay(l0, Attempts(l, steps))
    decreases |steps|
  {
    hide OnItsWay, Attempted, Movable, Raw;
    if steps != [] {
      AttemptStaysOnItsWay(l0, l, steps[0], tick);
      AttemptsStayOnTheirWay(l0, Attempted(l, steps[0]), steps[1..], tick);
    }
  }

  lemma {:induction false} NothingStaysNothing(l: Local, steps: seq<nat>)
    requires forall i :: 0 <= i < |steps| ==> steps[i] <= 3
    requires l.data.None? && l.full.None? && Present(l.slots) == []
    ensures var l' := Attempts(l, steps); l'.data.None? && l'.full.None? && Present(l'.slots) == []
    decreases |steps|
  {
    if steps != [] {
      NobodyPresent(|l.slots|);
      NothingStaysNothing(Attempted(l, steps[0]), steps[1..]);
    }
  }

  /** However often moving a movable tick is cut short and begun again, readers see no change. */
  lemma {:induction false} MovableIsSafe(l: Local, steps: seq<nat>, tick: nat)
    requires forall i :: 0 <= i < |steps| ==> steps[i] <= 3
    requires Raw(l, tick) && Movable(l)
    ensures SameReading(l, Attempts(l, steps), tick)
  {
    if l.data.Some? {
      AttemptsStayOnTheirWay(l, l, steps, tick);
      OnItsWayReads(l, Attempts(l, steps), tick);
    } else {
      NothingStaysNothing(l, steps);
    }
  }

  // ----- Other ticks -----

  /** The attempts after which a tick that is not movable reads differently. */
  function Harmful(l: Local): seq<nat> {
    if l.data.Some? then [2, 1] else if KeptEmpties(Present(l.slots)) <= 225 then [3] else [1]
  }

  lemma {:induction false} NotMovableIsHarmed(l: Local, tick: nat)
    requires Raw(l, tick) && !Movable(l)
    ensures !SameReading(l, Attempts(l, Harmful(l)), tick)
  {
    NobodyPresent(|l.slots|);
    var h := Harmful(l);
    if l.data.Some? {
      assert h[1..] == [1] && h[1..][1..] == [];
      var first := Attempted(l, 2);
      assert first.data.None? && first.slots == l.slots;
      var second := Attempted(first, 1);
      assert ReadData(second) == Some(NoData);
      assert Attempts(first, [1]) == Attempts(second, []);
      assert Attempts(l, h) == second;
    } else {
      assert h[1..] == [];
    }
  }

  /** Readers never see a change, whatever the crashes, exactly when the tick is movable. */
  lemma {:induction false} SafeIffMovable(l: Local, tick: nat)
    requires Raw(l, tick)
    ensures Movable(l) <==>
      forall steps: seq<nat> :: (forall i :: 0 <= i < |steps| ==> steps[i] <= 3) ==>
        SameReading(l, Attempts(l, steps), tick)
  {
    if Movable(l) {
      forall steps: seq<nat> | forall i :: 0 <= i < |steps| ==> steps[i] <= 3
        ensures SameReading(l, Attempts(l, steps), tick)
      {
        MovableIsSafe(l, steps, tick);
      }
    } else {
      NotMovableIsHarmed(l, tick);
    }
  }

  // ----- The votes alone -----

  /** Tick data, or more than 225 empty votes: a record is made. No votes: none is needed. */
  predicate VotesMovable(l: Local) {
    l.data.Some? || KeptEmpties(Present(l.slots)) > 225 || Present(l.slots) == []
  }

  /** The votes are where they were, or gone behind a record that lists them all. */
  ghost predicate VotesOnTheirWay(l0: Local, l: Local) {
    && (l.full.Some? ==> l.full.value.tv == OnDisk(l0.slots))
    && (l.slots == l0.slots || (l.slots == WithoutVotes(l0).slots && l.full.Some? && l.data.None?))
    && (l.data.None? && l.full.None? ==> KeptEmpties(Present(l0.slots)) > 225)
  }

  lemma AttemptKeepsVotes(l0: Local, l: Local, steps: nat)
    requires VotesOnTheirWay(l0, l) && steps <= 3
    ensures VotesOnTheirWay(l0, Attempted(l, steps))
  {
    NobodyPresent(|l0.slots|);
    hide Present, KeptEmpties, OnDisk;
    assert WithoutVotes(l).slots == WithoutVotes(l0).slots;
  }

  lemma {:induction false} AttemptsKeepVotes(l0: Local, l: Local, steps: seq<nat>)
    requires forall i :: 0 <= i < |steps| ==> steps[i] <= 3
    requires VotesOnTheirWay(l0, l)
    ensures VotesOnTheirWay(l0, Attempts(l, steps))
    decreases |steps|
  {
    hide VotesOnTheirWay, Attempted;
    if steps != [] {
      AttemptKeepsVotes(l0, l, steps[0]);
      AttemptsKeepVotes(l0, Attempted(l, steps[0]), steps[1..]);
    }
  }

  lemma VotesOnTheirWayRead(l0: Local, l: Local, tick: nat)
    requires Raw(l0, tick) && VotesOnTheirWay(l0, l)
    ensures ReadVotes(l, tick) == ReadVotes(l0, tick)
  {
    NobodyPresent(|l0.slots|);
    ListedOnDisk(l0.slots, tick);
  }

  lemma {:induction false} VotesAreSafe(l: Local, steps: seq<nat>, tick: nat)
    requires forall i :: 0 <= i < |steps| ==> steps[i] <= 3
    requires Raw(l, tick) && VotesMovable(l)
    ensures ReadVotes(Attempts(l, steps), tick) == ReadVotes(l, tick)
  {
    if l.data.Some? || KeptEmpties(Present(l.slots)) > 225 {
      AttemptsKeepVotes(l, l, steps);
      VotesOnTheirWayRead(l, Attempts(l, steps), tick);
    } else {
      NothingStaysNothing(l, steps);
    }
  }

  /** Readers never see other votes, whatever the crashes, exactly when a record is made or there are none. */
  lemma {:induction false} VotesSafeIff(l: Local, tick: nat)
    requires Raw(l, tick)
    ensures VotesMovable(l) <==>
      forall steps: seq<nat> :: (forall i :: 0 <= i < |steps| ==> steps[i] <= 3) ==>
        ReadVotes(Attempts(l, steps), tick) == ReadVotes(l, tick)
  {
    if VotesMovable(l) {
      forall steps: seq<nat> | forall i :: 0 <= i < |steps| ==> steps[i] <= 3
        ensures ReadVotes(Attempts(l, steps), tick) == ReadVotes(l, tick)
      {
        VotesAreSafe(l, steps, tick);
      }
    } else {
      NobodyPresent(|l.slots|);
      var all: seq<nat> := [3];
      assert all[1..] == [] && Attempts(l, all) == Attempts(Attempted(l, 3), []);
      assert ReadVotes(Attempts(l, all), tick) == [];
    }
  }

  /** A tick with data that reached its quorum is movable. */
  lemma QuorumTickIsMovable(l: Local, epoch: nat, d: Digest)
    requires |l.slots| == COMPUTORS && l.data.Some? && epoch != 0 && d != 0 && Reaches(l.slots, epoch, d)
    ensures Movable(l)
  {
    var vs := Present(l.slots);
    KeptAmongEmpties(vs);
    ListCountsSupport(l.slots, epoch, d);
    assert |vs| - Empties(vs) >= QUORUM;
  }

  lemma {:induction false} KeptAmongEmpties(vs: seq<Vote>)
    ensures KeptEmpties(vs) <= Empties(vs)
  {
    if vs != [] {
      KeptAmongEmpties(vs[..|vs| - 1]);
    }
  }

  // ----- Messages that arrive meanwhile -----

  /** db_insert_tick_vote on a tick: the first vote of a computor stays. */
  function WithVote(l: Local, v: Vote): Local
    requires v.Cast? && v.computor < |l.slots|
  {
    Local(l.data, Insert(l.slots, v), l.full)
  }

  /** db_insert_tick_data on a tick: the last data stays. */
  function WithData(l: Local, d: TickData): Local {
    Local(Some(d), l.slots, l.full)
  }

  /** A vote that arrives after the raw votes are gone hides all those on disk. */
  lemma LateVoteHides(l: Local, v: Vote, tick: nat)
    requires Present(l.slots) == [] && v.Cast? && v.computor < |l.slots| == COMPUTORS
    ensures ReadVotes(WithVote(l, v), tick) == [v]
  {
    NobodyMeansNone(l.slots);
    OnlyOne(l.slots, v.computor, v);
  }

  /** When an arriving vote leaves the votes that readers see as they were. */
  lemma {:induction false} VoteUnseenIff(l: Local, v: Vote, tick: nat)
    requires |l.slots| == COMPUTORS && Proper(l.slots, tick)
    requires v.Cast? && v.computor < COMPUTORS && v.tick == tick
    ensures ReadVotes(WithVote(l, v), tick) == ReadVotes(l, tick)
       <==> l.slots[v.computor].Some?
            || (Present(l.slots) == [] && l.full.Some? && Listed(l.full.value.tv, tick) == [v])
  {
    if l.slots[v.computor].None? {
      OneMore(l.slots, v.computor, v);
      if Present(l.slots) == [] {
        LateVoteHides(l, v, tick);
      }
    }
  }

  /** When arriving tick data leaves the data that readers see as it was. */
  lemma DataUnseenIff(l: Local, d: TickData)
    ensures ReadData(WithData(l, d)) == ReadData(l)
       <==> l.data == Some(d) || (l.data.None? && l.full.Some? && l.full.value.td == d)
  {
  }

  lemma {:induction false} OneMore(s: Slots, i: nat, v: Vote)
    requires i < |s| && s[i].None?
    ensures |Present(s[i := Some(v)])| == |Present(s)| + 1
  {
    var u := s[i := Some(v)];
    if i == |s| - 1 {
      assert u[..i] == s[..i];
    } else {
      assert u[..|s| - 1] == s[..|s| - 1][i := Some(v)];
      OneMore(s[..|s| - 1], i, v);
    }
  }

  /** The steps of an attempt that are still to come after the first ones. */
  function Finished(l: Local, steps: nat): Local
    requires steps <= 3
  {
    if steps == 0 then WithoutVotes(WithoutData(Compressed(l)))
    else if steps == 1 then WithoutVotes(WithoutData(l))
    else if steps == 2 then WithoutVotes(l)
    else l
  }

  lemma NoVotesLeft(l: Local)
    ensures Present(WithoutVotes(l).slots) == []
  {
    NobodyPresent(|l.slots|);
  }

  lemma VoteInTime(l: Local, v: Vote, tick: nat)
    requires Raw(l, tick) && Compressed(l).full.Some?
    requires v.Cast? && v.computor < COMPUTORS && v.tick == tick && v.epoch != 0
    ensures ReadVotes(Finished(WithVote(l, v), 0), tick) == Present(Insert(l.slots, v))
  {
    hide Present, KeptEmpties, Listed, OnDisk;
    NobodyPresent(|l.slots|);
    if l.slots[v.computor].None? { KeptEmptiesInsert(l.slots, v.computor, v); }
    ListedOnDisk(Insert(l.slots, v), tick);
  }

  lemma VoteLost(l: Local, v: Vote, tick: nat, steps: nat)
    requires Raw(l, tick) && Compressed(l).full.Some? && 1 <= steps <= 2 && v.Cast? && v.computor < COMPUTORS
    ensures ReadVotes(Finished(WithVote(Attempted(l, steps), v), steps), tick) == Present(l.slots)
  {
    hide Present, KeptEmpties, Listed, OnDisk;
    NobodyPresent(|l.slots|);
    ListedOnDisk(l.slots, tick);
    var u := WithVote(Attempted(l, steps), v);
    assert Finished(u, steps).slots == WithoutVotes(l).slots;
  }

  /**
   A vote that arrives while its tick is moved: in time for the record it is read like the
   others, before the deletion it is lost, and afterwards it is the only one that is read.
   */
  lemma VoteDuringMove(l: Local, v: Vote, tick: nat, steps: nat)
    requires Raw(l, tick) && Compressed(l).full.Some? && steps <= 3
    requires v.Cast? && v.computor < COMPUTORS && v.tick == tick && v.epoch != 0
    ensures ReadVotes(Finished(WithVote(Attempted(l, steps), v), steps), tick)
         == if steps == 0 then Present(Insert(l.slots, v)) else if steps < 3 then Present(l.slots) else [v]
  {
    hide Present, KeptEmpties, Listed, OnDisk, ReadVotes;
    if steps == 0 {
      VoteInTime(l, v, tick);
    } else if steps < 3 {
      VoteLost(l, v, tick, steps);
    } else {
      NoVotesLeft(WithoutData(Compressed(l)));
      assert |Compressed(l).slots| == |l.slots|;
      LateVoteHides(Attempted(l, 3), v, tick);
    }
  }

  /**
   Tick data that arrives while its tick is moved is read afterwards unless the tick was
   recorded and not deleted yet.
   */
  lemma DataDuringMove(l: Local, d: TickData, tick: nat, steps: nat)
    requires Raw(l, tick) && Compressed(l).full.Some? && steps <= 3
    ensures ReadData(Finished(WithData(Attempted(l, steps), d), steps))
         == if steps == 1 then Some(Record(l.data, l.slots).td) else Some(d)
  {
  }

  lemma {:induction false} KeptEmptiesInsert(s: Slots, i: nat, v: Vote)
    requires i < |s| && s[i].None?
    ensures KeptEmpties(Present(s[i := Some(v)])) >= KeptEmpties(Present(s))
  {
    hide KeptEmpties;
    var u := s[i := Some(v)];
    if i == |s| - 1 {
      assert u[..i] == s[..i];
      KeptEmptiesAppend(Present(s[..i]), Some(v));
      KeptEmptiesAppend(Present(s[..i]), None);
    } else {
      var n := |s| - 1;
      assert u[..n] == s[..n][i := Some(v)];
      KeptEmptiesInsert(s[..n], i, v);
      KeptEmptiesAppend(Present(s[..n]), s[n]);
      KeptEmptiesAppend(Present(u[..n]), s[n]);
    }
  }

  lemma {:induction false} KeptEmptiesAppend(vs: seq<Vote>, o: Option<Vote>)
    ensures KeptEmpties(vs + if o.Some? then [o.value] else [])
         == KeptEmpties(vs) + if o.Some? && EpochOf(o.value) != 0 && DigestOf(o.value) == 0 then 1 else 0
  {
    if o.Some? {
      assert (vs + [o.value])[..|vs|] == vs;
    } else {
      assert vs + [] == vs;
    }
  }

  lemma {:induction false} NobodyMeansNone(s: Slots)
    requires Present(s) == []
    ensures forall i :: 0 <= i < |s| ==> s[i].None?
  {
    if s != [] {
      NobodyMeansNone(s[..|s| - 1]);
    }
  }

  lemma {:induction false} OnlyOne(s: Slots, i: nat, v: Vote)
    requires i < |s| && forall k :: 0 <= k < |s| ==> s[k].None?
    ensures Present(s[i := Some(v)]) == [v]
  {
    var init := s[..|s| - 1];
    if i == |s| - 1 {
      assert s[i := Some(v)][..i] == init;
      assert init == seq(|init|, _ => None);
      NobodyPresent(|init|);
    } else {
      assert s[i := Some(v)][..|s| - 1] == init[i := Some(v)];
      OnlyOne(init, i, v);
    }
  }
}
