/** verifyQuorum: has this tick reached its quorum, and is everything it refers to at hand? */
module Quorum {
  import opened Options
  import opened TickVotes
  import opened TickStore

  /** The digest that has reached its quorum. */
  ghost function Decided(s: Slots, epoch: nat): (r: Option<Digest>)
    ensures r.Some? ==> Reaches(s, epoch, r.value)
    ensures r.None? ==> forall d: Digest :: !Reaches(s, epoch, d)
  {
    if exists d: Digest :: Reaches(s, epoch, d) then
      var d: Digest :| Reaches(s, epoch, d);
      Some(d)
    else None
  }

  predicate Current(td: TickData, tick: nat, epoch: nat) {
    td.Data? && td.tick == tick && td.epoch == epoch
  }

  /** The tick data that is judged: the cached one if it is for this tick, else the stored one. */
  function Candidate(data: map<nat, TickData>, td: TickData, tick: nat, epoch: nat): TickData {
    if !Current(td, tick, epoch) && tick in data then data[tick] else td
  }

  predicate AllKnown(digests: seq<Digest>, known: set<Digest>) {
    forall i :: 0 <= i < |digests| && digests[i] != 0 ==> digests[i] in known
  }

  predicate Verified(hash: TickData -> Digest, known: set<Digest>, td: TickData, tick: nat, epoch: nat, d: Digest) {
    Current(td, tick, epoch) && hash(td) == d && AllKnown(td.transactions, known)
  }

  /** The cached votes for this tick are votes that the store holds. */
  ghost predicate CacheFits(cache: seq<Vote>, s: Slots, tick: nat) {
    |cache| == |s| == COMPUTORS && Proper(s, tick)
    && forall i :: 0 <= i < COMPUTORS && TickOf(cache[i]) == tick ==> s[i] == Some(cache[i])
  }

  /** The cached votes for this tick are all the votes that the store holds. */
  ghost predicate CacheIs(cache: seq<Vote>, s: Slots, tick: nat) {
    |cache| == |s| == COMPUTORS
    && forall i :: 0 <= i < COMPUTORS ==> s[i] == if TickOf(cache[i]) == tick then Some(cache[i]) else None
  }

  /** The cache after a call: what it does not hold for this tick is looked up. */
  function Refreshed(cache: seq<Vote>, s: Slots, tick: nat): (r: seq<Vote>)
    requires |cache| == |s|
    ensures |r| == |s|
  {
    seq(|s|, i requires 0 <= i < |s| => if TickOf(cache[i]) != tick && s[i].Some? then s[i].value else cache[i])
  }

  /** Brings the cache up to date and counts the votes of the epoch. */
  method RefreshVotes(store: HotStore, tick: nat, epoch: nat, votes: array<Vote>) returns (count: nat)
    requires votes.Length == COMPUTORS && CacheFits(votes[..], SlotsOf(store.votes, tick), tick)
    modifies votes
    ensures votes[..] == Refreshed(old(votes[..]), SlotsOf(store.votes, tick), tick)
    ensures CacheIs(votes[..], SlotsOf(store.votes, tick), tick)
    ensures count == Turnout(SlotsOf(store.votes, tick), epoch)
  {
    ghost var s := SlotsOf(store.votes, tick);
    hide SlotsOf;
    count := 0;
    for i := 0 to COMPUTORS
      invariant forall j :: 0 <= j < COMPUTORS ==>
        votes[j] == if j < i then Refreshed(old(votes[..]), s, tick)[j] else old(votes[j])
      invariant forall j :: i <= j < COMPUTORS && TickOf(votes[j]) == tick ==> s[j] == Some(votes[j])
      invariant forall j :: 0 <= j < i ==> s[j] == if TickOf(votes[j]) == tick then Some(votes[j]) else None
      invariant count == Turnout(s[..i], epoch)
    {
      assert s[..i + 1][..i] == s[..i];
      if TickOf(votes[i]) != tick {
        var found := store.GetTickVote(tick, i);
        if found.Some? {
          votes[i] := found.value;
        }
      }
      if TickOf(votes[i]) == tick && EpochOf(votes[i]) == epoch {
        count := count + 1;
      }
    }
    assert s[..COMPUTORS] == s;
  }

  /** The votes of the epoch by digest. */
  method CountDigests(votes: array<Vote>, tick: nat, epoch: nat, ghost s: Slots)
    returns (counts: map<Digest, nat>)
    requires votes.Length == COMPUTORS && CacheIs(votes[..], s, tick)
    ensures forall d: Digest :: (if d in counts then counts[d] else 0) == Support(s, epoch, d)
  {
    counts := map[];
    for i := 0 to COMPUTORS
      invariant forall d: Digest :: (if d in counts then counts[d] else 0) == Support(s[..i], epoch, d)
    {
      assert s[..i + 1][..i] == s[..i];
      assert votes[i] == votes[..][i];
      if TickOf(votes[i]) == tick && EpochOf(votes[i]) == epoch {
        var d := DigestOf(votes[i]);
        counts := counts[d := (if d in counts then counts[d] else 0) + 1];
      }
    }
    assert s[..COMPUTORS] == s;
  }

  /** Looks through the counts, in any order, for one that is enough. */
  method FindConsensus(counts: map<Digest, nat>, epoch: nat, ghost s: Slots) returns (r: Option<Digest>)
    requires |s| == COMPUTORS
    requires forall d: Digest :: (if d in counts then counts[d] else 0) == Support(s, epoch, d)
    ensures r == Decided(s, epoch)
  {
    var rest := counts.Keys;
    while rest != {}
      invariant rest <= counts.Keys
      invariant forall d: Digest :: Reaches(s, epoch, d) ==> d in rest
      decreases |rest|
    {
      var d :| d in rest;
      if (d == 0 && counts[d] >= EMPTY_QUORUM) || (d != 0 && counts[d] >= QUORUM) {
        assert Reaches(s, epoch, d);
        ghost var decided := Decided(s, epoch);
        AtMostOneReaches(s, epoch, d, decided.value);
        return Some(d);
      }
      rest := rest - {d};
    }
    return None;
  }

  method AllTransactionsExist(store: HotStore, digests: seq<Digest>) returns (ok: bool)
    ensures ok == AllKnown(digests, store.transactions)
  {
    for i := 0 to |digests|
      invariant AllKnown(digests[..i], store.transactions)
    {
      if digests[i] != 0 && digests[i] !in store.transactions {
        return false;
      }
    }
    assert digests[..|digests|] == digests;
    return true;
  }

  /** The verdict of a call, the tick data it leaves cached and the tick data it leaves stored. */
  datatype Outcome = Outcome(ok: bool, td: TickData, data: map<nat, TickData>)

  /** The judged tick data is for this tick, but is not the data that the quorum voted for. */
  predicate Mismatched(hash: TickData -> Digest, td: TickData, tick: nat, epoch: nat, d: Digest) {
    Current(td, tick, epoch) && hash(td) != d
  }

  /** What one call does, given the votes and what else the store holds. */
  ghost function Call(hash: TickData -> Digest, s: Slots, data: map<nat, TickData>, known: set<Digest>,
                      td: TickData, tick: nat, epoch: nat): Outcome
  {
    match Decided(s, epoch)
    case None => Outcome(false, td, data)
    case Some(d) =>
      if d == 0 then Outcome(true, td, data) else
      var candidate := Candidate(data, td, tick, epoch);
      Outcome(Verified(hash, known, candidate, tick, epoch, d), candidate,
              if Mismatched(hash, candidate, tick, epoch, d) then data - {tick} else data)
  }

  /** The tick data that is judged: the cached one if it is for this tick, else the stored one, else the cached one. */
  predicate IsJudged(x: TickData, data: map<nat, TickData>, td: TickData, tick: nat, epoch: nat) {
    if td.Data? && td.tick == tick && td.epoch == epoch then x == td
    else if tick in data then x == data[tick]
    else x == td
  }

  /** What the verdict of a call is, in terms of votes, tick data and transactions. */
  ghost predicate Confirmed(hash: TickData -> Digest, s: Slots, judged: TickData, known: set<Digest>,
                            tick: nat, epoch: nat)
  {
    || Support(s, epoch, 0) >= 226
    || exists d: Digest ::
         && d != 0 && Support(s, epoch, d) >= 451
         && judged.Data? && judged.tick == tick && judged.epoch == epoch && hash(judged) == d
         && forall i :: 0 <= i < |judged.transactions| ==>
              judged.transactions[i] == 0 || judged.transactions[i] in known
  }

  /**
   A call answers true exactly if the empty tick has 226 votes, or another digest has 451 and
   the judged tick data is for this tick, has that digest and all its transactions are known.
   */
  lemma CallAnswers(hash: TickData -> Digest, s: Slots, data: map<nat, TickData>, known: set<Digest>,
                    td: TickData, tick: nat, epoch: nat, judged: TickData)
    requires |s| == COMPUTORS && IsJudged(judged, data, td, tick, epoch)
    ensures Call(hash, s, data, known, td, tick, epoch).ok <==> Confirmed(hash, s, judged, known, tick, epoch)
  {
    var decided := Decided(s, epoch);
    forall d: Digest | Reaches(s, epoch, d)
      ensures decided == Some(d)
    {
      AtMostOneReaches(s, epoch, d, decided.value);
    }
    assert Reaches(s, epoch, 0) <==> Support(s, epoch, 0) >= 226;
    forall d: Digest | d != 0
      ensures Reaches(s, epoch, d) <==> Support(s, epoch, d) >= 451
    {
    }
  }

  lemma JudgedExists(data: map<nat, TickData>, td: TickData, tick: nat, epoch: nat)
    ensures exists judged :: IsJudged(judged, data, td, tick, epoch)
  {
    assert IsJudged(Candidate(data, td, tick, epoch), data, td, tick, epoch);
  }

  /** What a call leaves: the judged data is cached, and stored data that is not the voted one is deleted. */
  lemma {:induction false} CallLeaves(hash: TickData -> Digest, s: Slots, data: map<nat, TickData>,
                                      known: set<Digest>, td: TickData, tick: nat, epoch: nat, judged: TickData,
                                      d: Digest)
    requires |s| == COMPUTORS && IsJudged(judged, data, td, tick, epoch)
    ensures var r := Call(hash, s, data, known, td, tick, epoch);
      && (d != 0 && Support(s, epoch, d) >= 451 ==>
            && r.td == judged
            && r.data == if judged.Data? && judged.tick == tick && judged.epoch == epoch && hash(judged) != d
                         then map t | t in data && t != tick :: data[t] else data)
      && ((forall e: Digest :: e != 0 ==> Support(s, epoch, e) < 451) ==> r.td == td && r.data == data)
  {
    if d != 0 && Support(s, epoch, d) >= 451 {
      assert Reaches(s, epoch, d);
      AtMostOneReaches(s, epoch, d, Decided(s, epoch).value);
    }
  }

  /** verifyQuorum; td is the cached tick data and comes back as it is left. */
  method VerifyQuorum(store: HotStore, hash: TickData -> Digest, tick: nat, epoch: nat,
                      td: TickData, votes: array<Vote>)
    returns (ok: bool, td': TickData)
    requires votes.Length == COMPUTORS && CacheFits(votes[..], SlotsOf(store.votes, tick), tick)
    modifies votes, store`data
    ensures votes[..] == Refreshed(old(votes[..]), SlotsOf(store.votes, tick), tick)
    ensures CacheIs(votes[..], SlotsOf(store.votes, tick), tick)
    ensures Outcome(ok, td', store.data)
         == Call(hash, SlotsOf(store.votes, tick), old(store.data), store.transactions, td, tick, epoch)
    ensures ok <==> exists judged ::
        IsJudged(judged, old(store.data), td, tick, epoch)
        && Confirmed(hash, SlotsOf(store.votes, tick), judged, store.transactions, tick, epoch)
  {
    hide SlotsOf;
    ghost var s := SlotsOf(store.votes, tick);
    JudgedExists(store.data, td, tick, epoch);
    forall judged | IsJudged(judged, store.data, td, tick, epoch)
      ensures Call(hash, s, store.data, store.transactions, td, tick, epoch).ok
         <==> Confirmed(hash, s, judged, store.transactions, tick, epoch)
    {
      CallAnswers(hash, s, store.data, store.transactions, td, tick, epoch, judged);
    }
    hide Confirmed, IsJudged;
    td' := td;
    var count := RefreshVotes(store, tick, epoch, votes);
    if count < 225 {
      FewVotesDecideNothing(s, epoch);
      return false, td';
    }
    var counts := CountDigests(votes, tick, epoch, s);
    var consensus := FindConsensus(counts, epoch, s);
    if consensus.None? {
      return false, td';
    }
    if consensus.value == 0 {
      return true, td';
    }
    if !Current(td', tick, epoch) {
      var found := store.GetTickData(tick);
      if found.None? {
        return false, td';
      }
      td' := found.value;
    }
    if !Current(td', tick, epoch) {
      return false, td';
    }
    if hash(td') != consensus.value {
      store.DeleteTickData(tick);
      return false, td';
    }
    ok := AllTransactionsExist(store, td'.transactions);
  }

  /** The early exit below 225 votes never hides a quorum. */
  lemma {:induction false} FewVotesDecideNothing(s: Slots, epoch: nat)
    requires Turnout(s, epoch) < EMPTY_QUORUM
    ensures Decided(s, epoch).None?
  {
    forall d: Digest
      ensures !Reaches(s, epoch, d)
    {
      SupportsAddUp(s, epoch, d, d + 1);
    }
  }

  /** A decided tick stays decided, for the same digest, whatever votes still arrive. */
  lemma {:induction false} DecisionIsStable(s: Slots, arriving: seq<Vote>, epoch: nat)
    requires |s| == COMPUTORS && Decided(s, epoch).Some?
    requires forall i :: 0 <= i < |arriving| ==> arriving[i].Cast? && arriving[i].computor < COMPUTORS
    ensures Decided(InsertAll(s, arriving), epoch) == Decided(s, epoch)
  {
    var d := Decided(s, epoch).value;
    QuorumIsStable(s, arriving, epoch, d, d);
    var later := Decided(InsertAll(s, arriving), epoch);
    assert later.Some?;
    QuorumIsStable(s, arriving, epoch, d, later.value);
  }

  /** The verifier, after further votes and from memory or from disk, reads the tick as decided. */
  lemma {:induction false} LaterReadingAgrees(s: Slots, arriving: seq<Vote>, epoch: nat)
    requires |s| == COMPUTORS && epoch != 0 && Decided(s, epoch).Some?
    requires forall i :: 0 <= i < |arriving| ==> arriving[i].Cast? && arriving[i].computor < COMPUTORS
    ensures var verdict := if Decided(s, epoch).value == 0 then EmptyTick else TickWithData;
      var later := InsertAll(s, arriving);
      Classify(Present(later)) == verdict && Classify(OnDisk(later)) == verdict
  {
    DecisionIsStable(s, arriving, epoch);
    ClassificationAgrees(InsertAll(s, arriving), epoch, Decided(s, epoch).value);
  }

  // ----- Calls in sequence -----

  /** What happens between two calls: votes arrive; tick data and transactions may be any. */
  datatype Turn = Turn(arriving: seq<Vote>, data: map<nat, TickData>, known: set<Digest>)

  predicate Legal(turns: seq<Turn>) {
    forall k, i :: 0 <= k < |turns| && 0 <= i < |turns[k].arriving| ==>
      turns[k].arriving[i].Cast? && turns[k].arriving[i].computor < COMPUTORS
  }

  /** Every later call for the tick refuses it. */
  ghost predicate Refused(hash: TickData -> Digest, s: Slots, td: TickData, tick: nat, epoch: nat, turns: seq<Turn>)
    requires |s| == COMPUTORS && Legal(turns)
    decreases |turns|
  {
    turns == [] ||
    (var now := InsertAll(s, turns[0].arriving);
     var r := Call(hash, now, turns[0].data, turns[0].known, td, tick, epoch);
     !r.ok && Refused(hash, now, r.td, tick, epoch, turns[1..]))
  }

  /** Cached tick data with the wrong hash is never replaced, whatever is stored later. */
  lemma {:induction false} WrongCacheSticks(hash: TickData -> Digest, s: Slots, td: TickData, tick: nat, epoch: nat,
                                            d: Digest, turns: seq<Turn>)
    requires |s| == COMPUTORS && Legal(turns) && Decided(s, epoch) == Some(d) && d != 0
    requires Mismatched(hash, td, tick, epoch, d)
    ensures Refused(hash, s, td, tick, epoch, turns)
    decreases |turns|
  {
    hide Decided;
    if turns != [] {
      DecisionIsStable(s, turns[0].arriving, epoch);
      WrongCacheSticks(hash, InsertAll(s, turns[0].arriving), td, tick, epoch, d, turns[1..]);
    }
  }

  /** Once the right tick data is stored and all its transactions are known, only a wrong cache refuses. */
  lemma RightDataVerifies(hash: TickData -> Digest, s: Slots, data: map<nat, TickData>, known: set<Digest>,
                          td: TickData, tick: nat, epoch: nat, d: Digest)
    requires Decided(s, epoch) == Some(d) && d != 0
    requires tick in data && Current(data[tick], tick, epoch) && hash(data[tick]) == d
    requires AllKnown(data[tick].transactions, known)
    requires Current(td, tick, epoch) && hash(td) == d ==> AllKnown(td.transactions, known)
    ensures Call(hash, s, data, known, td, tick, epoch).ok <==> !Mismatched(hash, td, tick, epoch, d)
  {
  }

  /**
   For a tick with data: every later call refuses it, whatever still arrives, if and only if
   the call found tick data that is not the data voted for. That is the branch that deletes
   the stored copy and keeps the cached one.
   */
  lemma {:induction false} RefusedIffMismatched(hash: TickData -> Digest, s: Slots, data: map<nat, TickData>,
                                                known: set<Digest>, td: TickData, tick: nat, epoch: nat, d: Digest,
                                                right: TickData)
    requires |s| == COMPUTORS && Decided(s, epoch) == Some(d) && d != 0
    requires Current(right, tick, epoch) && hash(right) == d
    ensures var left := Call(hash, s, data, known, td, tick, epoch).td;
      (forall turns :: Legal(turns) ==> Refused(hash, s, left, tick, epoch, turns))
      <==> Mismatched(hash, Candidate(data, td, tick, epoch), tick, epoch, d)
  {
    var left := Candidate(data, td, tick, epoch);
    if Mismatched(hash, left, tick, epoch, d) {
      forall turns | Legal(turns)
        ensures Refused(hash, s, left, tick, epoch, turns)
      {
        WrongCacheSticks(hash, s, left, tick, epoch, d, turns);
      }
    } else {
      var all := (set x | x in right.transactions) + if left.Data? then set x | x in left.transactions else {};
      var turn := Turn([], map[tick := right], all);
      RightDataVerifies(hash, s, turn.data, all, left, tick, epoch, d);
      assert Legal([turn]) && !Refused(hash, s, left, tick, epoch, [turn]);
    }
  }

  // ----- The cache of the thread -----

  /** What the store holds when the thread asks for a tick. */
  datatype Visit = Visit(tick: nat, slots: Slots)

  /** The fetching tick never moves back, and while it stays votes are only added. */
  ghost predicate Follows(v: Visit, w: Visit) {
    v.tick < w.tick || (v.tick == w.tick && Extends(v.slots, w.slots))
  }

  ghost predicate Visits(visits: seq<Visit>) {
    && (forall k :: 0 <= k < |visits| ==>
          visits[k].tick > 0 && |visits[k].slots| == COMPUTORS && Proper(visits[k].slots, visits[k].tick))
    && (forall k :: 0 <= k < |visits| - 1 ==> Follows(visits[k], visits[k + 1]))
  }

  /** The cache fits every call of the thread, each call leaving it to the next one. */
  ghost predicate FitsAlong(cache: seq<Vote>, visits: seq<Visit>)
    requires |cache| == COMPUTORS && Visits(visits)
    decreases |visits|
  {
    visits == [] ||
    (CacheFits(cache, visits[0].slots, visits[0].tick)
     && FitsAlong(Refreshed(cache, visits[0].slots, visits[0].tick), visits[1..]))
  }

  /** The cache holds nothing of later ticks. */
  ghost predicate NotAhead(cache: seq<Vote>, tick: nat) {
    forall i :: 0 <= i < |cache| ==> TickOf(cache[i]) <= tick
  }

  lemma RefreshedFitsNext(cache: seq<Vote>, v: Visit, w: Visit)
    requires CacheFits(cache, v.slots, v.tick) && NotAhead(cache, v.tick) && Follows(v, w)
    requires |w.slots| == COMPUTORS && Proper(w.slots, w.tick)
    ensures var next := Refreshed(cache, v.slots, v.tick);
      CacheIs(next, v.slots, v.tick) && CacheFits(next, w.slots, w.tick) && NotAhead(next, w.tick)
  {
  }

  lemma {:induction false} CacheFitsAlong(cache: seq<Vote>, visits: seq<Visit>)
    requires |cache| == COMPUTORS && Visits(visits)
    requires visits != [] ==>
      CacheFits(cache, visits[0].slots, visits[0].tick) && NotAhead(cache, visits[0].tick)
    ensures FitsAlong(cache, visits)
    decreases |visits|
  {
    hide Refreshed, CacheFits, NotAhead, Follows, Proper;
    if visits != [] {
      var v, rest := visits[0], visits[1..];
      assert forall k :: 0 <= k < |rest| ==> rest[k] == visits[k + 1];
      assert Visits(rest);
      if rest != [] {
        RefreshedFitsNext(cache, v, rest[0]);
      }
      CacheFitsAlong(Refreshed(cache, v.slots, v.tick), rest);
    }
  }

  /** From the zeroed cache on, what the verifying calls require of it holds at every call, over all ticks. */
  lemma {:induction false} ThreadCacheFits(visits: seq<Visit>)
    requires Visits(visits)
    ensures FitsAlong(seq(COMPUTORS, _ => Blank), visits)
  {
    CacheFitsAlong(seq(COMPUTORS, _ => Blank), visits);
  }

  /** The verifier's loop over the votes of a tick. */
  method ClassifyVotes(votes: seq<Vote>) returns (verdict: Verdict)
    ensures verdict == Classify(votes)
    ensures verdict == if |EmptyAt(votes)| >= 226 then EmptyTick
                       else if |NonEmptyAt(votes)| >= 451 then TickWithData
                       else VotesMissing
  {
    var emptyTick, nonEmptyTick := 0, 0;
    for i := 0 to |votes|
      invariant emptyTick == Empties(votes[..i]) && emptyTick + nonEmptyTick == i
    {
      assert votes[..i + 1][..i] == votes[..i];
      if DigestOf(votes[i]) == 0 {
        emptyTick := emptyTick + 1;
      } else {
        nonEmptyTick := nonEmptyTick + 1;
      }
    }
    assert votes[..|votes|] == votes;
    EmptiesCount(votes);
    verdict := if emptyTick >= 226 then EmptyTick
               else if nonEmptyTick >= 451 then TickWithData
               else VotesMissing;
  }
}
