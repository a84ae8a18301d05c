/**
 Tick votes: at most one per computor, in 676 slots, and the counts that quorum rules use.
 A digest is a number in the order that comparing its bytes gives, zero for an empty tick.
 */
module TickVotes {
  import opened Options

  const COMPUTORS := 676
  const EMPTY_QUORUM := 226
  const QUORUM := 451

  type Digest = nat
  /** A vote, or a structure of zero bytes. */
  datatype Vote = Blank | Cast(computor: nat, tick: nat, epoch: nat, digest: Digest, rest: nat)

  function TickOf(v: Vote): nat {
    if v.Cast? then v.tick else 0
  }

  function EpochOf(v: Vote): nat {
    if v.Cast? then v.epoch else 0
  }

  function DigestOf(v: Vote): Digest {
    if v.Cast? then v.digest else 0
  }

  /** The votes stored for one tick, by computor. */
  type Slots = seq<Option<Vote>>

  /** Every stored vote is in the slot of its computor and for this tick. */
  predicate Proper(s: Slots, tick: nat) {
    forall i :: 0 <= i < |s| && s[i].Some? ==>
      s[i].value.Cast? && s[i].value.computor == i && s[i].value.tick == tick
  }

  predicate Counts(o: Option<Vote>, epoch: nat, d: Digest) {
    o.Some? && EpochOf(o.value) == epoch && DigestOf(o.value) == d
  }

  /** The number of votes of this epoch for d. */
  function Support(s: Slots, epoch: nat, d: Digest): nat {
    if s == [] then 0
    else Support(s[..|s| - 1], epoch, d) + if Counts(s[|s| - 1], epoch, d) then 1 else 0
  }

  /** The number of votes of this epoch. */
  function Turnout(s: Slots, epoch: nat): nat {
    if s == [] then 0
    else
      var last := s[|s| - 1];
      Turnout(s[..|s| - 1], epoch) + if last.Some? && EpochOf(last.value) == epoch then 1 else 0
  }

  function Needed(d: Digest): nat {
    if d == 0 then EMPTY_QUORUM else QUORUM
  }

  predicate Reaches(s: Slots, epoch: nat, d: Digest) {
    Support(s, epoch, d) >= Needed(d)
  }

  /** The votes that are there, in the order of the computors. */
  function Present(s: Slots): (vs: seq<Vote>)
    ensures |vs| <= |s|
  {
    if s == [] then []
    else Present(s[..|s| - 1]) + if s[|s| - 1].Some? then [s[|s| - 1].value] else []
  }

  /** The number of votes in a list for the empty tick. */
  function Empties(vs: seq<Vote>): (n: nat)
    ensures n <= |vs|
  {
    if vs == [] then 0
    else Empties(vs[..|vs| - 1]) + if DigestOf(vs[|vs| - 1]) == 0 then 1 else 0
  }

  // ----- Counting -----

  /** The computors that voted for d in this epoch. */
  function Voters(s: Slots, epoch: nat, d: Digest): (c: set<nat>) {
    set i: nat | i < |s| && s[i].Some? && s[i].value.Cast? && s[i].value.epoch == epoch && s[i].value.digest == d
  }

  lemma {:induction false} SupportIsVoters(s: Slots, tick: nat, epoch: nat, d: Digest)
    requires Proper(s, tick)
    ensures Support(s, epoch, d) == |Voters(s, epoch, d)|
  {
    if s != [] {
      var n := |s| - 1;
      var init := s[..n];
      SupportIsVoters(init, tick, epoch, d);
      assert Voters(s, epoch, d) == Voters(init, epoch, d) + if Counts(s[n], epoch, d) then {n} else {};
      assert n !in Voters(init, epoch, d);
    }
  }

  /** Votes for different digests are different votes. */
  lemma {:induction false} SupportsAddUp(s: Slots, epoch: nat, d: Digest, d': Digest)
    requires d != d'
    ensures Support(s, epoch, d) + Support(s, epoch, d') <= Turnout(s, epoch) <= |s|
  {
    if s != [] {
      SupportsAddUp(s[..|s| - 1], epoch, d, d');
    }
  }

  /** At most one digest reaches what it needs. */
  lemma AtMostOneReaches(s: Slots, epoch: nat, d: Digest, d': Digest)
    requires |s| == COMPUTORS && Reaches(s, epoch, d) && Reaches(s, epoch, d')
    ensures d == d'
  {
    if d != d' {
      SupportsAddUp(s, epoch, d, d');
    }
  }

  lemma SupportAppend(s: Slots, o: Option<Vote>, epoch: nat)
    ensures forall d: Digest ::
      Support(s + [o], epoch, d) == Support(s, epoch, d) + if Counts(o, epoch, d) then 1 else 0
  {
  }

  /** One more vote, from the next computor. */
  lemma {:induction false} SplitGrows(s: Slots, n: nat, m: nat, epoch: nat, tick: nat, d: Digest)
    requires |s| == n + m && Support(s, epoch, 0) == n && Support(s, epoch, 1) == m && Proper(s, tick)
    requires d == 0 || d == 1
    ensures var u := s + [Some(Cast(|s|, tick, epoch, d, 0))];
      && Support(u, epoch, 0) == n + 1 - d && Support(u, epoch, 1) == m + d && Proper(u, tick)
  {
    SupportAppend(s, Some(Cast(|s|, tick, epoch, d, 0)), epoch);
    hide Support;
  }

  lemma {:induction false} SplitSupport(n: nat, m: nat, epoch: nat, tick: nat)
    ensures var s := Split(n, m, epoch, tick);
      && |s| == n + m && Support(s, epoch, 0) == n && Support(s, epoch, 1) == m && Proper(s, tick)
    decreases n + m
  {
    hide Support, Proper;
    if m > 0 {
      SplitSupport(n, m - 1, epoch, tick);
      SplitGrows(Split(n, m - 1, epoch, tick), n, m - 1, epoch, tick, 1);
    } else if n > 0 {
      SplitSupport(n - 1, 0, epoch, tick);
      SplitGrows(Split(n - 1, 0, epoch, tick), n - 1, 0, epoch, tick, 0);
    } else {
      NoVotes(epoch, tick);
    }
  }

  lemma {:induction false} NoVotes(epoch: nat, tick: nat)
    ensures Support([], epoch, 0) == 0 && Support([], epoch, 1) == 0 && Proper([], tick)
  {
  }

  /** One vote less for a tick with data, and two digests could be let through together. */
  lemma ThresholdsAreTight(epoch: nat, tick: nat)
    ensures var s := Split(EMPTY_QUORUM, QUORUM - 1, epoch, tick);
      && |s| == COMPUTORS && Proper(s, tick)
      && Reaches(s, epoch, 0) && Support(s, epoch, 1) == QUORUM - 1
  {
    hide Split;
    SplitSupport(EMPTY_QUORUM, QUORUM - 1, epoch, tick);
  }

  /** n votes for the empty tick, then m votes for digest 1. */
  function Split(n: nat, m: nat, epoch: nat, tick: nat): Slots
    decreases n + m
  {
    if m > 0 then Split(n, m - 1, epoch, tick) + [Some(Cast(n + m - 1, tick, epoch, 1, 0))]
    else if n > 0 then Split(n - 1, 0, epoch, tick) + [Some(Cast(n - 1, tick, epoch, 0, 0))]
    else []
  }

  // ----- Votes arriving -----

  /** Insert once: a vote is stored only in a free slot. */
  function Insert(s: Slots, v: Vote): Slots
    requires v.Cast? && v.computor < |s|
  {
    if s[v.computor].None? then s[v.computor := Some(v)] else s
  }

  ghost predicate Extends(s: Slots, s': Slots) {
    |s| == |s'| && forall i :: 0 <= i < |s| && s[i].Some? ==> s'[i] == s[i]
  }

  lemma {:induction false} SupportGrows(s: Slots, s': Slots, epoch: nat, d: Digest)
    requires Extends(s, s')
    ensures Support(s, epoch, d) <= Support(s', epoch, d)
  {
    if s != [] {
      SupportGrows(s[..|s| - 1], s'[..|s| - 1], epoch, d);
    }
  }

  /** Whatever votes still arrive, the digest that has reached its quorum stays the only one. */
  lemma {:induction false} QuorumIsStable(s: Slots, arriving: seq<Vote>, epoch: nat, d: Digest, d': Digest)
    requires |s| == COMPUTORS && Reaches(s, epoch, d)
    requires forall i :: 0 <= i < |arriving| ==> arriving[i].Cast? && arriving[i].computor < COMPUTORS
    ensures Reaches(InsertAll(s, arriving), epoch, d') <==> d' == d
    decreases |arriving|
  {
    if arriving == [] {
      if Reaches(s, epoch, d') {
        AtMostOneReaches(s, epoch, d, d');
      }
    } else {
      var next := Insert(s, arriving[0]);
      SupportGrows(s, next, epoch, d);
      QuorumIsStable(next, arriving[1..], epoch, d, d');
    }
  }

  function InsertAll(s: Slots, arriving: seq<Vote>): (r: Slots)
    requires forall i :: 0 <= i < |arriving| ==> arriving[i].Cast? && arriving[i].computor < |s|
    ensures |r| == |s|
    decreases |arriving|
  {
    if arriving == [] then s else InsertAll(Insert(s, arriving[0]), arriving[1..])
  }

  // ----- The later classification -----

  datatype Verdict = EmptyTick | TickWithData | VotesMissing

  /** How the verifier reads a list of votes, blanks and other epochs included. */
  function Classify(vs: seq<Vote>): Verdict {
    if Empties(vs) >= EMPTY_QUORUM then EmptyTick
    else if |vs| - Empties(vs) >= QUORUM then TickWithData
    else VotesMissing
  }

  /** The places of the votes for the empty tick, and of the others; a blank counts as a vote for it. */
  function EmptyAt(vs: seq<Vote>): (p: set<nat>) {
    set i: nat | i < |vs| && (vs[i].Blank? || vs[i].digest == 0)
  }

  function NonEmptyAt(vs: seq<Vote>): (p: set<nat>) {
    set i: nat | i < |vs| && vs[i].Cast? && vs[i].digest != 0
  }

  lemma LastPlace(vs: seq<Vote>)
    requires vs != []
    ensures var n := |vs| - 1;
      && n !in EmptyAt(vs[..n]) && n !in NonEmptyAt(vs[..n])
      && EmptyAt(vs) == EmptyAt(vs[..n]) + (if DigestOf(vs[n]) == 0 then {n} else {})
      && NonEmptyAt(vs) == NonEmptyAt(vs[..n]) + (if DigestOf(vs[n]) == 0 then {} else {n})
  {
    var n := |vs| - 1;
    assert vs[..n] + [vs[n]] == vs;
  }

  lemma {:induction false} EmptiesCount(vs: seq<Vote>)
    ensures |EmptyAt(vs)| == Empties(vs) && |NonEmptyAt(vs)| == |vs| - Empties(vs)
  {
    hide EmptyAt, NonEmptyAt, DigestOf;
    if vs != [] {
      EmptiesCount(vs[..|vs| - 1]);
      LastPlace(vs);
    } else {
      NoPlaces();
    }
  }

  lemma NoPlaces()
    ensures EmptyAt([]) == {} && NonEmptyAt([]) == {}
  {
  }

  /** For every list: 226 votes for the empty tick come first, then 451 others; else votes are missing. */
  lemma ClassifyMeans(vs: seq<Vote>)
    ensures Classify(vs) == EmptyTick <==> |EmptyAt(vs)| >= 226
    ensures Classify(vs) == TickWithData <==> |EmptyAt(vs)| < 226 && |NonEmptyAt(vs)| >= 451
    ensures Classify(vs) == VotesMissing <==> |EmptyAt(vs)| < 226 && |NonEmptyAt(vs)| < 451
  {
    EmptiesCount(vs);
  }

  /** The 676 records kept on disk: votes of no epoch are dropped, missing ones are blank. */
  function OnDisk(s: Slots): (vs: seq<Vote>)
    ensures |vs| == |s|
  {
    if s == [] then []
    else
      var last := s[|s| - 1];
      OnDisk(s[..|s| - 1]) + [if last.Some? && EpochOf(last.value) != 0 then last.value else Blank]
  }

  lemma {:induction false} ListCountsSupport(s: Slots, epoch: nat, d: Digest)
    requires epoch != 0
    ensures d == 0 ==> Empties(Present(s)) >= Support(s, epoch, d) && Empties(OnDisk(s)) >= Support(s, epoch, d)
    ensures d != 0 ==> |Present(s)| - Empties(Present(s)) >= Support(s, epoch, d)
    ensures d != 0 ==> |OnDisk(s)| - Empties(OnDisk(s)) >= Support(s, epoch, d)
  {
    if s != [] {
      var init, last := s[..|s| - 1], s[|s| - 1];
      ListCountsSupport(init, epoch, d);
      EmptiesAppend(OnDisk(init), if last.Some? && EpochOf(last.value) != 0 then last.value else Blank);
      if last.Some? {
        EmptiesAppend(Present(init), last.value);
      } else {
        assert Present(init) + [] == Present(init);
      }
    }
  }

  lemma {:induction false} EmptiesAppend(vs: seq<Vote>, v: Vote)
    ensures Empties(vs + [v]) == Empties(vs) + if DigestOf(v) == 0 then 1 else 0
  {
  }

  /** Once a digest has reached its quorum, both lists are read as that kind of tick. */
  lemma {:induction false} ClassificationAgrees(s: Slots, epoch: nat, d: Digest)
    requires |s| == COMPUTORS && epoch != 0 && Reaches(s, epoch, d)
    ensures Classify(Present(s)) == Classify(OnDisk(s)) == if d == 0 then EmptyTick else TickWithData
  {
    ListCountsSupport(s, epoch, d);
  }
}
