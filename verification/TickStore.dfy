/**
 The hot store: votes by tick and computor, tick data, known transactions. Votes are only
 ever inserted once; store errors are not part of this model.
 */
module TickStore {
  import opened Options
  import opened TickVotes

  datatype TickData = NoData | Data(tick: nat, epoch: nat, transactions: seq<Digest>, rest: nat)

  /** The slots of one tick in a map of votes. */
  function SlotsOf(votes: map<(nat, nat), Vote>, tick: nat): (s: Slots)
    ensures |s| == COMPUTORS
  {
    SlotsUpTo(votes, tick, COMPUTORS)
  }

  function SlotsUpTo(votes: map<(nat, nat), Vote>, tick: nat, n: nat): (s: Slots)
    ensures |s| == n
  {
    seq(n, i requires 0 <= i < n => if (tick, i) in votes then Some(votes[(tick, i)]) else None)
  }

  /** Votes are kept under their own tick and computor. */
  ghost predicate WellKeyed(votes: map<(nat, nat), Vote>) {
    forall k :: k in votes ==> votes[k].Cast? && votes[k].tick == k.0 && votes[k].computor == k.1
  }

  class HotStore {
    var votes: map<(nat, nat), Vote>
    var data: map<nat, TickData>
    var transactions: set<Digest>

    constructor ()
      ensures votes == map[] && data == map[] && transactions == {}
    {
      votes, data, transactions := map[], map[], {};
    }

    /** db_insert_tick_vote: stored unless the computor already has a vote for the tick. */
    method InsertTickVote(v: Vote)
      requires v.Cast? && WellKeyed(votes)
      modifies this`votes
      ensures WellKeyed(votes)
      ensures SlotsOf(votes, v.tick)
           == if v.computor < COMPUTORS then Insert(SlotsOf(old(votes), v.tick), v) else SlotsOf(old(votes), v.tick)
      ensures forall t: nat :: t != v.tick ==> SlotsOf(votes, t) == SlotsOf(old(votes), t)
    {
      if (v.tick, v.computor) !in votes {
        votes := votes[(v.tick, v.computor) := v];
      }
    }

    /** db_get_tick_vote */
    method GetTickVote(tick: nat, computor: nat) returns (r: Option<Vote>)
      requires computor < COMPUTORS
      ensures r == SlotsOf(votes, tick)[computor]
    {
      r := if (tick, computor) in votes then Some(votes[(tick, computor)]) else None;
    }

    /** db_get_tick_votes: in batches of 128 keys. */
    method GetTickVotes(tick: nat) returns (r: seq<Vote>)
      ensures r == Present(SlotsOf(votes, tick))
    {
      r := [];
      var start := 0;
      while start < COMPUTORS
        invariant 0 <= start && start % 128 == 0
        invariant r == Present(SlotsOf(votes, tick)[..if start < COMPUTORS then start else COMPUTORS])
      {
        var end := if start + 128 < COMPUTORS then start + 128 else COMPUTORS;
        for i := start to end
          invariant r == Present(SlotsOf(votes, tick)[..i])
        {
          var s := SlotsOf(votes, tick);
          assert s[..i + 1][..i] == s[..i];
          if (tick, i) in votes {
            r := r + [votes[(tick, i)]];
          }
        }
        start := start + 128;
      }
      assert SlotsOf(votes, tick)[..COMPUTORS] == SlotsOf(votes, tick);
    }

    /** db_get_tick_data */
    method GetTickData(tick: nat) returns (r: Option<TickData>)
      ensures r == if tick in data then Some(data[tick]) else None
    {
      r := if tick in data then Some(data[tick]) else None;
    }

    /** db_delete_tick_data */
    method DeleteTickData(tick: nat)
      modifies this`data
      ensures data == old(data) - {tick}
    {
      data := data - {tick};
    }

    /** db_delete_tick_vote: all computors in one command. */
    method DeleteTickVotes(tick: nat)
      requires WellKeyed(votes)
      modifies this`votes
      ensures WellKeyed(votes)
      ensures forall k :: k in votes <==> k in old(votes) && !(k.0 == tick && k.1 < COMPUTORS)
      ensures forall k :: k in votes ==> votes[k] == old(votes)[k]
    {
      votes := map k | k in votes && !(k.0 == tick && k.1 < COMPUTORS) :: votes[k];
    }
  }
}
