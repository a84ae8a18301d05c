/**
 Linear probing over a fixed-capacity table, shared by the asset table and the
 spectrum. A probe starts at a slot, steps to the next slot (wrapping at the
 capacity) and stops at the first slot whose record satisfies `stops`.

 Positions are compared with `InArc`, the half-open cyclic interval from one slot
 to another, so that no reasoning below needs modular arithmetic.
 */
module Probing {

  /** The slot a public key hashes to: its low 32 bits, reduced to the capacity. */
  function Home(key: nat, capacity: nat): (slot: nat)
    requires capacity > 0
    ensures slot < capacity
  {
    (key % 0x1_0000_0000) % capacity
  }

  /** The next slot, wrapping past the end. */
  function Next(p: nat, capacity: nat): (slot: nat)
    requires p < capacity
    ensures slot < capacity
  {
    if p + 1 == capacity then 0 else p + 1
  }

  /** x lies on the cyclic walk that starts at h and ends just before p. */
  predicate InArc(h: nat, x: nat, p: nat) {
    if h <= p then h <= x < p else h <= x || x < p
  }

  lemma ArcCovers(h: nat, x: nat, p: nat)
    ensures x == p || InArc(h, x, p) || InArc(h, p, x)
  {
  }

  /** Number of steps from p forward to e. */
  ghost function Gap(p: nat, e: nat, capacity: nat): (g: nat)
    requires p < capacity && e < capacity
  {
    if p <= e then e - p else e + capacity - p
  }

  /** Where a probe from p ends, looking at no more than `fuel` further slots. */
  ghost function ProbeFrom<T>(t: seq<T>, p: nat, stops: T -> bool, fuel: nat): (slot: nat)
    requires p < |t|
    ensures slot < |t|
    decreases fuel
  {
    if fuel == 0 || stops(t[p]) then p else ProbeFrom(t, Next(p, |t|), stops, fuel - 1)
  }

  /** Where a probe that starts at `start` ends. */
  ghost function Probe<T>(t: seq<T>, start: nat, stops: T -> bool): (slot: nat)
    requires start < |t|
    ensures slot < |t|
  {
    ProbeFrom(t, start, stops, |t|)
  }

  /** p is the first slot on the walk from start that satisfies stops. */
  ghost predicate IsFirst<T>(t: seq<T>, start: nat, stops: T -> bool, p: nat) {
    && p < |t|
    && stops(t[p])
    && forall x :: 0 <= x < |t| && InArc(start, x, p) ==> !stops(t[x])
  }

  /** Some slot of the table satisfies stops. */
  ghost predicate HasStop<T>(t: seq<T>, stops: T -> bool) {
    exists e :: 0 <= e < |t| && stops(t[e])
  }

  lemma {:induction false} ProbeFromIsFirst<T>(t: seq<T>, start: nat, p: nat, e: nat, stops: T -> bool, fuel: nat)
    requires start < |t| && p < |t| && e < |t| && stops(t[e])
    requires forall x :: 0 <= x < |t| && InArc(start, x, p) ==> !stops(t[x])
    requires Gap(p, e, |t|) <= fuel
    ensures IsFirst(t, start, stops, ProbeFrom(t, p, stops, fuel))
    decreases fuel
  {
    if !stops(t[p]) {
      var n := Next(p, |t|);
      assert !InArc(start, e, p) && n != start;
      forall x | 0 <= x < |t| && InArc(start, x, n)
        ensures !stops(t[x])
      {
        assert InArc(start, x, p) || x == p;
      }
      ProbeFromIsFirst(t, start, n, e, stops, fuel - 1);
    }
  }

  /** A probe ends at the first stopping slot whenever the table has one at all. */
  lemma ProbeIsFirst<T>(t: seq<T>, start: nat, stops: T -> bool)
    requires start < |t| && HasStop(t, stops)
    ensures IsFirst(t, start, stops, Probe(t, start, stops))
  {
    var e :| 0 <= e < |t| && stops(t[e]);
    ProbeFromIsFirst(t, start, start, e, stops, |t|);
  }

  /** The first stopping slot is unique, so any walk that finds one agrees with Probe. */
  lemma FirstIsProbe<T>(t: seq<T>, start: nat, stops: T -> bool, p: nat)
    requires start < |t| && IsFirst(t, start, stops, p)
    ensures p == Probe(t, start, stops)
  {
    ProbeIsFirst(t, start, stops);
    var r := Probe(t, start, stops);
    assert InArc(start, r, p) || InArc(start, p, r) || p == r;
  }

  /** The `goto` probe loop of Asset.h and Entity.h. */
  method Scan<T>(a: array<T>, start: nat, stops: T -> bool) returns (p: nat)
    requires start < a.Length && HasStop(a[..], stops)
    ensures p < a.Length
    ensures p == Probe(a[..], start, stops)
    ensures IsFirst(a[..], start, stops, p)
  {
    ghost var e :| 0 <= e < a.Length && stops(a[..][e]);
    p := start;
    while !stops(a[p])
      invariant p < a.Length
      invariant forall x :: 0 <= x < a.Length && InArc(start, x, p) ==> !stops(a[x])
      decreases Gap(p, e, a.Length)
    {
      var n := Next(p, a.Length);
      assert stops(a[e]) && !InArc(start, e, p) && n != start;
      assert forall x :: 0 <= x < a.Length && InArc(start, x, n) ==> InArc(start, x, p) || x == p;
      p := n;
    }
    FirstIsProbe(a[..], start, stops, p);
  }

  /** Counting with sets: an injection into a proper subset of the slots leaves a slot over. */
  lemma {:induction false} Pigeonhole(m: map<nat, nat>, target: set<nat>)
    requires forall x :: x in m ==> m[x] in target
    requires forall x, y :: x in m && y in m && m[x] == m[y] ==> x == y
    ensures |m.Keys| <= |target|
    decreases |m|
  {
    if m.Keys != {} {
      var x :| x in m.Keys;
      var rest := m - {x};
      assert m.Keys == rest.Keys + {x};
      assert forall y :: y in rest ==> m[y] in target - {m[x]};
      Pigeonhole(rest, target - {m[x]});
    }
  }

  /** The slots of a table with n slots. */
  ghost function Below(n: nat): (s: set<nat>)
    ensures forall x: nat :: x in s <==> x < n
    ensures |s| == n
  {
    if n == 0 then {} else Below(n - 1) + {n - 1}
  }
}
