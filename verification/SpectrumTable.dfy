/**
 The spectrum: an open-addressed table of entities with QU balances (Entity.h). The table
 is shown to refine a map from public key to record.
 */
module SpectrumTable {
  import opened Probing

  /** A 32-bit transfer counter. */
  type Count = x: nat | x < 0x1_0000_0000

  /** A slot. An unused slot is all zero bytes; its zero public key marks it. */
  datatype Slot =
    | Vacant
    | Entity(key: nat, incoming: int, outgoing: int, numIncoming: Count, numOutgoing: Count, latestIncoming: nat,
             latestOutgoing: nat)

  function Energy(r: Slot): int {
    if r.Vacant? then 0 else r.incoming - r.outgoing
  }

  /** The probe loops stop at the wanted key or at an unused slot. */
  function StopAtKey(key: nat): Slot -> bool {
    (r: Slot) => r.Vacant? || r.key == key
  }

  // ----- Well-formedness and the abstract map -----

  ghost predicate Reaches(t: seq<Slot>, key: nat, p: nat)
    requires |t| > 0
  {
    forall x :: 0 <= x < |t| && InArc(Home(key, |t|), x, p) ==> t[x].Entity?
  }

  ghost predicate WellFormed(t: seq<Slot>) {
    && |t| > 0
    && (forall p :: 0 <= p < |t| && t[p].Entity? ==> t[p].key != 0 && Reaches(t, t[p].key, p))
    && (forall p, q :: 0 <= p < |t| && 0 <= q < |t| && t[p].Entity? && t[q].Entity? && t[p].key == t[q].key ==> p == q)
  }

  ghost predicate Present(t: seq<Slot>, key: nat) {
    exists p :: 0 <= p < |t| && t[p].Entity? && t[p].key == key
  }

  /** The keys in use. */
  ghost function Keys(t: seq<Slot>): set<nat> {
    set p: nat | p < |t| && t[p].Entity? :: t[p].key
  }

  ghost function RecordOf(t: seq<Slot>, key: nat): (r: Slot)
    requires Present(t, key)
    ensures r in t && r.Entity? && r.key == key
  {
    var p :| 0 <= p < |t| && t[p].Entity? && t[p].key == key;
    t[p]
  }

  /** The map that the table represents. */
  ghost function View(t: seq<Slot>): (m: map<nat, Slot>) {
    map key | key in Keys(t) :: RecordOf(t, key)
  }

  lemma ViewAt(t: seq<Slot>, p: nat)
    requires WellFormed(t) && p < |t| && t[p].Entity?
    ensures t[p].key in View(t) && View(t)[t[p].key] == t[p]
  {
  }

  lemma ViewHas(t: seq<Slot>, key: nat)
    requires WellFormed(t) && key in View(t)
    ensures exists p :: 0 <= p < |t| && t[p].Entity? && t[p].key == key && t[p] == View(t)[key]
  {
  }

  // ----- Unused slots and lookups -----

  ghost function FreeSlots(t: seq<Slot>): set<nat> {
    set x: nat | x < |t| && t[x].Vacant?
  }

  ghost function Free(t: seq<Slot>): nat {
    |FreeSlots(t)|
  }

  /** The probe for this key ends: an unused slot, or the record itself, stops it. */
  ghost predicate CanProbe(t: seq<Slot>, key: nat) {
    HasStop(t, StopAtKey(key))
  }

  lemma CanProbeWhen(t: seq<Slot>, key: nat)
    ensures CanProbe(t, key) <==> Free(t) > 0 || key in View(t)
  {
    if e :| 0 <= e < |t| && StopAtKey(key)(t[e]) {
      if t[e].Vacant? { assert e in FreeSlots(t); }
    }
    if Free(t) > 0 {
      var e :| e in FreeSlots(t);
      assert StopAtKey(key)(t[e]);
    }
    if p :| 0 <= p < |t| && t[p].Entity? && t[p].key == key { assert StopAtKey(key)(t[p]); }
  }

  ghost function Locate(t: seq<Slot>, key: nat): (p: nat)
    requires |t| > 0
    ensures p < |t|
  {
    Probe(t, Home(key, |t|), StopAtKey(key))
  }

  /** A probe for a key finds its record exactly if the key is in the map. */
  lemma LocateDecides(t: seq<Slot>, key: nat)
    requires WellFormed(t) && CanProbe(t, key)
    ensures var p := Locate(t, key);
      && (t[p].Entity? <==> key in View(t))
      && (t[p].Entity? ==> t[p].key == key && View(t)[key] == t[p])
      && Reaches(t, key, p)
  {
    ProbeIsFirst(t, Home(key, |t|), StopAtKey(key));
    var p := Locate(t, key);
    if t[p].Entity? {
      ViewAt(t, p);
    } else if key in View(t) {
      ViewHas(t, key);
    }
    assert forall x :: 0 <= x < |t| && !StopAtKey(key)(t[x]) ==> t[x].Entity?;
  }

  // ----- Changing one slot -----

  /** Replacing a record by one with the same key updates the map at that key. */
  lemma ReplaceUpdatesView(t: seq<Slot>, p: nat, r: Slot)
    requires WellFormed(t) && p < |t| && t[p].Entity? && r.Entity? && r.key == t[p].key
    ensures WellFormed(t[p := r]) && Free(t[p := r]) == Free(t)
    ensures View(t[p := r]) == View(t)[r.key := r]
  {
    var u := t[p := r];
    forall q | 0 <= q < |u| && u[q].Entity?
      ensures Reaches(u, u[q].key, q)
    {
      assert Reaches(t, t[q].key, q);
    }
    assert FreeSlots(u) == FreeSlots(t);
    SameViewElsewhere(t, u, p, r);
  }

  /** Filling an unused slot at the end of the key's probe adds the key to the map. */
  lemma PutUpdatesView(t: seq<Slot>, p: nat, r: Slot)
    requires WellFormed(t) && p < |t| && t[p].Vacant? && r.Entity? && r.key != 0 && r.key !in View(t)
    requires Reaches(t, r.key, p)
    ensures WellFormed(t[p := r]) && Free(t[p := r]) == Free(t) - 1
    ensures View(t[p := r]) == View(t)[r.key := r]
  {
    var u := t[p := r];
    assert forall q :: 0 <= q < |t| && t[q].Entity? ==> t[q].key in Keys(t);
    forall q | 0 <= q < |u| && u[q].Entity?
      ensures Reaches(u, u[q].key, q)
    {
      if q != p { assert Reaches(t, t[q].key, q); }
    }
    assert p in FreeSlots(t) && FreeSlots(u) == FreeSlots(t) - {p};
    SameViewElsewhere(t, u, p, r);
  }

  lemma SameViewElsewhere(t: seq<Slot>, u: seq<Slot>, p: nat, r: Slot)
    requires WellFormed(t) && WellFormed(u) && p < |t| && u == t[p := r] && r.Entity?
    requires t[p].Vacant? || t[p].key == r.key
    ensures View(u) == View(t)[r.key := r]
  {
    hide View, WellFormed;
    ViewAt(u, p);
    forall key | key in View(u)
      ensures key == r.key || (key in View(t) && View(t)[key] == View(u)[key])
    {
      ViewHas(u, key);
      var q :| 0 <= q < |u| && u[q].Entity? && u[q].key == key && u[q] == View(u)[key];
      if q != p { ViewAt(t, q); }
    }
    forall key | key in View(t) && key != r.key
      ensures key in View(u)
    {
      ViewHas(t, key);
      var q :| 0 <= q < |t| && t[q].Entity? && t[q].key == key && t[q] == View(t)[key];
      ViewAt(u, q);
    }
  }
}
