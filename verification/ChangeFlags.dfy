/**
 The change-flag bitsets: arrays of 64-bit words, one bit per table slot. The word-level
 operations of the digest loops are tied here to a plain sequence of booleans.
 */
module ChangeFlags {

  // ----- Bits of one word -----

  predicate WordBit(w: bv64, k: bv6) {
    (w >> k) & 1 == 1
  }

  lemma WordTest(w: bv64, k: bv6)
    ensures w & (1 << k) != 0 <==> WordBit(w, k)
  {
  }

  lemma WordRaise(w: bv64, k: bv6, j: bv6, same: bool)
    requires same <==> j == k
    ensures WordBit(w | (1 << k), j) <==> WordBit(w, j) || same
  {
  }

  lemma WordLowerPair(w: bv64, k: bv6, j: bv6, inPair: bool)
    requires k < 63 && (inPair <==> j == k || j == k + 1)
    ensures WordBit(w & !(3 << k), j) <==> WordBit(w, j) && !inPair
  {
  }

  lemma WordTestPair(w: bv64, k: bv6)
    requires k < 63
    ensures w & (3 << k) != 0 <==> WordBit(w, k) || WordBit(w, k + 1)
  {
  }

  lemma WordConstants(j: bv6)
    ensures !WordBit(0, j) && WordBit(0xffff_ffff_ffff_ffff, j)
  {
  }

  // ----- Bits addressed by a number below 64 -----

  /** A number below 64 as a shift amount, by counting; see ToShiftIsExact. */
  function ToShift(x: nat): bv6 {
    if x == 0 then 0 else ToShift(x - 1) + 1
  }

  lemma CountUp(k: bv6)
    requires k as nat < 63
    ensures (k + 1) as nat == k as nat + 1
  {
  }

  lemma {:induction false} ToShiftIsExact(x: nat)
    requires x < 64
    ensures ToShift(x) as nat == x
  {
    if x > 0 {
      ToShiftIsExact(x - 1);
      CountUp(ToShift(x - 1));
    }
  }

  lemma {:induction false} ToShiftSeparates(x: nat, y: nat)
    requires x < 64 && y < 64
    ensures ToShift(x) == ToShift(y) <==> x == y
  {
    ToShiftIsExact(x);
    ToShiftIsExact(y);
  }

  lemma ToShiftOfPair(x: nat)
    requires x < 63
    ensures ToShift(x) < 63 && ToShift(x + 1) == ToShift(x) + 1
  {
    ToShiftIsExact(x);
  }

  predicate Bit64(w: bv64, x: nat) {
    WordBit(w, ToShift(x))
  }

  function RaiseIn(w: bv64, x: nat): bv64 {
    w | (1 << ToShift(x))
  }

  function LowerPairIn(w: bv64, x: nat): bv64 {
    w & !(3 << ToShift(x))
  }

  lemma RaiseInBit(w: bv64, x: nat, y: nat)
    requires x < 64 && y < 64
    ensures Bit64(RaiseIn(w, x), y) <==> Bit64(w, y) || y == x
  {
    var k, j := ToShift(x), ToShift(y);
    assert y == x <==> j == k by { ToShiftSeparates(x, y); }
    WordRaise(w, k, j, y == x);
  }

  lemma LowerPairInBit(w: bv64, x: nat, y: nat)
    requires x < 63 && y < 64
    ensures Bit64(LowerPairIn(w, x), y) <==> Bit64(w, y) && y != x && y != x + 1
  {
    hide ToShift, WordBit;
    var k, j := ToShift(x), ToShift(y);
    var inPair := y == x || y == x + 1;
    assert k < 63 && (inPair <==> j == k || j == k + 1) by {
      ToShiftOfPair(x);
      ToShiftSeparates(x, y);
      ToShiftSeparates(x + 1, y);
    }
    WordLowerPair(w, k, j, inPair);
  }

  lemma TestPairIn(w: bv64, x: nat)
    requires x < 63
    ensures w & (3 << ToShift(x)) != 0 <==> Bit64(w, x) || Bit64(w, x + 1)
  {
    ToShiftOfPair(x);
    WordTestPair(w, ToShift(x));
  }

  // ----- The bitset -----

  predicate Bit(words: seq<bv64>, i: nat)
    requires i < 64 * |words|
  {
    Bit64(words[i / 64], i % 64)
  }

  /** The bitset as a sequence of booleans. */
  ghost function Bits(words: seq<bv64>): (f: seq<bool>)
    ensures |f| == 64 * |words|
  {
    seq(64 * |words|, i requires 0 <= i < 64 * |words| => Bit(words, i))
  }

  lemma RaiseBits(words: seq<bv64>, i: nat)
    requires i < 64 * |words|
    ensures Bits(words[i / 64 := RaiseIn(words[i / 64], i % 64)]) == Bits(words)[i := true]
  {
    var w := words[i / 64];
    forall y: nat | y < 64
      ensures Bit64(RaiseIn(w, i % 64), y) <==> Bit64(w, y) || y == i % 64
    {
      RaiseInBit(w, i % 64, y);
    }
  }

  lemma LowerBits(words: seq<bv64>, i: nat)
    requires i % 2 == 0 && i + 1 < 64 * |words|
    ensures Bits(words[i / 64 := LowerPairIn(words[i / 64], i % 64)]) == Bits(words)[i := false][i + 1 := false]
  {
    var w := words[i / 64];
    forall y: nat | y < 64
      ensures Bit64(LowerPairIn(w, i % 64), y) <==> Bit64(w, y) && y != i % 64 && y != i % 64 + 1
    {
      LowerPairInBit(w, i % 64, y);
    }
    assert (i + 1) / 64 == i / 64 && (i + 1) % 64 == i % 64 + 1;
  }

  /** flags[i >> 6] |= 1 << (i & 63) */
  method Raise(flags: array<bv64>, i: nat)
    requires i < 64 * flags.Length
    modifies flags
    ensures Bits(flags[..]) == old(Bits(flags[..]))[i := true]
  {
    RaiseBits(flags[..], i);
    flags[i / 64] := RaiseIn(flags[i / 64], i % 64);
    assert flags[..] == old(flags[..])[i / 64 := RaiseIn(old(flags[..])[i / 64], i % 64)];
  }

  /** flags[i >> 6] & (1 << (i & 63)) */
  method Test(flags: array<bv64>, i: nat) returns (b: bool)
    requires i < 64 * flags.Length
    ensures b == Bits(flags[..])[i]
  {
    b := flags[i / 64] & (1 << ToShift(i % 64)) != 0;
    WordTest(flags[i / 64], ToShift(i % 64));
  }

  /** flags[i >> 6] & (3 << (i & 63)) */
  method TestPair(flags: array<bv64>, i: nat) returns (b: bool)
    requires i % 2 == 0 && i + 1 < 64 * flags.Length
    ensures b <==> Bits(flags[..])[i] || Bits(flags[..])[i + 1]
  {
    b := flags[i / 64] & (3 << ToShift(i % 64)) != 0;
    assert (i + 1) / 64 == i / 64 && (i + 1) % 64 == i % 64 + 1;
    TestPairIn(flags[i / 64], i % 64);
  }

  /** flags[i >> 6] &= ~(3 << (i & 63)) */
  method LowerPair(flags: array<bv64>, i: nat)
    requires i % 2 == 0 && i + 1 < 64 * flags.Length
    modifies flags
    ensures Bits(flags[..]) == old(Bits(flags[..]))[i := false][i + 1 := false]
  {
    LowerBits(flags[..], i);
    flags[i / 64] := LowerPairIn(flags[i / 64], i % 64);
    assert flags[..] == old(flags[..])[i / 64 := LowerPairIn(old(flags[..])[i / 64], i % 64)];
  }

  /** The first word becomes zero. */
  method LowerFirstWord(flags: array<bv64>)
    requires flags.Length > 0
    modifies flags
    ensures forall j :: 0 <= j < 64 * flags.Length ==> Bits(flags[..])[j] == (64 <= j && old(Bits(flags[..]))[j])
  {
    ghost var was := flags[..];
    flags[0] := 0;
    forall j | 0 <= j < 64 * flags.Length
      ensures Bit(flags[..], j) == (64 <= j && Bit(was, j))
    {
      WordConstants(ToShift(j % 64));
    }
  }

  /** setMem(flags, size, 0xFF) */
  method RaiseAll(flags: array<bv64>)
    modifies flags
    ensures forall j :: 0 <= j < 64 * flags.Length ==> Bits(flags[..])[j]
  {
    for i := 0 to flags.Length
      invariant forall k :: 0 <= k < i ==> flags[k] == 0xffff_ffff_ffff_ffff
    {
      flags[i] := 0xffff_ffff_ffff_ffff;
    }
    forall j | 0 <= j < 64 * flags.Length
      ensures Bit(flags[..], j)
    {
      WordConstants(ToShift(j % 64));
    }
  }

  /** The flags with the given slots raised. */
  function Mark(f: seq<bool>, slots: seq<nat>): (g: seq<bool>)
    ensures |g| == |f|
  {
    seq(|f|, i requires 0 <= i < |f| => f[i] || i in slots)
  }

  /** Raises the flag of every listed slot. */
  method RaiseEach(flags: array<bv64>, slots: seq<nat>)
    requires forall s :: s in slots ==> s < 64 * flags.Length
    modifies flags
    ensures Bits(flags[..]) == Mark(old(Bits(flags[..])), slots)
  {
    ghost var was := Bits(flags[..]);
    for k := 0 to |slots|
      invariant |Bits(flags[..])| == |was|
      invariant forall j :: 0 <= j < |was| ==> Bits(flags[..])[j] == (was[j] || j in slots[..k])
    {
      assert slots[k] in slots && slots[..k + 1] == slots[..k] + [slots[k]];
      Raise(flags, slots[k]);
    }
    assert slots[..|slots|] == slots;
  }
}
