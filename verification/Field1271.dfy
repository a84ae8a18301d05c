/**
 Arithmetic in GF(2^127 - 1) on two limbs. Elements are kept in [0, 2^127 - 1]; the output
 of every operation may alias its inputs.
 */
module Field1271 {
  import opened Limbs

  const P := 0x7fff_ffff_ffff_ffff_ffff_ffff_ffff_ffff
  const TOP := 0x8000_0000_0000_0000_0000_0000_0000_0000

  /** The value of a two-limb element. */
  ghost function Val(a: array<nat>): int
    reads a
    requires a.Length == 2
  {
    a[0] + B * a[1]
  }

  /** Two limbs holding a value of [0, 2^127 - 1]. */
  ghost predicate IsElement(a: array<nat>)
    reads a
  {
    a.Length == 2 && a[0] < B && a[1] < HALF
  }

  /** Equality in the field. */
  ghost predicate Same(x: int, y: int) {
    x % P == y % P
  }

  lemma SameUpToMultiple(x: int, k: int)
    ensures Same(x + k * P, x)
  {
  }

  // ----- Addition, subtraction, reduction -----

  /** The last two carry chains: fold a 128-bit sum back below 2^127. */
  method Fold(t0: Limb, t1: Limb, c: array<nat>)
    requires c.Length == 2 && t0 + B * t1 <= 2 * P
    modifies c
    ensures IsElement(c) && Same(Val(c), t0 + B * t1)
  {
    var carry, s0 := AddCarry(0, t0, t1 / HALF);
    var lost, s1 := AddCarry(carry, t1 % HALF, 0);
    assert lost == 0;
    c[0], c[1] := s0, s1;
    SameUpToMultiple(Val(c), t1 / HALF);
  }

  method FpAdd(a: array<nat>, b: array<nat>, c: array<nat>)
    requires IsElement(a) && IsElement(b) && c.Length == 2
    modifies c
    ensures IsElement(c) && Same(Val(c), old(Val(a)) + old(Val(b)))
  {
    hide Same;
    ghost var x, y := Val(a), Val(b);
    var carry, t0 := AddCarry(0, a[0], b[0]);
    c[0] := t0;
    var lost, t1 := AddCarry(carry, a[1], b[1]);
    assert lost == 0;
    c[1] := t1;
    assert t0 + B * t1 == x + y;
    Fold(c[0], c[1], c);
  }

  /** The last borrow chain: the borrow out of a difference v is taken off again at the low end. */
  method FoldBorrow(t0: Limb, t1: Limb, c: array<nat>, ghost v: int)
    requires c.Length == 2 && t0 + B * t1 == v + B * B * (t1 / HALF) && -P <= v <= P
    modifies c
    ensures IsElement(c) && Same(Val(c), v)
  {
    var borrow, s0 := SubBorrow(0, t0, t1 / HALF);
    var wrapped, s1 := SubBorrow(borrow, t1 % HALF, 0);
    assert wrapped == 0;
    c[0], c[1] := s0, s1;
    SameUpToMultiple(v, t1 / HALF);
  }

  method FpSub(a: array<nat>, b: array<nat>, c: array<nat>)
    requires IsElement(a) && IsElement(b) && c.Length == 2
    modifies c
    ensures IsElement(c) && Same(Val(c), old(Val(a)) - old(Val(b)))
  {
    hide Same;
    ghost var x, y := Val(a), Val(b);
    var borrow, t0 := SubBorrow(0, a[0], b[0]);
    c[0] := t0;
    var wrapped, t1 := SubBorrow(borrow, a[1], b[1]);
    c[1] := t1;
    assert wrapped == t1 / HALF;
    assert t0 + B * t1 == x - y + B * B * wrapped;
    FoldBorrow(c[0], c[1], c, x - y);
  }

  lemma Canonical(x: int)
    requires 0 <= x <= P
    ensures x % P == if x < P then x else x - P
  {
  }

  /** mod1271: the canonical representative. */
  method Mod1271(a: array<nat>)
    requires IsElement(a)
    modifies a
    ensures IsElement(a) && Val(a) == old(Val(a)) % P
  {
    ghost var x := Val(a);
    var borrow, t0 := SubBorrow(0, a[0], B - 1);
    var wrapped, t1 := SubBorrow(borrow, a[1], HALF - 1);
    var mask := if t1 / HALF == 1 then B - 1 else 0;
    assert t0 + B * t1 == x - P + B * B * wrapped && (wrapped == 1 <==> mask != 0);
    var carry, s0 := AddCarry(0, t0, mask);
    var out, s1 := AddCarry(carry, t1, if mask == 0 then 0 else HALF - 1);
    assert s0 + B * s1 == (if mask == 0 then x - P else x);
    a[0], a[1] := s0, s1;
    Canonical(x);
  }

  // ----- Multiplication -----

  /** The schoolbook product in terms of the partial products of the limbs. */
  lemma ProductOfLimbs(a0: nat, a1: nat, b0: nat, b1: nat)
    ensures (a0 + B * a1) * (b0 + B * b1) == a0 * b0 + B * (a0 * b1 + a1 * b0) + B * B * (a1 * b1)
  {
  }

  /** The common tail of multiplication and squaring: from the partial products to the sum to fold. */
  method Reduce(l00: Limb, m0: Limb, m1: Limb, h0: Limb, h1: Limb, ghost product: int) returns (t0: Limb, t1: Limb)
    requires h1 < HALF
    requires product == l00 + B * (m0 + B * m1) + B * B * (h0 + B * h1)
    requires 0 <= product <= P * P
    ensures Same(t0 + B * t1, product) && t0 + B * t1 <= 2 * P
  {
    ghost var T2, T3 := m0 + B * m1, h0 + B * h1;
    var high := ShiftLeft128By1(h0, h1);
    var shifted := ShiftRight128By63(m0, m1);
    ghost var low := (2 * h0) % B;
    var carry, u0 := AddCarry(0, shifted, (2 * h0) % B);
    var lost, u1 := AddCarry(carry, m1 / HALF, high);
    ghost var S := T2 / HALF + 2 * T3;
    assert shifted + B * (m1 / HALF) == T2 / HALF;
    assert (2 * h0) % B + B * high == 2 * T3;
    assert product == l00 + B * (T2 % HALF) + TOP * S;
    assert S <= P - 1;
    assert lost == 0;
    var c2;
    c2, t0 := AddCarry(0, l00, u0);
    lost, t1 := AddCarry(c2, m0 % HALF, u1);
    assert T2 % HALF == m0 % HALF;
    assert lost == 0;
    SameUpToMultiple(t0 + B * t1, S);
  }

  method FpMul(a: array<nat>, b: array<nat>, c: array<nat>)
    requires IsElement(a) && IsElement(b) && c.Length == 2
    modifies c
    ensures IsElement(c) && Same(Val(c), old(Val(a)) * old(Val(b)))
  {
    ghost var product := Val(a) * Val(b);
    ProductOfLimbs(a[0], a[1], b[0], b[1]);
    ProductMonotone(Val(a), P, Val(b), P);
    ProductMonotone(a[0], B - 1, b[1], HALF - 1);
    ProductMonotone(a[1], HALF - 1, b[0], B - 1);
    ProductMonotone(a[1], HALF - 1, b[1], HALF - 1);
    var l00, h00 := Multiply128(a[0], b[0]);
    var m0, m1 := Multiply128(a[0], b[1]);
    var carry, lost;
    carry, m0 := AddCarry(0, m0, h00);
    lost, m1 := AddCarry(carry, m1, 0);
    assert lost == 0;
    var n0, n1 := Multiply128(a[1], b[0]);
    carry, m0 := AddCarry(0, m0, n0);
    lost, m1 := AddCarry(carry, m1, n1);
    assert lost == 0;
    var h0, h1 := Multiply128(a[1], b[1]);
    var t0, t1 := Reduce(l00, m0, m1, h0, h1, product);
    Fold(t0, t1, c);
  }

  method FpSqr(a: array<nat>, c: array<nat>)
    requires IsElement(a) && c.Length == 2
    modifies c
    ensures IsElement(c) && Same(Val(c), old(Val(a)) * old(Val(a)))
  {
    ghost var product := Val(a) * Val(a);
    ProductOfLimbs(a[0], a[1], a[0], a[1]);
    ProductMonotone(Val(a), P, Val(a), P);
    ProductMonotone(a[0], B - 1, a[1], HALF - 1);
    ProductMonotone(a[1], HALF - 1, a[1], HALF - 1);
    var l00, h00 := Multiply128(a[0], a[0]);
    var n0, n1 := Multiply128(a[0], a[1]);
    var carry, lost, m0, m1;
    carry, m0 := AddCarry(0, n0, h00);
    lost, m1 := AddCarry(carry, n1, 0);
    assert lost == 0;
    carry, m0 := AddCarry(0, n0, m0);
    lost, m1 := AddCarry(carry, n1, m1);
    assert lost == 0;
    var h0, h1 := Multiply128(a[1], a[1]);
    var t0, t1 := Reduce(l00, m0, m1, h0, h1, product);
    Fold(t0, t1, c);
  }
}
