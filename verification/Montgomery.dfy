/**
 256-bit multiplication and Montgomery reduction modulo the order of the FourQ subgroup.
 The output may alias either input.
 */
module Montgomery {
  import opened Limbs

  /** 2^256, and the group order with the constants that Montgomery reduction uses. */
  const W := 0x1_0000000000000000_0000000000000000_0000000000000000_0000000000000000
  const ORDER := 0x0029CBC14E5E0A72_F05397829CBC14E5_DFBD004DFE0F7999_2FB2540EC7768CE7
  const R_PRIME := 0xF32702FDAFC1C074_BCE409ED76B5DB21_D75E78B8D1FCDCF3_E12FE5F079BC3929

  const ORDER0 := 0x2FB2540EC7768CE7
  const ORDER1 := 0xDFBD004DFE0F7999
  const ORDER2 := 0xF05397829CBC14E5
  const ORDER3 := 0x0029CBC14E5E0A72
  const R_PRIME0 := 0xE12FE5F079BC3929
  const R_PRIME1 := 0xD75E78B8D1FCDCF3
  const R_PRIME2 := 0xBCE409ED76B5DB21
  const R_PRIME3 := 0xF32702FDAFC1C074

  const B2 := B * B
  const B3 := B * B * B

  ghost predicate Words(s: seq<nat>) {
    forall i :: 0 <= i < |s| ==> s[i] < B
  }

  /** The value of four limbs, least significant first. */
  function Val4(s: seq<nat>): nat
    requires |s| == 4
  {
    s[0] + B * s[1] + B2 * s[2] + B3 * s[3]
  }

  lemma Val4Bound(s: seq<nat>)
    requires |s| == 4 && Words(s)
    ensures Val4(s) <= W - 1
  {
  }

  /** The value of eight limbs. */
  function Val8(s: seq<nat>): nat
    requires |s| == 8
  {
    Val4(s[..4]) + W * Val4(s[4..])
  }

  // ----- multiply -----

  /** A limb times four limbs, by columns. */
  lemma RowProduct(x: nat, b: seq<nat>)
    requires |b| == 4
    ensures x * Val4(b) == x * b[0] + B * (x * b[1]) + B2 * (x * b[2]) + B3 * (x * b[3])
  {
  }

  /** A limb times four limbs. */
  function Row(x: nat, b: seq<nat>): nat
    requires |b| == 4
  {
    x * b[0] + B * (x * b[1]) + B2 * (x * b[2]) + B3 * (x * b[3])
  }

  /** One step of the first row: a product, the word carried in, and the word carried out. */
  method FirstRowStep(x: Limb, b: Limb, u: Limb) returns (d: Limb, u': Limb)
    ensures d + B * u' == x * b + u
  {
    var lo, uv := Multiply128(x, b);
    var carry;
    carry, d := AddCarry(0, lo, u);
    u' := carry + uv;
  }

  /** One step of a further row, which also has the previous sum c and its carry chain. */
  method RowStep(c: Limb, x: Limb, b: Limb, u: Limb, chain: nat) returns (d: Limb, u': Limb, chain': nat)
    requires chain <= 1
    ensures chain' <= 1 && d + B * (u' + chain') == c + x * b + u + chain
  {
    var lo, uv := Multiply128(x, b);
    var carry, v := AddCarry(chain, lo, u);
    u' := carry + uv;
    chain', d := AddCarry(0, c, v);
  }

  /** The first row of the product: x * b, five limbs wide. */
  method FirstRow(x: Limb, b: seq<nat>) returns (d0: Limb, d1: Limb, d2: Limb, d3: Limb, d4: Limb)
    requires |b| == 4 && Words(b)
    ensures d0 + B * d1 + B2 * d2 + B3 * d3 + W * d4 == Row(x, b)
  {
    var u;
    d0, u := Multiply128(x, b[0]);
    d1, u := FirstRowStep(x, b[1], u);
    d2, u := FirstRowStep(x, b[2], u);
    d3, d4 := FirstRowStep(x, b[3], u);
  }

  /** Five limbs never have to hold more than four limbs plus one row. */
  lemma TopLimbFits(d0: nat, d1: nat, d2: nat, d3: nat, d4: nat, c0: Limb, c1: Limb, c2: Limb, c3: Limb, p0: nat,
                    p1: nat, p2: nat, p3: nat)
    requires p0 <= (B - 1) * (B - 1) && p1 <= (B - 1) * (B - 1) && p2 <= (B - 1) * (B - 1) && p3 <= (B - 1) * (B - 1)
    requires d0 + B * d1 + B2 * d2 + B3 * d3 + W * d4
        == c0 + B * c1 + B2 * c2 + B3 * c3 + (p0 + B * p1 + B2 * p2 + B3 * p3)
    ensures d4 < B
  {
  }

  /** A further row: x * b is added to four limbs; five limbs come out and none of the sums wraps. */
  method AddRow(c0: Limb, c1: Limb, c2: Limb, c3: Limb, x: Limb, b: seq<nat>)
    returns (d0: Limb, d1: Limb, d2: Limb, d3: Limb, d4: Limb)
    requires |b| == 4 && Words(b)
    ensures d0 + B * d1 + B2 * d2 + B3 * d3 + W * d4 == c0 + B * c1 + B2 * c2 + B3 * c3 + Row(x, b)
  {
    ProductBound(x, b[0]);
    ProductBound(x, b[1]);
    ProductBound(x, b[2]);
    ProductBound(x, b[3]);
    var u, chain;
    var lo, uv := Multiply128(x, b[0]);
    chain, d0 := AddCarry(0, c0, lo);
    u := chain + uv;
    d1, u, chain := RowStep(c1, x, b[1], u, 0);
    d2, u, chain := RowStep(c2, x, b[2], u, chain);
    d3, u, chain := RowStep(c3, x, b[3], u, chain);
    TopLimbFits(d0, d1, d2, d3, u + chain, c0, c1, c2, c3, x * b[0], x * b[1], x * b[2], x * b[3]);
    d4 := u + chain;
  }

  /** The rows of four-by-four limbs add up to the product. */
  lemma RowsAddUp(a: seq<nat>, b: seq<nat>)
    requires |a| == 4 && |b| == 4
    ensures Val4(a) * Val4(b) == a[0] * Val4(b) + B * (a[1] * Val4(b)) + B2 * (a[2] * Val4(b)) + B3 * (a[3] * Val4(b))
  {
  }

  /** multiply: the exact 512-bit product. */
  method Multiply(a: seq<nat>, b: seq<nat>) returns (c: seq<nat>)
    requires |a| == 4 && Words(a) && |b| == 4 && Words(b)
    ensures |c| == 8 && Words(c) && Val8(c) == Val4(a) * Val4(b)
  {
    hide Row, Val4;
    var c0, x1, x2, x3, x4 := FirstRow(a[0], b);
    var c1, y2, y3, y4, y5 := AddRow(x1, x2, x3, x4, a[1], b);
    var c2, z3, z4, z5, z6 := AddRow(y2, y3, y4, y5, a[2], b);
    var c3, c4, c5, c6, c7 := AddRow(z3, z4, z5, z6, a[3], b);
    c := [c0, c1, c2, c3, c4, c5, c6, c7];
    ProductOfRows(a, b);
    CombineRows(c0, c1, c2, c3, c4, c5, c6, c7, x1, x2, x3, x4, y2, y3, y4, y5, z3, z4, z5, z6,
                Row(a[0], b), Row(a[1], b), Row(a[2], b), Row(a[3], b));
    Val8OfLimbs(c);
  }

  lemma Val8OfLimbs(c: seq<nat>)
    requires |c| == 8
    ensures Val8(c) == c[0] + B * c[1] + B2 * c[2] + B3 * c[3] + W * (c[4] + B * c[5] + B2 * c[6] + B3 * c[7])
  {
  }

  /** Each row was added one limb further up. */
  lemma CombineRows(c0: nat, c1: nat, c2: nat, c3: nat, c4: nat, c5: nat, c6: nat, c7: nat,
                    x1: nat, x2: nat, x3: nat, x4: nat, y2: nat, y3: nat, y4: nat, y5: nat, z3: nat, z4: nat, z5: nat,
                        z6: nat,
                    r0: nat, r1: nat, r2: nat, r3: nat)
    requires c0 + B * x1 + B2 * x2 + B3 * x3 + W * x4 == r0
    requires c1 + B * y2 + B2 * y3 + B3 * y4 + W * y5 == x1 + B * x2 + B2 * x3 + B3 * x4 + r1
    requires c2 + B * z3 + B2 * z4 + B3 * z5 + W * z6 == y2 + B * y3 + B2 * y4 + B3 * y5 + r2
    requires c3 + B * c4 + B2 * c5 + B3 * c6 + W * c7 == z3 + B * z4 + B2 * z5 + B3 * z6 + r3
    ensures c0 + B * c1 + B2 * c2 + B3 * c3 + W * (c4 + B * c5 + B2 * c6 + B3 * c7) == r0 + B * r1 + B2 * r2 + B3 * r3
  {
  }

  /** The product by rows and columns. */
  lemma ProductOfRows(a: seq<nat>, b: seq<nat>)
    requires |a| == 4 && |b| == 4
    ensures Val4(a) * Val4(b) == Row(a[0], b) + B * Row(a[1], b) + B2 * Row(a[2], b) + B3 * Row(a[3], b)
  {
    RowsAddUp(a, b);
    RowProduct(a[0], b);
    RowProduct(a[1], b);
    RowProduct(a[2], b);
    RowProduct(a[3], b);
  }

  // ----- Montgomery reduction -----

  // Q = P * r' modulo 2^256, row by row: only the four low limbs are kept. The ghost result of
  // each row is the multiple of 2^256 that it drops.

  lemma TimesRPrime(p: int)
    ensures p * R_PRIME == p * R_PRIME0 + B * (p * R_PRIME1) + B2 * (p * R_PRIME2) + B3 * (p * R_PRIME3)
  {
  }

  method LowRow0(p: Limb) returns (q0: Limb, q1: Limb, q2: Limb, q3: Limb, ghost dropped: int)
    ensures q0 + B * q1 + B2 * q2 + B3 * q3 + W * dropped == p * R_PRIME
  {
    var u0, u1, u2, uv, carry, lo1, lo2, lo3, lost;
    q0, u0 := Multiply128(p, R_PRIME0);
    lo1, uv := Multiply128(p, R_PRIME1);
    carry, q1 := AddCarry(0, lo1, u0);
    u1 := carry + uv;
    lo2, uv := Multiply128(p, R_PRIME2);
    carry, q2 := AddCarry(0, lo2, u1);
    u2 := carry + uv;
    lo3, uv := Multiply128(p, R_PRIME3);
    lost, q3 := AddCarry(0, lo3, u2);
    dropped := uv + lost;
    LowRow0Sum(q0, q1, q2, q3, u0, u1, u2, dropped, p * R_PRIME0, p * R_PRIME1, p * R_PRIME2, p * R_PRIME3);
    TimesRPrime(p);
  }

  lemma LowRow0Sum(q0: int, q1: int, q2: int, q3: int, u0: int, u1: int, u2: int, dropped: int, x0: int, x1: int,
                   x2: int, x3: int)
    requires q0 + B * u0 == x0
    requires q1 + B * u1 == x1 + u0
    requires q2 + B * u2 == x2 + u1
    requires q3 + B * dropped == x3 + u2
    ensures q0 + B * q1 + B2 * q2 + B3 * q3 + W * dropped == x0 + B * x1 + B2 * x2 + B3 * x3
  {
  }

  method LowRow1(c1: Limb, c2: Limb, c3: Limb, p: Limb) returns (q1: Limb, q2: Limb, q3: Limb, ghost dropped: int)
    ensures B * q1 + B2 * q2 + B3 * q3 + W * dropped == B * c1 + B2 * c2 + B3 * c3 + B * (p * R_PRIME)
  {
    var u0, u1, uv, v1, v2, carry, chain, lo, lost, lost';
    lo, uv := Multiply128(p, R_PRIME0);
    carry, q1 := AddCarry(0, c1, lo);
    u0 := carry + uv;
    lo, uv := Multiply128(p, R_PRIME1);
    carry, v1 := AddCarry(0, lo, u0);
    u1 := carry + uv;
    chain, q2 := AddCarry(0, c2, v1);
    lo, uv := Multiply128(p, R_PRIME2);
    lost, v2 := AddCarry(chain, lo, u1);
    lost', q3 := AddCarry(0, c3, v2);
    ghost var top := uv + lost + lost';
    dropped := top + p * R_PRIME3;
    LowRow1Sum(c1, c2, c3, q1, q2, q3, u0, v1, u1, chain, top, p * R_PRIME0, p * R_PRIME1, p * R_PRIME2, p * R_PRIME3);
    TimesRPrime(p);
  }

  lemma LowRow1Sum(c1: int, c2: int, c3: int, q1: int, q2: int, q3: int, u0: int, v1: int, u1: int, chain: int,
                   top: int,
                   x0: int, x1: int, x2: int, x3: int)
    requires q1 + B * u0 == c1 + x0
    requires v1 + B * u1 == x1 + u0
    requires q2 + B * chain == c2 + v1
    requires q3 + B * top == c3 + x2 + chain + u1
    ensures B * q1 + B2 * q2 + B3 * q3 + W * (top + x3)
         == B * c1 + B2 * c2 + B3 * c3 + B * (x0 + B * x1 + B2 * x2 + B3 * x3)
  {
  }

  method LowRow2(c2: Limb, c3: Limb, p: Limb) returns (q2: Limb, q3: Limb, ghost dropped: int)
    ensures B2 * q2 + B3 * q3 + W * dropped == B2 * c2 + B3 * c3 + B2 * (p * R_PRIME)
  {
    var u, uv, v, carry, lo, lost, lost';
    lo, uv := Multiply128(p, R_PRIME0);
    carry, q2 := AddCarry(0, c2, lo);
    u := carry + uv;
    lo, uv := Multiply128(p, R_PRIME1);
    lost, v := AddCarry(0, lo, u);
    lost', q3 := AddCarry(0, c3, v);
    ghost var top := uv + lost + lost';
    dropped := top + p * R_PRIME2 + B * (p * R_PRIME3);
    LowRow2Sum(c2, c3, q2, q3, u, top, p * R_PRIME0, p * R_PRIME1, p * R_PRIME2, p * R_PRIME3);
    TimesRPrime(p);
  }

  lemma LowRow2Sum(c2: int, c3: int, q2: int, q3: int, u: int, top: int, x0: int, x1: int, x2: int, x3: int)
    requires q2 + B * u == c2 + x0
    requires q3 + B * top == c3 + x1 + u
    ensures B2 * q2 + B3 * q3 + W * (top + x2 + B * x3)
         == B2 * c2 + B3 * c3 + B2 * (x0 + B * x1 + B2 * x2 + B3 * x3)
  {
  }

  method LowRow3(c3: Limb, p: Limb) returns (q3: Limb, ghost dropped: int)
    ensures B3 * q3 + W * dropped == B3 * c3 + B3 * (p * R_PRIME)
  {
    var lo, uv := Multiply128(p, R_PRIME0);
    var lost;
    lost, q3 := AddCarry(0, c3, lo);
    dropped := uv + lost + p * R_PRIME1 + B * (p * R_PRIME2) + B2 * (p * R_PRIME3);
  }

  method LowProduct(p: seq<nat>) returns (q: seq<nat>, ghost dropped: int)
    requires |p| == 8 && Words(p)
    ensures |q| == 4 && Words(q) && Val4(q) + W * dropped == Val4(p[..4]) * R_PRIME
  {
    var q0, q1, q2, q3;
    ghost var d0, d1, d2, d3;
    q0, q1, q2, q3, d0 := LowRow0(p[0]);
    q1, q2, q3, d1 := LowRow1(q1, q2, q3, p[1]);
    q2, q3, d2 := LowRow2(q2, q3, p[2]);
    q3, d3 := LowRow3(q3, p[3]);
    q := [q0, q1, q2, q3];
    dropped := d0 + d1 + d2 + d3;
  }

  /** -1 / r modulo 2^256 is what R_PRIME stands for. */
  const INVERSE_QUOTIENT := 0x27b2c704d8c6d10dd5b24ac38118775d78fa35b9b3d9c001c9fa340fc44477

  lemma InverseOfOrder()
    ensures ORDER * R_PRIME == W * INVERSE_QUOTIENT - 1
    ensures ORDER == ORDER0 + B * ORDER1 + B2 * ORDER2 + B3 * ORDER3
    ensures R_PRIME == R_PRIME0 + B * R_PRIME1 + B2 * R_PRIME2 + B3 * R_PRIME3
  {
  }

  /** P + Q * r is a multiple of 2^256. */
  lemma LowHalfVanishes(low: int, high: int, q: int, dropped: int) returns (x: int)
    requires q + W * dropped == low * R_PRIME
    ensures low + W * high + q * ORDER == W * x
  {
    InverseOfOrder();
    x := high + low * INVERSE_QUOTIENT - dropped * ORDER;
  }

  /** The eight-limb sum P + temp. */
  method AddWide(p: seq<nat>, t: seq<nat>) returns (carry: nat, s: seq<nat>)
    requires |p| == 8 && Words(p) && |t| == 8 && Words(t)
    ensures |s| == 8 && Words(s) && carry <= 1 && Val8(s) + W * W * carry == Val8(p) + Val8(t)
  {
    var c, s0, s1, s2, s3, s4, s5, s6, s7;
    c, s0 := AddCarry(0, p[0], t[0]);
    c, s1 := AddCarry(c, p[1], t[1]);
    c, s2 := AddCarry(c, p[2], t[2]);
    c, s3 := AddCarry(c, p[3], t[3]);
    ghost var middle := c;
    assert s0 + B * s1 + B2 * s2 + B3 * s3 + W * middle == Val4(p[..4]) + Val4(t[..4]);
    c, s4 := AddCarry(c, p[4], t[4]);
    c, s5 := AddCarry(c, p[5], t[5]);
    c, s6 := AddCarry(c, p[6], t[6]);
    c, s7 := AddCarry(c, p[7], t[7]);
    assert s4 + B * s5 + B2 * s6 + B3 * s7 + W * c == Val4(p[4..]) + Val4(t[4..]) + middle;
    carry, s := c, [s0, s1, s2, s3, s4, s5, s6, s7];
    assert s[..4] == [s0, s1, s2, s3] && s[4..] == [s4, s5, s6, s7];
  }

  method SubtractOrder(t: seq<nat>) returns (borrow: nat, m: seq<nat>)
    requires |t| == 4 && Words(t)
    ensures |m| == 4 && Words(m) && borrow <= 1 && Val4(m) == Val4(t) - ORDER + W * borrow
  {
    var m0, m1, m2, m3;
    borrow, m0 := SubBorrow(0, t[0], ORDER0);
    borrow, m1 := SubBorrow(borrow, t[1], ORDER1);
    borrow, m2 := SubBorrow(borrow, t[2], ORDER2);
    borrow, m3 := SubBorrow(borrow, t[3], ORDER3);
    InverseOfOrder();
    m := [m0, m1, m2, m3];
  }

  method AddOrder(t: seq<nat>) returns (carry: nat, m: seq<nat>)
    requires |t| == 4 && Words(t)
    ensures |m| == 4 && Words(m) && Val4(m) + W * carry == Val4(t) + ORDER
  {
    var m0, m1, m2, m3;
    carry, m0 := AddCarry(0, t[0], ORDER0);
    carry, m1 := AddCarry(carry, t[1], ORDER1);
    carry, m2 := AddCarry(carry, t[2], ORDER2);
    carry, m3 := AddCarry(carry, t[3], ORDER3);
    InverseOfOrder();
    m := [m0, m1, m2, m3];
  }

  /** Subtract the order once, and add it back if that went below zero. */
  method ReduceOnce(t: seq<nat>) returns (m: seq<nat>)
    requires |t| == 4 && Words(t) && Val4(t) < 2 * ORDER
    ensures |m| == 4 && Words(m)
    ensures Val4(m) == (if Val4(t) >= ORDER then Val4(t) - ORDER else Val4(t)) < ORDER
  {
    Val4Bound(t);
    var borrow, carry;
    borrow, m := SubtractOrder(t);
    Val4Bound(m);
    if borrow != 0 {
      carry, m := AddOrder(m);
      Val4Bound(m);
    }
  }

  /** The order as limbs. */
  function OrderLimbs(): (s: seq<nat>)
    ensures |s| == 4 && Words(s) && Val4(s) == ORDER
  {
    [ORDER0, ORDER1, ORDER2, ORDER3]
  }

  // ----- Montgomery_multiply_mod_order -----

  /** Equality modulo the order. */
  ghost predicate Congruent(x: int, y: int) {
    x % ORDER == y % ORDER
  }

  lemma CongruentUpToMultiple(x: int, k: int)
    ensures Congruent(x + k * ORDER, x)
  {
  }

  lemma CongruentMeansMultiple(x: int, y: int) returns (k: int)
    requires Congruent(x, y)
    ensures x == y + k * ORDER
  {
    k := x / ORDER - y / ORDER;
  }

  /** From the 512-bit product P and Q = P * r' to (P + Q * r) / 2^256, reduced once. */
  method Reduce(p: seq<nat>) returns (m: seq<nat>)
    requires |p| == 8 && Words(p) && Val8(p) < W * ORDER
    ensures |m| == 4 && Words(m) && Val4(m) < ORDER && Congruent(Val4(m) * W, Val8(p))
  {
    var q;
    ghost var dropped;
    q, dropped := LowProduct(p);
    Val4Bound(q);
    var temp := Multiply(q, OrderLimbs());
    var carry, s;
    carry, s := AddWide(p, temp);
    hide Val4;
    ghost var x := LowHalfVanishes(Val4(p[..4]), Val4(p[4..]), Val4(q), dropped);
    Val4Bound(s[..4]);
    Val4Bound(s[4..]);
    TopHalf(Val4(s[..4]), Val4(s[4..]), carry, x, Val8(p), Val4(q));
    m := ReduceOnce(s[4..]);
    ghost var k := Val4(q) - (if Val4(s[4..]) >= ORDER then W else 0);
    assert Val4(m) * W == Val8(p) + k * ORDER;
    CongruentUpToMultiple(Val8(p), k);
  }

  /** The low half of P + Q * r is zero, its high half is below 2r, and nothing is carried out. */
  lemma TopHalf(low: nat, high: nat, carry: nat, x: int, p: nat, q: nat)
    requires low < W && high < W && carry <= 1 && q < W && p < W * ORDER
    requires low + W * high + W * W * carry == p + q * ORDER == W * x
    ensures carry == 0 && low == 0 && high < 2 * ORDER && W * high == p + q * ORDER
  {
  }

  /** mc = ma * mb / 2^256 modulo the order; a multiplier of one takes a shortcut. */
  method MontgomeryMultiply(ma: array<nat>, mb: array<nat>, mc: array<nat>)
    requires ma.Length == 4 && Words(ma[..]) && mb.Length == 4 && Words(mb[..]) && mc.Length == 4
    requires Val4(mb[..]) < ORDER
    modifies mc
    ensures Words(mc[..]) && Val4(mc[..]) < ORDER
    ensures Congruent(Val4(mc[..]) * W, old(Val4(ma[..])) * old(Val4(mb[..])))
  {
    ghost var x, y := Val4(ma[..]), Val4(mb[..]);
    var p: seq<nat>;
    if mb[0] == 1 && mb[1] == 0 && mb[2] == 0 && mb[3] == 0 {
      p := ma[..] + [0, 0, 0, 0];
      assert p[..4] == ma[..] && Val4(p[4..]) == 0 && y == 1;
    } else {
      p := Multiply(ma[..], mb[..]);
    }
    Val4Bound(ma[..]);
    hide Val4, Val8;
    ProductBelow(x, y);
    var m := Reduce(p);
    mc[0], mc[1], mc[2], mc[3] := m[0], m[1], m[2], m[3];
    assert mc[..] == m;
  }

  lemma ProductBelow(x: nat, y: nat)
    requires x < W && y < ORDER
    ensures x * y < W * ORDER
  {
    ProductMonotone(x, W - 1, y, ORDER - 1);
  }

  // ----- Reducing a scalar -----

  /** Montgomery_Rprime, that is 2^512 modulo the order. */
  const R_SQUARED := 0x0006A5F16AC8F9D3_3D01B7C72136F61C_173EA5AAEA6B387D_C81DB8795FF3D621
  const R_SQUARED_QUOTIENT := 0x62000000000000000000000000000002251809210c372291ea1e6858d0481f6a449

  lemma RSquaredIsExact()
    ensures W * W == R_SQUARED_QUOTIENT * ORDER + R_SQUARED && R_SQUARED < ORDER
  {
  }

  /** A common factor 2^256 can be cancelled: 2^256 is invertible modulo the order. */
  lemma CancelW(x: int, y: int)
    requires Congruent(x * W, y * W)
    ensures Congruent(x, y)
  {
    InverseOfOrder();
    // W * INVERSE_QUOTIENT == 1 modulo the order, since ORDER * R_PRIME == W * INVERSE_QUOTIENT - 1.
    var k := CongruentMeansMultiple(x * W, y * W);
    var d := x - y;
    assert d * W == k * ORDER;
    assert d * (ORDER * R_PRIME + 1) == INVERSE_QUOTIENT * (d * W);
    assert x == y + (INVERSE_QUOTIENT * k - d * R_PRIME) * ORDER;
    CongruentUpToMultiple(y, INVERSE_QUOTIENT * k - d * R_PRIME);
  }

  /** Multiplying by Montgomery_Rprime and then by one reduces any 256-bit scalar modulo the order. */
  method ReduceScalar(k: array<nat>, rPrime: array<nat>, one: array<nat>, scalar: array<nat>)
    requires k.Length == 4 && Words(k[..]) && scalar.Length == 4 && scalar != rPrime && scalar != one
    requires rPrime.Length == 4 && Words(rPrime[..]) && Val4(rPrime[..]) == R_SQUARED
    requires one.Length == 4 && Words(one[..]) && Val4(one[..]) == 1
    modifies scalar
    ensures Words(scalar[..]) && Val4(scalar[..]) == old(Val4(k[..])) % ORDER
  {
    ghost var x := Val4(k[..]);
    RSquaredIsExact();
    hide Val4;
    MontgomeryMultiply(k, rPrime, scalar);
    ghost var m := Val4(scalar[..]);
    MontgomeryMultiply(scalar, one, scalar);
    ScalarReduced(x, m, Val4(scalar[..]));
  }

  lemma ScalarReduced(x: nat, m: nat, n: nat)
    requires Congruent(m * W, x * R_SQUARED) && Congruent(n * W, m * 1) && n < ORDER
    ensures n == x % ORDER
  {
    RSquaredIsExact();
    var j := CongruentMeansMultiple(m * W, x * R_SQUARED);
    var l := CongruentMeansMultiple(n * W, m);
    assert n * W * W == x * W * W + (j - x * R_SQUARED_QUOTIENT + l * W) * ORDER;
    CongruentUpToMultiple(x * W * W, j - x * R_SQUARED_QUOTIENT + l * W);
    CancelW(n * W, x * W);
    CancelW(n, x);
  }
}
