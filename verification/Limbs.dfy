/**
 64-bit limbs and the carry, borrow, multiply and double-shift intrinsics. Words are
 natural numbers below 2^64; shifts and masks by constants are division and remainder.
 */
module Limbs {
  const B := 0x1_0000_0000_0000_0000
  const HALF := 0x8000_0000_0000_0000

  type Limb = x: nat | x < B

  /** _addcarry_u64 */
  method AddCarry(carryIn: nat, x: Limb, y: Limb) returns (carry: nat, sum: Limb)
    requires carryIn <= 1
    ensures carry <= 1 && carry * B + sum == x + y + carryIn
  {
    var s := x + y + carryIn;
    if s < B {
      carry, sum := 0, s;
    } else {
      carry, sum := 1, s - B;
    }
  }

  /** _subborrow_u64 */
  method SubBorrow(borrowIn: nat, x: Limb, y: Limb) returns (borrow: nat, diff: Limb)
    requires borrowIn <= 1
    ensures borrow <= 1 && diff - borrow * B == x - y - borrowIn
  {
    if x >= y + borrowIn {
      borrow, diff := 0, x - y - borrowIn;
    } else {
      borrow, diff := 1, x + B - y - borrowIn;
    }
  }

  lemma ProductBound(x: Limb, y: Limb)
    ensures 0 <= x * y <= (B - 1) * (B - 1)
  {
    ProductMonotone(x, B - 1, y, B - 1);
  }

  lemma ProductMonotone(x: nat, x': nat, y: nat, y': nat)
    requires x <= x' && y <= y'
    ensures 0 <= x * y <= x' * y'
  {
  }

  /** _umul128 */
  method Multiply128(x: Limb, y: Limb) returns (lo: Limb, hi: Limb)
    ensures lo + B * hi == x * y
    ensures hi <= B - 2
  {
    ProductBound(x, y);
    var p := x * y;
    lo, hi := p % B, p / B;
  }

  /** __shiftleft128(lo, hi, 1): the high word of the double word shifted left by one. */
  method ShiftLeft128By1(lo: Limb, hi: Limb) returns (r: Limb)
    requires hi < HALF
    ensures r == 2 * hi + lo / HALF
  {
    r := 2 * hi + lo / HALF;
  }

  /** __shiftright128(lo, hi, 63): the low word of the double word shifted right by 63. */
  method ShiftRight128By63(lo: Limb, hi: Limb) returns (r: Limb)
    ensures r == lo / HALF + 2 * (hi % HALF)
  {
    r := lo / HALF + 2 * (hi % HALF);
  }
}
