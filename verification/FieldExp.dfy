/**
 fpexp1251: the addition chain that raises a field element to the power 2^125 - 1, from
 which inverses and square roots are built.
 */
module FieldExp {
  import opened Powers
  import opened Field1271

  function Pow(x: int, e: nat): int {
    if e == 0 then 1 else x * Pow(x, e - 1)
  }

  lemma {:induction false} PowAdd(x: int, m: nat, n: nat)
    ensures Pow(x, m + n) == Pow(x, m) * Pow(x, n)
  {
    if m > 0 {
      PowAdd(x, m - 1, n);
      MulAssoc(x, Pow(x, m - 1), Pow(x, n));
    }
  }

  lemma SameMeansMultiple(x: int, y: int) returns (k: int)
    requires Same(x, y)
    ensures x == y + k * P
  {
    k := x / P - y / P;
  }

  /** Multiplication respects equality in the field. */
  lemma SameProduct(x: int, x': int, y: int, y': int)
    requires Same(x, x') && Same(y, y')
    ensures Same(x * y, x' * y')
  {
    var k := SameMeansMultiple(x, x');
    var l := SameMeansMultiple(y, y');
    assert x * y == x' * y' + (k * y + l * x') * P by {
      MulLeft(y, x', k * P);
      MulLeft(x', y', l * P);
      MulAssoc(k, P, y);
      MulAssoc(l, P, x');
      MulLeft(P, k * y, l * x');
    }
    SameUpToMultiple(x' * y', k * y + l * x');
  }

  /** a holds x^e in the field. */
  ghost predicate HoldsPower(a: array<nat>, x: int, e: nat)
    reads a
  {
    IsElement(a) && Same(Val(a), Pow(x, e))
  }

  method MulPowers(a: array<nat>, b: array<nat>, c: array<nat>, ghost x: int, ghost m: nat, ghost n: nat)
    requires HoldsPower(a, x, m) && HoldsPower(b, x, n) && c.Length == 2
    modifies c
    ensures HoldsPower(c, x, m + n)
  {
    SameProduct(Val(a), Pow(x, m), Val(b), Pow(x, n));
    PowAdd(x, m, n);
    hide Pow;
    FpMul(a, b, c);
  }

  /** k squarings of a into c; the first one reads a, the others run in place. */
  method SquareTimes(a: array<nat>, c: array<nat>, k: nat, ghost x: int, ghost e: nat)
    requires HoldsPower(a, x, e) && c.Length == 2 && k >= 1
    modifies c
    ensures HoldsPower(c, x, e * Exp2(k))
  {
    hide Pow, Same, IsElement;
    SquareInto(a, c, x, e);
    for i := 1 to k
      invariant HoldsPower(c, x, e * Exp2(i))
    {
      SquareInto(c, c, x, e * Exp2(i));
      MulAssoc(e, Exp2(i), 2);
      assert Exp2(i + 1) == 2 * Exp2(i);
    }
  }

  method SquareInto(a: array<nat>, c: array<nat>, ghost x: int, ghost e: nat)
    requires HoldsPower(a, x, e) && c.Length == 2
    modifies c
    ensures HoldsPower(c, x, e * 2)
  {
    SameProduct(Val(a), Pow(x, e), Val(a), Pow(x, e));
    PowAdd(x, e, e);
    hide Pow;
    FpSqr(a, c);
  }

  /** 2^k - 1: the exponents that the chain passes through. */
  ghost function Ones(k: nat): nat {
    Exp2(k) - 1
  }

  /** Shifting by j and filling in j ones. */
  lemma OnesAppend(k: nat, j: nat)
    ensures Ones(k) * Exp2(j) + Ones(j) == Ones(k + j)
  {
    Exp2Add(k, j);
    MulLeft(Exp2(j), Exp2(k), 1);
  }

  /** src holds x^(2^k - 1): after j squarings and a multiplication, dst holds x^(2^(k+j) - 1). */
  method Extend(src: array<nat>, k: nat, fill: array<nat>, j: nat, dst: array<nat>, ghost x: int)
    requires HoldsPower(src, x, Ones(k)) && HoldsPower(fill, x, Ones(j)) && fill != dst && dst.Length == 2 && j >= 1
    modifies dst
    ensures HoldsPower(dst, x, Ones(k + j))
  {
    hide HoldsPower;
    SquareTimes(src, dst, j, x, Ones(k));
    MulPowers(fill, dst, dst, x, Ones(j), Ones(k) * Exp2(j));
    OnesAppend(k, j);
  }

  lemma StartOfChain(a: array<nat>)
    requires IsElement(a)
    ensures HoldsPower(a, Val(a), Ones(1))
  {
  }

  lemma {:induction false} EndOfChain(a: array<nat>, x: int, e: nat)
    requires HoldsPower(a, x, e)
    ensures IsElement(a) && Same(Val(a), Pow(x, e))
  {
  }

  /** The first half of the chain: 4, 8, 16 and 32 ones. */
  method ClimbTo32(a: array<nat>, t2: array<nat>, t3: array<nat>, t4: array<nat>, t5: array<nat>, ghost x: int)
    requires HoldsPower(a, x, Ones(1))
    requires t2.Length == t3.Length == t4.Length == t5.Length == 2
    requires a != t2 && a != t3 && a != t4 && a != t5 && t2 != t3 && t2 != t4 && t2 != t5 && t3 != t4 && t3 != t5
    requires t4 != t5
    modifies t2, t3, t4, t5
    ensures HoldsPower(t3, x, Ones(4)) && HoldsPower(t4, x, Ones(8)) && HoldsPower(t5, x, Ones(16))
        && HoldsPower(t2, x, Ones(32))
  {
    hide HoldsPower, Ones;
    Extend(a, 1, a, 1, t2, x);
    Extend(t2, 2, t2, 2, t3, x);
    Extend(t3, 4, t3, 4, t4, x);
    Extend(t4, 8, t4, 8, t5, x);
    Extend(t5, 16, t5, 16, t2, x);
  }

  /** The second half: from 32 to 124 ones. */
  method ClimbTo124(t1: array<nat>, t2: array<nat>, t3: array<nat>, t4: array<nat>, t5: array<nat>, ghost x: int)
    requires HoldsPower(t3, x, Ones(4)) && HoldsPower(t4, x, Ones(8)) && HoldsPower(t5, x, Ones(16))
    requires HoldsPower(t2, x, Ones(32))
    requires t1.Length == 2 && t1 != t2 && t1 != t3 && t1 != t4 && t1 != t5
    modifies t1
    ensures HoldsPower(t1, x, Ones(124))
  {
    hide HoldsPower, Ones;
    Extend(t2, 32, t2, 32, t1, x);
    Extend(t1, 64, t2, 32, t1, x);
    Extend(t1, 96, t5, 16, t1, x);
    Extend(t1, 112, t4, 8, t1, x);
    Extend(t1, 120, t3, 4, t1, x);
  }

  method LastStep(t1: array<nat>, a: array<nat>, af: array<nat>, ghost x: int)
    requires HoldsPower(t1, x, Ones(124)) && HoldsPower(a, x, Ones(1)) && t1 != a && t1.Length == af.Length == 2
    modifies t1, af
    ensures HoldsPower(af, x, Ones(125))
  {
    hide HoldsPower, Ones, Exp2;
    SquareTimes(t1, t1, 1, x, Ones(124));
    MulPowers(a, t1, af, x, Ones(1), Ones(124) * Exp2(1));
    OnesAppend(124, 1);
  }

  /** fpexp1251: af = a^(2^125 - 1); af may be a. */
  method FpExp1251(a: array<nat>, af: array<nat>)
    requires IsElement(a) && af.Length == 2
    modifies af
    ensures IsElement(af) && Same(Val(af), Pow(old(Val(a)), Exp2(125) - 1))
  {
    ghost var x := Val(a);
    StartOfChain(a);
    assert Ones(125) == Exp2(125) - 1;
    hide HoldsPower, Pow, Exp2, Ones;
    var t1, t2, t3, t4, t5 := new nat[2], new nat[2], new nat[2], new nat[2], new nat[2];
    ClimbTo32(a, t2, t3, t4, t5, x);
    ClimbTo124(t1, t2, t3, t4, t5, x);
    LastStep(t1, a, af, x);
    EndOfChain(af, x, Ones(125));
  }
}
