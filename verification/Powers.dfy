/** Powers of two and the few facts about multiplication that the arithmetic modules need. */
module Powers {

  function Exp2(n: nat): (p: int)
    ensures p > 0
  {
    if n == 0 then 1 else 2 * Exp2(n - 1)
  }

  lemma {:induction false} Exp2Add(m: nat, n: nat)
    ensures Exp2(m + n) == Exp2(m) * Exp2(n)
  {
    if m > 0 {
      Exp2Add(m - 1, n);
    }
  }

  lemma {:induction false} Exp2Monotone(m: nat, n: nat)
    requires m <= n
    ensures Exp2(m) <= Exp2(n)
  {
    if m < n {
      Exp2Monotone(m, n - 1);
    }
  }

  lemma DivMod(s: int, p: int)
    requires p > 0
    ensures s == p * (s / p) + s % p && 0 <= s % p < p
  {
  }

  lemma MulAssoc(a: int, b: int, c: int)
    ensures (a * b) * c == a * (b * c)
  {
  }

  lemma MulLeft(a: int, b: int, c: int)
    ensures a * (b + c) == a * b + a * c && (b + c) * a == b * a + c * a
    ensures a * (b - c) == a * b - a * c && (b - c) * a == b * a - c * a
  {
  }

  lemma MulMonotone(a: int, b: int, c: int)
    requires a <= b && c >= 0
    ensures a * c <= b * c && c * a <= c * b
  {
  }

  /** A multiple that is less than half a modulus above another multiple is not above it. */
  lemma MultiplesCompare(x: int, y: int, m: int)
    requires m > 0 && x * m < y * m + m
    ensures x <= y
  {
    if x >= y + 1 {
      MulMonotone(y + 1, x, m);
      MulLeft(m, y, 1);
    }
  }

  lemma QuotientIs(x: nat, d: nat, q: nat, r: nat)
    requires d > 0 && x == d * q + r && r < d
    ensures x / d == q
  {
    var k := x / d;
    DivMod(x, d);
    if k < q {
      MulMonotone(k + 1, q, d);
    } else if q < k {
      MulMonotone(q + 1, k, d);
    }
  }

  lemma TwoRemainders(x: int, a: int, y: int, s: int, p: int, q: int, r: int)
    requires x == a * y + s && 0 <= s < a && y == p * q + r && 0 <= r < p
    ensures x == (a * p) * q + (a * r + s) && 0 <= a * r + s < a * p
  {
    MulLeft(a, p * q, r);
    MulAssoc(a, p, q);
    MulMonotone(r, p - 1, a);
    MulMonotone(0, r, a);
    MulLeft(a, p, 1);
  }

  lemma DivideTwice(x: nat, a: nat, p: nat)
    requires a > 0 && p > 0
    ensures a * p > 0 && x / (a * p) == x / a / p
  {
    var y := x / a;
    DivMod(x, a);
    DivideRest(x, a, y, x % a, p);
  }

  lemma DivideRest(x: nat, a: nat, y: nat, s: nat, p: nat)
    requires x == a * y + s && s < a && p > 0
    ensures a * p > 0 && x / (a * p) == y / p
  {
    var q, r := y / p, y % p;
    DivMod(y, p);
    TwoRemainders(x, a, y, s, p, q, r);
    QuotientIs(x, a * p, q, a * r + s);
  }
}
