/**
 wNAF_recode: the width-w non-adjacent form of a 64-bit scalar, written into 65 digits.
 The digits are shown to be a representation of the scalar, and the only one of its kind.
 */
module Wnaf {
  import opened Powers

  /** The number that a list of signed digits stands for, least significant digit first. */
  function Value(s: seq<int>): int {
    if s == [] then 0 else s[0] + 2 * Value(s[1..])
  }

  /** Every nonzero digit is odd and below 2^(w-1) in magnitude. */
  ghost predicate DigitsInRange(s: seq<int>, w: nat)
    requires w > 0
  {
    forall i :: 0 <= i < |s| && s[i] != 0 ==> s[i] % 2 == 1 && -Exp2(w - 1) < s[i] < Exp2(w - 1)
  }

  /** At most one of any w consecutive digits is nonzero. */
  ghost predicate Sparse(s: seq<int>, w: nat) {
    forall i, j :: 0 <= i < j < |s| && s[i] != 0 && s[j] != 0 ==> j - i >= w
  }

  function Zeros(n: nat): (z: seq<int>)
    ensures |z| == n
  {
    seq(n, _ => 0)
  }

  lemma {:induction false} ValueOfZeros(n: nat)
    ensures Value(Zeros(n)) == 0
  {
    if n > 0 {
      ValueOfZeros(n - 1);
      assert Zeros(n)[1..] == Zeros(n - 1);
    }
  }

  lemma {:induction false} ValueAppend(s: seq<int>, t: seq<int>)
    ensures Value(s + t) == Value(s) + Exp2(|s|) * Value(t)
  {
    if s == [] {
      assert s + t == t;
    } else {
      ValueAppend(s[1..], t);
      assert (s + t)[1..] == s[1..] + t;
      MulAssoc(2, Exp2(|s| - 1), Value(t));
    }
  }

  lemma {:induction false} ValueWithDigit(s: seq<int>, d: int, n: nat)
    ensures Value(s + [d] + Zeros(n)) == Value(s) + Exp2(|s|) * d
  {
    ValueAppend(s + [d], Zeros(n));
    ValueOfZeros(n);
    ValueAppend(s, [d]);
    assert Value([d]) == d;
  }

  // ----- One odd step -----

  /** The signed digit that is taken from an odd scalar, and the scalar that remains. */
  function OddDigit(s: nat, w: nat): int
    requires w > 0
  {
    var d := s % Exp2(w);
    if d > Exp2(w - 1) - 1 then d - Exp2(w) else d
  }

  function OddRest(s: nat, w: nat): nat
    requires w > 0
  {
    s / Exp2(w) + (if OddDigit(s, w) < 0 then 1 else 0)
  }

  lemma OddStep(s: nat, w: nat)
    requires w >= 2 && s % 2 == 1
    ensures s == OddRest(s, w) * Exp2(w) + OddDigit(s, w)
    ensures OddDigit(s, w) % 2 == 1 && -Exp2(w - 1) < OddDigit(s, w) < Exp2(w - 1)
  {
    var p, h := Exp2(w), Exp2(w - 1);
    var q, d := s / p, s % p;
    DivMod(s, p);
    MulLeft(p, q, 1);
    OddRemainder(s, h, q, d);
    assert h == 2 * Exp2(w - 2);
  }

  lemma OddRemainder(s: int, h: int, q: int, d: int)
    requires s == (2 * h) * q + d && s % 2 == 1
    ensures d % 2 == 1
  {
    MulAssoc(2, h, q);
  }

  /** What is left of the scalar after an odd digit still fits above the digits written. */
  lemma OddRestFits(s: nat, w: nat, k: nat)
    requires 2 <= w && s % 2 == 1 && s <= Exp2(k)
    ensures OddRest(s, w) > 0 ==> w <= k && OddRest(s, w) <= Exp2(k - w)
  {
    OddStep(s, w);
    var p, r := Exp2(w), OddRest(s, w);
    if r > 0 {
      MulMonotone(1, r, p);
      if k < w {
        Exp2Monotone(k, w - 1);
      } else {
        Exp2Add(k - w, w);
        MultiplesCompare(r, Exp2(k - w), p);
      }
    }
  }

  // ----- The loop -----

  /** The digits written so far, and what remains to be written. */
  ghost predicate Recoded(scalar: nat, written: seq<int>, rest: nat, w: nat)
    requires w > 0
  {
    && Value(written) + Exp2(|written|) * rest == scalar
    && DigitsInRange(written, w) && Sparse(written, w)
    && (rest > 0 ==> |written| <= 64 && rest <= Exp2(64 - |written|)
                     && forall i :: 0 <= i < |written| && written[i] != 0 ==> |written| - i >= w)
  }

  lemma EvenStepRecodes(scalar: nat, written: seq<int>, rest: nat, w: nat)
    requires w > 0 && Recoded(scalar, written, rest, w) && rest > 0 && rest % 2 == 0
    ensures |written| <= 63 && Recoded(scalar, written + [0], rest / 2, w)
  {
    ValueWithDigit(written, 0, 0);
    assert written + [0] + Zeros(0) == written + [0];
    MulAssoc(Exp2(|written|), 2, rest / 2);
    MulAssoc(2, Exp2(|written|), rest / 2);
    assert Exp2(64 - |written|) == 2 * Exp2(63 - |written|);
  }

  lemma {:induction false} OddStepValue(scalar: nat, written: seq<int>, rest: nat, w: nat, n: nat)
    requires 2 <= w && rest % 2 == 1 && Value(written) + Exp2(|written|) * rest == scalar
    requires n == if OddRest(rest, w) > 0 then w - 1 else 0
    ensures var t := written + [OddDigit(rest, w)] + Zeros(n); Value(t) + Exp2(|t|) * OddRest(rest, w) == scalar
  {
    var d, r, m := OddDigit(rest, w), OddRest(rest, w), Exp2(|written|);
    OddStep(rest, w);
    ValueWithDigit(written, d, n);
    MulLeft(m, r * Exp2(w), d);
    if r > 0 {
      Exp2Add(|written|, w);
      MulAssoc(m, Exp2(w), r);
    }
    hide Value, OddDigit, OddRest, Exp2;
  }

  lemma {:induction false} OddStepDigits(written: seq<int>, d: int, n: nat, w: nat)
    requires w > 0 && DigitsInRange(written, w) && Sparse(written, w)
    requires forall i :: 0 <= i < |written| && written[i] != 0 ==> |written| - i >= w
    requires d % 2 == 1 && -Exp2(w - 1) < d < Exp2(w - 1)
    ensures var t := written + [d] + Zeros(n);
      && DigitsInRange(t, w) && Sparse(t, w)
      && (n == w - 1 ==> forall i :: 0 <= i < |t| && t[i] != 0 ==> |t| - i >= w)
  {
  }

  lemma OddStepRecodes(scalar: nat, written: seq<int>, rest: nat, w: nat)
    requires 2 <= w && Recoded(scalar, written, rest, w) && rest % 2 == 1
    ensures |written| <= 64
    ensures var r := OddRest(rest, w); var n := if r > 0 then w - 1 else 0;
      && (r > 0 ==> |written| + w <= 64)
      && Recoded(scalar, written + [OddDigit(rest, w)] + Zeros(n), r, w)
  {
    var n := if OddRest(rest, w) > 0 then w - 1 else 0;
    hide Value, OddDigit, OddRest, Exp2, DigitsInRange, Sparse;
    OddStep(rest, w);
    OddRestFits(rest, w, 64 - |written|);
    OddStepValue(scalar, written, rest, w, n);
    OddStepDigits(written, OddDigit(rest, w), n, w);
  }

  lemma RecodedStart(scalar: nat, w: nat)
    requires scalar < Exp2(64) && w > 0
    ensures Recoded(scalar, [], scalar, w)
  {
  }

  lemma RecodedEnd(scalar: nat, written: seq<int>, w: nat, n: nat)
    requires w >= 2 && Recoded(scalar, written, 0, w)
    ensures var s := written + Zeros(n); Value(s) == scalar && DigitsInRange(s, w) && Sparse(s, w)
  {
    ValueAppend(written, Zeros(n));
    ValueOfZeros(n);
  }

  /** n zero digits from `from` on. */
  method WriteZeros(digits: array<int>, from: nat, n: nat)
    requires from + n <= digits.Length
    modifies digits
    ensures digits[..from + n] == old(digits[..from]) + Zeros(n)
  {
    for i := 0 to n
      invariant digits[..from + i] == old(digits[..from]) + Zeros(i)
    {
      digits[from + i] := 0;
    }
  }

  /** The digits of a 64-bit scalar, for every window width that the digit type can hold. */
  method Recode(scalar: nat, w: nat, digits: array<int>)
    requires scalar < Exp2(64) && 2 <= w <= 8 && digits.Length == 65
    modifies digits
    ensures Value(digits[..]) == scalar
    ensures DigitsInRange(digits[..], w) && Sparse(digits[..], w)
  {
    hide Recoded, Value, OddDigit, OddRest, DigitsInRange, Sparse, Exp2, Zeros;
    RecodedStart(scalar, w);
    var rest := scalar;
    var index := 0;
    assert digits[..0] == [];
    while rest != 0
      invariant index <= 65
      invariant Recoded(scalar, digits[..index], rest, w)
      decreases rest
    {
      ghost var written := digits[..index];
      if rest % 2 == 0 {
        EvenStepRecodes(scalar, written, rest, w);
        rest := rest / 2;
        digits[index] := 0;
        index := index + 1;
        assert digits[..index] == written + [0];
      } else {
        OddStepRecodes(scalar, written, rest, w);
        OddRestShrinks(rest, w);
        var digit := OddDigit(rest, w);
        rest := OddRest(rest, w);
        digits[index] := digit;
        index := index + 1;
        assert digits[..index] == written + [digit];
        var padding := if rest != 0 then w - 1 else 0;
        WriteZeros(digits, index, padding);
        index := index + padding;
      }
    }
    RecodedEnd(scalar, digits[..index], w, 65 - index);
    WriteZeros(digits, index, 65 - index);
    assert digits[..] == digits[..65];
  }

  lemma OddRestShrinks(s: nat, w: nat)
    requires w >= 2 && s % 2 == 1
    ensures OddRest(s, w) < s
  {
    OddStep(s, w);
    var p := Exp2(w);
    assert p == 2 * Exp2(w - 1) && Exp2(w - 1) == 2 * Exp2(w - 2);
    MulMonotone(4, p, OddRest(s, w));
    if OddRest(s, w) > 0 && OddDigit(s, w) < 0 {
      MulLeft(p, OddRest(s, w), -1);
      MulMonotone(0, OddRest(s, w) - 1, p - 2);
      MulLeft(OddRest(s, w) - 1, p, -2);
    }
  }

  // ----- Uniqueness -----

  lemma {:induction false} LeadingZeros(s: seq<int>, n: nat)
    requires n <= |s| && forall i :: 0 <= i < n ==> s[i] == 0
    ensures Value(s) == Exp2(n) * Value(s[n..])
  {
    assert s == Zeros(n) + s[n..];
    ValueAppend(Zeros(n), s[n..]);
    ValueOfZeros(n);
  }

  /** A digit followed by w - 1 zeros is what the digits from w on leave of the value. */
  lemma {:induction false} FirstDigit(s: seq<int>, w: nat)
    requires 1 <= w <= |s| && forall i :: 1 <= i < w ==> s[i] == 0
    ensures s[0] == Value(s) - Exp2(w) * Value(s[w..])
  {
    assert Value(s) == s[0] + 2 * Value(s[1..]) && Exp2(w) == 2 * Exp2(w - 1);
    assert s[1..][w - 1..] == s[w..];
    hide Value, Exp2;
    LeadingZeros(s[1..], w - 1);
    MulAssoc(2, Exp2(w - 1), Value(s[w..]));
  }

  /** A sparse representation of an odd number starts with a digit; of an even number, with zero. */
  lemma {:induction false} FirstDigitKind(s: seq<int>, w: nat)
    requires 2 <= w && s != [] && DigitsInRange(s, w) && Sparse(s, w)
    ensures s[0] == 0 <==> Value(s) % 2 == 0
    ensures -Exp2(w - 1) < s[0] < Exp2(w - 1)
    ensures s[0] != 0 ==> forall i :: 1 <= i < w && i < |s| ==> s[i] == 0
  {
  }

  /** Two numbers closer together than m that differ by a multiple of m are equal. */
  lemma CloseMultiples(a: int, b: int, x: int, y: int, m: int)
    requires m > 0 && a + m * x == b + m * y && -m < a - b < m
    ensures a == b && x == y
  {
    MulLeft(m, y, x);
    if x > y {
      MulMonotone(1, x - y, m);
      MulLeft(m, x, y);
    } else if x < y {
      MulMonotone(1, y - x, m);
    }
  }

  /** The digits are determined by the scalar: no other sparse digits in range have the same value. */
  lemma {:induction false} Unique(s: seq<int>, t: seq<int>, w: nat)
    requires w >= 2 && |s| == |t| && Value(s) == Value(t)
    requires DigitsInRange(s, w) && Sparse(s, w) && DigitsInRange(t, w) && Sparse(t, w)
    ensures s == t
    decreases |s|
  {
    if s != [] {
      SameFirstDigit(s, t, w);
      Unique(s[1..], t[1..], w);
      assert s == [s[0]] + s[1..] && t == [t[0]] + t[1..];
    }
  }

  lemma {:induction false} PaddedDigits(s: seq<int>, w: nat)
    requires w >= 2 && DigitsInRange(s, w) && Sparse(s, w)
    ensures var p := s + Zeros(w); Value(p) == Value(s) && DigitsInRange(p, w) && Sparse(p, w)
  {
    ValueAppend(s, Zeros(w));
    ValueOfZeros(w);
  }

  lemma {:induction false} SameFirstDigit(s: seq<int>, t: seq<int>, w: nat)
    requires w >= 2 && |s| == |t| > 0 && Value(s) == Value(t)
    requires DigitsInRange(s, w) && Sparse(s, w) && DigitsInRange(t, w) && Sparse(t, w)
    ensures s[0] == t[0]
  {
    // Padding with zeros makes both long enough for FirstDigit.
    var s', t' := s + Zeros(w), t + Zeros(w);
    assert |s'| >= w && |t'| >= w && s'[0] == s[0] && t'[0] == t[0] && Exp2(w) == 2 * Exp2(w - 1);
    hide Value, Exp2, DigitsInRange, Sparse, Zeros;
    PaddedDigits(s, w);
    PaddedDigits(t, w);
    FirstDigitKind(s', w);
    FirstDigitKind(t', w);
    if s[0] != 0 {
      FirstDigit(s', w);
      FirstDigit(t', w);
      CloseMultiples(s[0], t[0], Value(s'[w..]), Value(t'[w..]), Exp2(w));
    }
  }
}
