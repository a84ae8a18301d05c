/**
 The 60-letter identity of a 256-bit public key: four groups of 14 base-26 digits, least
 significant first, and four letters of checksum. A key is its four 64-bit words; the hash
 that gives the checksum is a parameter.
 */
module Identity {
  import opened Options
  import opened Powers

  const WORD := 0x1_0000_0000_0000_0000
  const CHECKSUM := 0x40000

  type Word = x: nat | x < WORD
  datatype Key = Key(w0: Word, w1: Word, w2: Word, w3: Word)

  // ----- Base 26 -----

  function Digits(x: nat, n: nat): (d: seq<nat>)
    ensures |d| == n && forall i :: 0 <= i < n ==> d[i] < 26
  {
    if n == 0 then [] else [x % 26] + Digits(x / 26, n - 1)
  }

  function Value(d: seq<nat>): nat {
    if d == [] then 0 else d[0] + 26 * Value(d[1..])
  }

  function Exp26(n: nat): (p: nat)
    ensures p > 0
  {
    if n == 0 then 1 else 26 * Exp26(n - 1)
  }

  ghost predicate AreDigits(d: seq<nat>) {
    forall i :: 0 <= i < |d| ==> d[i] < 26
  }

  lemma {:induction false} ValueOfDigits(x: nat, n: nat)
    requires x < Exp26(n)
    ensures Value(Digits(x, n)) == x
  {
    if n > 0 {
      ValueOfDigits(x / 26, n - 1);
    }
  }

  lemma {:induction false} DigitsOfValue(d: seq<nat>)
    requires AreDigits(d)
    ensures Digits(Value(d), |d|) == d && Value(d) < Exp26(|d|)
  {
    if d != [] {
      DigitsOfValue(d[1..]);
    }
  }

  /** Every 64-bit word has 14 digits, but 14 digits can go beyond 64 bits. */
  lemma WordFits()
    ensures WORD < Exp26(14)
  {
  }

  // ----- Text -----

  function Letter(d: nat, lower: bool): char
    requires d < 26
  {
    ((if lower then 'a' else 'A') as int + d) as char
  }

  function Letters(d: seq<nat>, lower: bool): (s: string)
    requires forall i :: 0 <= i < |d| ==> d[i] < 26
    ensures |s| == |d|
  {
    seq(|d|, i requires 0 <= i < |d| => Letter(d[i], lower))
  }

  predicate IsUpper(c: char) {
    'A' <= c <= 'Z'
  }

  function DigitOf(c: char): nat
    requires IsUpper(c)
  {
    (c as int - 'A' as int) as nat
  }

  /** The digits of a group of letters. */
  function DigitsOf(s: string): (d: seq<nat>)
    requires forall i :: 0 <= i < |s| ==> IsUpper(s[i])
    ensures |d| == |s|
  {
    seq(|s|, i requires 0 <= i < |s| => DigitOf(s[i]))
  }

  lemma LettersBack(d: seq<nat>)
    requires AreDigits(d)
    ensures forall i :: 0 <= i < |d| ==> IsUpper(Letters(d, false)[i])
    ensures DigitsOf(Letters(d, false)) == d
  {
  }

  lemma DigitsBack(s: string)
    requires forall i :: 0 <= i < |s| ==> IsUpper(s[i])
    ensures AreDigits(DigitsOf(s)) && Letters(DigitsOf(s), false) == s
  {
  }

  function WordText(x: Word, lower: bool): (s: string)
    ensures |s| == 14
  {
    Letters(Digits(x, 14), lower)
  }

  function ChecksumText(sum: nat, lower: bool): (s: string)
    ensures |s| == 4
  {
    Letters(Digits(sum % CHECKSUM, 4), lower)
  }

  function Encode(hash: Key -> nat, k: Key, lower: bool): (id: string)
    ensures |id| == 60
  {
    WordText(k.w0, lower) + WordText(k.w1, lower) + WordText(k.w2, lower) + WordText(k.w3, lower)
    + ChecksumText(hash(k), lower)
  }

  function Group(id: string, i: nat): string
    requires |id| == 60 && i < 4
  {
    id[14 * i..14 * i + 14]
  }

  predicate AllUpper(id: string)
    requires |id| == 60
  {
    forall j :: 0 <= j < 56 ==> IsUpper(id[j])
  }

  function GroupValue(id: string, i: nat): nat
    requires |id| == 60 && i < 4 && AllUpper(id)
  {
    Value(DigitsOf(Group(id, i)))
  }

  /** The key a text decodes to: each group is taken modulo 2^64. */
  function Decode(id: string): Option<Key>
    requires |id| == 60
  {
    if AllUpper(id) then
      Some(Key(GroupValue(id, 0) % WORD, GroupValue(id, 1) % WORD,
               GroupValue(id, 2) % WORD, GroupValue(id, 3) % WORD))
    else None
  }

  /** The text decodes and carries the checksum of the key it decodes to. */
  predicate Accepted(hash: Key -> nat, id: string)
    requires |id| == 60
  {
    var k := Decode(id);
    k.Some? && id[56..] == ChecksumText(hash(k.value), false)
  }

  /** No group goes beyond 64 bits. */
  predicate Canonical(id: string)
    requires |id| == 60 && AllUpper(id)
  {
    forall i: nat :: i < 4 ==> GroupValue(id, i) < WORD
  }

  // ----- Round trips -----

  lemma WordTextBack(x: Word)
    ensures forall i :: 0 <= i < 14 ==> IsUpper(WordText(x, false)[i])
    ensures Value(DigitsOf(WordText(x, false))) == x
  {
    WordFits();
    ValueOfDigits(x, 14);
    LettersBack(Digits(x, 14));
  }

  lemma GroupsOfEncode(hash: Key -> nat, k: Key, lower: bool)
    ensures var id := Encode(hash, k, lower);
      && Group(id, 0) == WordText(k.w0, lower) && Group(id, 1) == WordText(k.w1, lower)
      && Group(id, 2) == WordText(k.w2, lower) && Group(id, 3) == WordText(k.w3, lower)
      && id[56..] == ChecksumText(hash(k), lower)
      && id[..56] == Group(id, 0) + Group(id, 1) + Group(id, 2) + Group(id, 3)
  {
  }

  /** Decoding gives back the encoded key, and its checksum is accepted. */
  lemma EncodeDecode(hash: Key -> nat, k: Key)
    ensures Decode(Encode(hash, k, false)) == Some(k)
    ensures Accepted(hash, Encode(hash, k, false)) && Canonical(Encode(hash, k, false))
  {
    hide WordText, ChecksumText, DigitsOf, Value, Encode;
    GroupsOfEncode(hash, k, false);
    WordTextBack(k.w0);
    WordTextBack(k.w1);
    WordTextBack(k.w2);
    WordTextBack(k.w3);
    var id := Encode(hash, k, false);
    forall j | 0 <= j < 56
      ensures IsUpper(id[j])
    {
      assert id[j] == Group(id, j / 14)[j % 14];
    }
  }

  /** Two keys with the same text, in either case, are the same key. */
  lemma EncodeInjective(hash: Key -> nat, k: Key, k': Key, lower: bool)
    requires Encode(hash, k, lower)[..56] == Encode(hash, k', lower)[..56]
    ensures k == k'
  {
    hide WordText, ChecksumText, Encode;
    GroupsOfEncode(hash, k, lower);
    GroupsOfEncode(hash, k', lower);
    var id, id' := Encode(hash, k, lower), Encode(hash, k', lower);
    forall i: nat | i < 4
      ensures Group(id, i) == Group(id', i)
    {
      assert id[..56][14 * i..14 * i + 14] == Group(id, i);
      assert id'[..56][14 * i..14 * i + 14] == Group(id', i);
    }
    WordTextInjective(k.w0, k'.w0, lower);
    WordTextInjective(k.w1, k'.w1, lower);
    WordTextInjective(k.w2, k'.w2, lower);
    WordTextInjective(k.w3, k'.w3, lower);
  }

  lemma WordTextInjective(x: Word, y: Word, lower: bool)
    requires WordText(x, lower) == WordText(y, lower)
    ensures x == y
  {
    var d, e := Digits(x, 14), Digits(y, 14);
    forall i | 0 <= i < 14
      ensures d[i] == e[i]
    {
      assert Letters(d, lower)[i] == Letters(e, lower)[i];
    }
    assert d == e;
    WordFits();
    ValueOfDigits(x, 14);
    ValueOfDigits(y, 14);
  }

  /** A lower-case text is never decoded. */
  lemma LowerCaseRejected(hash: Key -> nat, k: Key)
    ensures Decode(Encode(hash, k, true)).None?
  {
  }

  lemma GroupBack(id: string, i: nat)
    requires |id| == 60 && i < 4 && AllUpper(id) && GroupValue(id, i) < WORD
    ensures WordText(GroupValue(id, i), false) == Group(id, i)
  {
    DigitsBack(Group(id, i));
    DigitsOfValue(DigitsOf(Group(id, i)));
  }

  /** An accepted text is the text of its key exactly when no group goes beyond 64 bits. */
  lemma DecodeEncode(hash: Key -> nat, id: string)
    requires |id| == 60 && Accepted(hash, id)
    ensures Encode(hash, Decode(id).value, false) == id <==> Canonical(id)
  {
    hide WordText, ChecksumText, DigitsOf, Value;
    var k := Decode(id).value;
    if Canonical(id) {
      assert GroupValue(id, 0) == k.w0 && GroupValue(id, 1) == k.w1
          && GroupValue(id, 2) == k.w2 && GroupValue(id, 3) == k.w3;
      GroupBack(id, 0);
      GroupBack(id, 1);
      GroupBack(id, 2);
      GroupBack(id, 3);
      assert id == Group(id, 0) + Group(id, 1) + Group(id, 2) + Group(id, 3) + id[56..];
    } else {
      EncodeDecode(hash, k);
    }
  }

  /** A text whose first group spells any x that is the first word of k modulo 2^64. */
  function Respelled(hash: Key -> nat, k: Key, x: nat): (id: string)
    ensures |id| == 60
  {
    Letters(Digits(x, 14), false)
    + WordText(k.w1, false) + WordText(k.w2, false) + WordText(k.w3, false)
    + ChecksumText(hash(k), false)
  }

  lemma RespelledAccepted(hash: Key -> nat, k: Key, x: nat)
    requires x < Exp26(14) && x % WORD == k.w0
    ensures Accepted(hash, Respelled(hash, k, x)) && Decode(Respelled(hash, k, x)) == Some(k)
    ensures AllUpper(Respelled(hash, k, x)) && GroupValue(Respelled(hash, k, x), 0) == x
  {
    hide WordText, ChecksumText, DigitsOf, Value, Letters, Digits, Exp26, Letter, DigitOf;
    var id := Respelled(hash, k, x);
    ValueOfDigits(x, 14);
    LettersBack(Digits(x, 14));
    WordTextBack(k.w1);
    WordTextBack(k.w2);
    WordTextBack(k.w3);
    assert Group(id, 0) == Letters(Digits(x, 14), false) && Group(id, 1) == WordText(k.w1, false)
        && Group(id, 2) == WordText(k.w2, false) && Group(id, 3) == WordText(k.w3, false);
    forall j | 0 <= j < 56
      ensures IsUpper(id[j])
    {
      assert id[j] == Group(id, j / 14)[j % 14];
    }
    assert id[56..] == ChecksumText(hash(k), false);
  }

  /** The text of a key is not its only accepted one: the first group of the zero key can spell 2^64. */
  lemma SecondText(hash: Key -> nat)
    ensures var zero := Key(0, 0, 0, 0);
      && Accepted(hash, Respelled(hash, zero, WORD))
      && Decode(Respelled(hash, zero, WORD)) == Some(zero)
      && Respelled(hash, zero, WORD) != Encode(hash, zero, false)
  {
    hide Respelled, Encode, Accepted, Decode, GroupValue;
    var zero := Key(0, 0, 0, 0);
    WordFits();
    RespelledAccepted(hash, zero, WORD);
    NotCanonical(hash, Respelled(hash, zero, WORD), WORD);
  }

  lemma NotCanonical(hash: Key -> nat, id: string, x: nat)
    requires |id| == 60 && Accepted(hash, id) && AllUpper(id) && GroupValue(id, 0) == x >= WORD
    ensures Encode(hash, Decode(id).value, false) != id
  {
    DecodeEncode(hash, id);
    assert !Canonical(id);
  }

  // ----- The loops -----

  function WordOf(k: Key, i: nat): Word
    requires i < 4
  {
    if i == 0 then k.w0 else if i == 1 then k.w1 else if i == 2 then k.w2 else k.w3
  }

  /** The digits of x, then what is left of it, are the digits of the whole. */
  lemma {:induction false} DigitsSnoc(x: nat, n: nat)
    ensures Digits(x, n + 1) == Digits(x, n) + [Quotient(x, n) % 26]
  {
    if n > 0 {
      DigitsSnoc(x / 26, n - 1);
      QuotientInner(x, n - 1);
    }
  }

  function Quotient(x: nat, n: nat): nat {
    if n == 0 then x else Quotient(x, n - 1) / 26
  }

  lemma {:induction false} QuotientInner(x: nat, n: nat)
    ensures Quotient(x / 26, n) == Quotient(x, n + 1)
  {
    if n > 0 {
      QuotientInner(x, n - 1);
    }
  }

  /** Writes the letters of the lowest n digits of x from position at on. */
  method WriteLetters(identity: array<char>, at: nat, x: nat, n: nat, isLowerCase: bool)
    requires at + n <= identity.Length
    modifies identity
    ensures identity[..at] == old(identity[..at]) && identity[at + n..] == old(identity[at + n..])
    ensures identity[at..at + n] == Letters(Digits(x, n), isLowerCase)
  {
    hide Digits, Letter;
    var fragment := x;
    for j := 0 to n
      invariant fragment == Quotient(x, j)
      invariant identity[..at] == old(identity[..at]) && identity[at + n..] == old(identity[at + n..])
      invariant identity[at..at + j] == Letters(Digits(x, j), isLowerCase)
    {
      DigitsSnoc(x, j);
      identity[at + j] := Letter(fragment % 26, isLowerCase);
      fragment := fragment / 26;
    }
  }

  /** getIdentityFromPublicKey */
  method GetIdentity(hash: Key -> nat, k: Key, isLowerCase: bool) returns (id: string)
    ensures id == Encode(hash, k, isLowerCase)
  {
    hide Letters, Digits;
    var identity := new char[60];
    for i := 0 to 4
      invariant forall g: nat :: g < i ==> Group(identity[..], g) == WordText(WordOf(k, g), isLowerCase)
    {
      ghost var before := identity[..];
      WriteLetters(identity, 14 * i, WordOf(k, i), 14, isLowerCase);
      forall g: nat | g < i
        ensures Group(identity[..], g) == Group(before, g)
      {
        assert Group(identity[..], g) == identity[..14 * i][14 * g..14 * g + 14];
        assert Group(before, g) == before[..14 * i][14 * g..14 * g + 14];
      }
    }
    ghost var words := identity[..];
    WriteLetters(identity, 56, hash(k) % CHECKSUM, 4, isLowerCase);
    id := identity[..];
    assert id[..56] == words[..56];
    assert words[..56] == Group(words, 0) + Group(words, 1) + Group(words, 2) + Group(words, 3);
    assert identity[56..60] == id[56..60] == ChecksumText(hash(k), isLowerCase);
    assert id == id[..56] + id[56..60];
  }

  /** One group, most significant letter first, in 64-bit arithmetic; fails on the first other character. */
  method ReadWord(id: string, i: nat) returns (r: Option<Word>)
    requires |id| == 60 && i < 4
    ensures r.Some? <==> forall j :: 14 * i <= j < 14 * i + 14 ==> IsUpper(id[j])
    ensures r.Some? ==> r.value == Value(DigitsOf(Group(id, i))) % WORD
  {
    hide DigitOf, DigitsOf;
    var word: Word := 0;
    var j := 14;
    while j > 0
      invariant 0 <= j <= 14
      invariant forall l :: 14 * i + j <= l < 14 * i + 14 ==> IsUpper(id[l])
      invariant word == Value(DigitsOf(id[14 * i + j..14 * i + 14])) % WORD
    {
      j := j - 1;
      if id[14 * i + j] < 'A' || id[14 * i + j] > 'Z' {
        return None;
      }
      HornerStep(id[14 * i + j..14 * i + 14], word);
      assert id[14 * i + j..14 * i + 14][1..] == id[14 * i + j + 1..14 * i + 14];
      word := (word * 26 + DigitOf(id[14 * i + j])) % WORD;
    }
    return Some(word);
  }

  lemma HornerStep(s: string, word: nat)
    requires s != "" && forall i :: 0 <= i < |s| ==> IsUpper(s[i])
    requires word == Value(DigitsOf(s[1..])) % WORD
    ensures (word * 26 + DigitOf(s[0])) % WORD == Value(DigitsOf(s)) % WORD
  {
    assert DigitsOf(s)[1..] == DigitsOf(s[1..]);
    var v := Value(DigitsOf(s[1..]));
    WrapStep(v, DigitOf(s[0]));
  }

  lemma WrapStep(v: nat, d: nat)
    ensures (v % WORD * 26 + d) % WORD == (d + 26 * v) % WORD
  {
  }

  /** getPublicKeyFromIdentity; on None the caller's key is left as it was. */
  method GetPublicKey(id: string) returns (r: Option<Key>)
    requires |id| == 60
    ensures r == Decode(id)
  {
    hide DigitsOf, Value;
    var w0 := ReadWord(id, 0);
    if w0.None? { return None; }
    var w1 := ReadWord(id, 1);
    if w1.None? { return None; }
    var w2 := ReadWord(id, 2);
    if w2.None? { return None; }
    var w3 := ReadWord(id, 3);
    if w3.None? { return None; }
    forall j | 0 <= j < 56
      ensures IsUpper(id[j])
    {
      assert 14 * (j / 14) <= j < 14 * (j / 14) + 14 && 0 <= j / 14 < 4;
    }
    return Some(Key(w0.value, w1.value, w2.value, w3.value));
  }

  /** checkSumIdentity */
  method CheckSumIdentity(hash: Key -> nat, id: string) returns (ok: bool)
    requires |id| == 60
    ensures ok == Accepted(hash, id)
  {
    hide Digits, Letter, Decode;
    var r := GetPublicKey(id);
    if r.None? {
      return false;
    }
    var sum := hash(r.value) % CHECKSUM;
    var left := sum;
    ghost var expected := ChecksumText(hash(r.value), false);
    for i := 0 to 4
      invariant left == Quotient(sum, i)
      invariant forall j :: 0 <= j < i ==> id[56 + j] == expected[j]
    {
      DigitAt(sum, 4, i);
      if Letter(left % 26, false) != id[56 + i] {
        assert id[56..][i] != expected[i];
        return false;
      }
      left := left / 26;
    }
    assert id[56..] == expected;
    return true;
  }

  lemma {:induction false} DigitAt(x: nat, n: nat, i: nat)
    requires i < n
    ensures Digits(x, n)[i] == Quotient(x, i) % 26
  {
    if i > 0 {
      DigitAt(x / 26, n - 1, i - 1);
      QuotientInner(x, i - 1);
    }
  }

  // ----- The letters one by one -----

  /** The number that a letter stands for in a text of this case. */
  function NumberOf(c: char, lower: bool): int {
    c as int - if lower then 97 else 65
  }

  lemma {:induction false} QuotientIsPower(x: nat, n: nat)
    ensures Quotient(x, n) == x / Exp26(n)
  {
    if n > 0 {
      QuotientIsPower(x, n - 1);
      DivideTwice(x, Exp26(n - 1), 26);
    }
  }

  /** Letter j of a group is the base-26 digit of weight 26^j of its word. */
  lemma {:induction false} LetterIsDigit(hash: Key -> nat, k: Key, lower: bool, i: nat, j: nat)
    requires i < 4 && j < 14
    ensures NumberOf(Encode(hash, k, lower)[14 * i + j], lower) == WordOf(k, i) / Exp26(j) % 26
  {
    hide Digits, Quotient, Exp26;
    var x := WordOf(k, i);
    DigitAt(x, 14, j);
    QuotientIsPower(x, j);
    assert Encode(hash, k, lower)[14 * i + j] == WordText(x, lower)[j];
  }

  /** Four letters that stand for this number, least significant digit first. */
  predicate Spell(s: string, lower: bool, x: nat) {
    && |s| == 4 && (forall i :: 0 <= i < 4 ==> 0 <= NumberOf(s[i], lower) < 26)
    && NumberOf(s[0], lower) + 26 * NumberOf(s[1], lower) + 676 * NumberOf(s[2], lower)
         + 17576 * NumberOf(s[3], lower) == x
  }

  lemma {:induction false} FourDigits(x: nat)
    ensures Digits(x, 4) == [x % 26, x / 26 % 26, x / 26 / 26 % 26, x / 26 / 26 / 26 % 26]
  {
    assert Digits(x, 4) == [x % 26] + Digits(x / 26, 3);
    assert Digits(x / 26, 3) == [x / 26 % 26] + Digits(x / 26 / 26, 2);
    assert Digits(x / 26 / 26, 2) == [x / 26 / 26 % 26] + Digits(x / 26 / 26 / 26, 1);
  }

  lemma FourDigitsOf(x: nat)
    requires x < 262144
    ensures x == x % 26 + 26 * (x / 26 % 26) + 676 * (x / 26 / 26 % 26) + 17576 * (x / 26 / 26 / 26 % 26)
  {
    var y := x / 26;
    var z := y / 26;
    assert x == 26 * y + x % 26 && y == 26 * z + y % 26;
  }

  lemma ChecksumSpells(sum: nat, lower: bool)
    ensures Spell(ChecksumText(sum, lower), lower, sum % 262144)
  {
    hide Digits;
    FourDigits(sum % CHECKSUM);
    FourDigitsOf(sum % CHECKSUM);
  }

  /** The last four letters are the low 18 bits of the hash in base 26, least significant digit first. */
  lemma ChecksumLetters(hash: Key -> nat, k: Key, lower: bool)
    ensures Spell(Encode(hash, k, lower)[56..], lower, hash(k) % 262144)
  {
    hide ChecksumText, Spell, WordText;
    ChecksumSpells(hash(k), lower);
    assert Encode(hash, k, lower)[56..] == ChecksumText(hash(k), lower);
  }

  /** A text passes exactly if it decodes and its last four letters are those 18 bits of the hash of its key. */
  lemma AcceptedMeans(hash: Key -> nat, id: string)
    requires |id| == 60
    ensures Accepted(hash, id) <==>
      Decode(id).Some? && Spell(id[56..], false, hash(Decode(id).value) % 262144)
  {
    hide ChecksumText, Spell, Decode;
    if Decode(id).Some? {
      var k := Decode(id).value;
      ChecksumSpells(hash(k), false);
      SameFour(id[56..], ChecksumText(hash(k), false), hash(k) % 262144);
    }
  }

  lemma SameDigits(a: int, x: int, b: int, y: int)
    requires 0 <= a < 26 && 0 <= b < 26
    ensures a + 26 * x == b + 26 * y <==> a == b && x == y
  {
  }

  /** Four letters are the same exactly if they stand for the same number. */
  lemma SameFour(a: string, b: string, x: nat)
    requires |a| == 4 && Spell(b, false, x)
    ensures a == b <==> Spell(a, false, x)
  {
    hide NumberOf;
    if Spell(a, false, x) {
      var d := seq(4, i requires 0 <= i < 4 => NumberOf(a[i], false));
      var e := seq(4, i requires 0 <= i < 4 => NumberOf(b[i], false));
      SameDigits(d[0], d[1] + 26 * d[2] + 676 * d[3], e[0], e[1] + 26 * e[2] + 676 * e[3]);
      SameDigits(d[1], d[2] + 26 * d[3], e[1], e[2] + 26 * e[3]);
      SameDigits(d[2], d[3], e[2], e[3]);
      SameLetters(a, b);
    }
  }

  lemma SameLetters(a: string, b: string)
    requires |a| == |b|
    ensures a == b <==> forall i :: 0 <= i < |a| ==> NumberOf(a[i], false) == NumberOf(b[i], false)
  {
  }
}
