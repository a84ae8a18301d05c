/** Filling the index tick by tick, and searching it: the answer is that of a linear scan. */
module TopicSearch {
  import opened Powers
  import opened Identity
  import opened TopicIndex

  const ANY_TYPE := 0xffff_ffff

  // ----- What a search asks for -----

  /** A query text stands for one topic, or for any when it is the identity of zero. */
  predicate TopicMatches(h: Hashes, q: string, t: Key) {
    q == Wildcard(h) || (t != Zero() && q == Text(h, t))
  }

  predicate AllWild(h: Hashes, q1: string, q2: string, q3: string) {
    q1 == Wildcard(h) && q2 == Wildcard(h) && q3 == Wildcard(h)
  }

  /** A search that names no topic may leave the type open too. */
  predicate Matches(h: Hashes, e: Entry, sc: nat, logType: nat, q1: string, q2: string, q3: string) {
    && e.sc == sc && (e.logType == logType || (logType == ANY_TYPE && AllWild(h, q1, q2, q3)))
    && TopicMatches(h, q1, e.t1) && TopicMatches(h, q2, e.t2) && TopicMatches(h, q3, e.t3)
  }

  /** Contract 0 has no key of its own, and neither has its type 0, the plain transfers. */
  predicate Unindexed(h: Hashes, sc: nat, logType: nat, q1: string, q2: string, q3: string) {
    AllWild(h, q1, q2, q3) && sc == 0 && (logType == 0 || logType == ANY_TYPE)
  }

  function PartOf(h: Hashes, q: string): string {
    if q == Wildcard(h) then Any() else q
  }

  function SearchKey(h: Hashes, sc: nat, logType: nat, q1: string, q2: string, q3: string): string {
    if AllWild(h, q1, q2, q3) then
      if logType == ANY_TYPE then ContractKey(sc) else TypeKey(sc, logType)
    else TopicKey(sc, logType, PartOf(h, q1), PartOf(h, q2), PartOf(h, q3))
  }

  /** Between keys, a text matches as its key does. */
  lemma MatchesByKey(h: Hashes, k: Key, t: Key)
    ensures TopicMatches(h, Text(h, k), t) <==> k == Zero() || k == t
  {
    hide Encode;
    if Text(h, k) == Wildcard(h) {
      EncodeInjective(h.checksum, k, Zero(), true);
    }
    if Text(h, k) == Text(h, t) {
      EncodeInjective(h.checksum, k, t, true);
    }
  }

  // ----- One event, one key -----

  /** A part of a key, or a query text of the accepted length. */
  predicate PartSized(p: string) {
    |p| == 3 || |p| == 60
  }

  lemma FirstPart(p: string, r: string, q: string, r': string)
    requires NoColon(p) && PartSized(p) && PartSized(q)
    requires |p| == 3 ==> |r| <= 56 || r[56] != ':'
    requires p + ":" + r == q + ":" + r'
    ensures p == q && r == r'
  {
    var s := p + ":" + r;
    assert s[|p|] == ':' && s[|q|] == ':';
    assert |p| == 60 ==> s[3] == p[3];
    assert |p| == 3 && |r| > 56 ==> s[60] == r[56];
    assert p == s[..|p|] && q == s[..|q|] && r == s[|p| + 1..] && r' == s[|q| + 1..];
  }

  lemma RestHasNoColonThere(p: string, r: string)
    requires NoColon(p) && PartSized(p) && (|p| == 3 ==> NoColon(r) && PartSized(r))
    ensures var s := p + ":" + r; |s| <= 56 || s[56] != ':'
  {
  }

  /** A query text may hold anything, even colons: it still lines up with the parts of a key. */
  lemma PartsLineUp(sc: nat, logType: nat, p1: string, p2: string, p3: string,
                    sc': nat, logType': nat, q1: string, q2: string, q3: string)
    requires NoColon(p1) && NoColon(p2) && NoColon(p3) && PartSized(p1) && PartSized(p2) && PartSized(p3)
    requires PartSized(q1) && PartSized(q2)
    requires TopicKey(sc, logType, p1, p2, p3) == TopicKey(sc', logType', q1, q2, q3)
    ensures sc == sc' && logType == logType' && p1 == q1 && p2 == q2 && p3 == q3
  {
    hide NoColon, PartSized, Decimal;
    DecimalDigits(sc);
    DecimalDigits(sc');
    DecimalDigits(logType);
    DecimalDigits(logType');
    var r2, r2' := p2 + ":" + p3, q2 + ":" + q3;
    var r1, r1' := p1 + ":" + r2, q1 + ":" + r2';
    var r0, r0' := Decimal(logType) + ":" + r1, Decimal(logType') + ":" + r1';
    assert TopicKey(sc, logType, p1, p2, p3) == "indexed:" + (Decimal(sc) + ":" + r0);
    assert TopicKey(sc', logType', q1, q2, q3) == "indexed:" + (Decimal(sc') + ":" + r0');
    SamePrefix(Decimal(sc) + ":" + r0, Decimal(sc') + ":" + r0');
    SplitUnique(Decimal(sc), r0, Decimal(sc'), r0');
    SplitUnique(Decimal(logType), r1, Decimal(logType'), r1');
    RestHasNoColonThere(p2, p3);
    FirstPart(p1, r2, q1, r2');
    NotThere(p3);
    FirstPart(p2, p3, q2, q3);
    DecimalInjective(sc, sc');
    DecimalInjective(logType, logType');
  }

  lemma NotThere(p: string)
    requires NoColon(p)
    ensures |p| <= 56 || p[56] != ':'
  {
  }

  lemma PartForIsPart(h: Hashes, e: Entry, bits: nat, j: nat)
    requires j < 3
    ensures NoColon(PartFor(h, e, bits, j)) && PartSized(PartFor(h, e, bits, j))
  {
  }

  /** The bits of the topics that a query names. */
  function QueryBits(h: Hashes, q1: string, q2: string, q3: string): nat {
    (if q1 == Wildcard(h) then 0 else 1) + (if q2 == Wildcard(h) then 0 else 2)
    + (if q3 == Wildcard(h) then 0 else 4)
  }

  lemma PartMatches(h: Hashes, e: Entry, bits: nat, j: nat, q: string)
    requires j < 3 && |q| == 60
    ensures PartFor(h, e, bits, j) == PartOf(h, q) ==> TopicMatches(h, q, Topic(e, j))
    ensures (Bit(bits, j) <==> q != Wildcard(h)) && TopicMatches(h, q, Topic(e, j)) ==>
      PartFor(h, e, bits, j) == PartOf(h, q) && (q != Wildcard(h) ==> Named(e, bits, j))
  {
  }

  /** With a named topic, the key a search reads is one the event is entered under exactly if it matches. */
  lemma NamedKeyMeansMatch(h: Hashes, e: Entry, sc: nat, logType: nat, q1: string, q2: string, q3: string)
    requires |q1| == |q2| == |q3| == 60 && !AllWild(h, q1, q2, q3)
    ensures EnteredUnder(h, e, SearchKey(h, sc, logType, q1, q2, q3))
       <==> Matches(h, e, sc, logType, q1, q2, q3)
  {
    hide TopicKey, ContractKey, TypeKey, PartFor, PartOf, Wildcard, TopicMatches;
    var key := SearchKey(h, sc, logType, q1, q2, q3);
    TopicKeyIsLonger(sc, logType, PartOf(h, q1), PartOf(h, q2), PartOf(h, q3), e.sc, e.logType);
    if EnteredUnder(h, e, key) {
      var bits: nat :| 1 <= bits < 8 && AnyNamed(e, bits) && key == KeyFor(h, e, bits);
      EntryKeyMatches(h, e, bits, sc, logType, q1, q2, q3);
    }
    if Matches(h, e, sc, logType, q1, q2, q3) {
      MatchingKeyEntered(h, e, q1, q2, q3);
    }
  }

  lemma EntryKeyMatches(h: Hashes, e: Entry, bits: nat, sc: nat, logType: nat, q1: string, q2: string, q3: string)
    requires |q1| == |q2| == |q3| == 60
    requires KeyFor(h, e, bits) == TopicKey(sc, logType, PartOf(h, q1), PartOf(h, q2), PartOf(h, q3))
    ensures Matches(h, e, sc, logType, q1, q2, q3)
  {
    hide TopicKey, PartFor, Wildcard, TopicMatches, NoColon;
    PartForIsPart(h, e, bits, 0);
    PartForIsPart(h, e, bits, 1);
    PartForIsPart(h, e, bits, 2);
    PartsLineUp(e.sc, e.logType, PartFor(h, e, bits, 0), PartFor(h, e, bits, 1), PartFor(h, e, bits, 2),
                sc, logType, PartOf(h, q1), PartOf(h, q2), PartOf(h, q3));
    PartMatches(h, e, bits, 0, q1);
    PartMatches(h, e, bits, 1, q2);
    PartMatches(h, e, bits, 2, q3);
  }

  lemma MatchingKeyEntered(h: Hashes, e: Entry, q1: string, q2: string, q3: string)
    requires |q1| == |q2| == |q3| == 60 && !AllWild(h, q1, q2, q3)
    requires Matches(h, e, e.sc, e.logType, q1, q2, q3)
    ensures EnteredUnder(h, e, TopicKey(e.sc, e.logType, PartOf(h, q1), PartOf(h, q2), PartOf(h, q3)))
  {
    hide TopicKey, PartFor, PartOf, Wildcard, TopicMatches, Named;
    var bits := QueryBits(h, q1, q2, q3);
    PartMatches(h, e, bits, 0, q1);
    PartMatches(h, e, bits, 1, q2);
    PartMatches(h, e, bits, 2, q3);
    assert AnyNamed(e, bits);
    assert KeyFor(h, e, bits) == TopicKey(e.sc, e.logType, PartOf(h, q1), PartOf(h, q2), PartOf(h, q3));
  }

  // ----- Searches without a named topic -----

  lemma TypeKeyInjective(sc: nat, logType: nat, sc': nat, logType': nat)
    requires TypeKey(sc, logType) == TypeKey(sc', logType')
    ensures sc == sc' && logType == logType'
  {
    DecimalDigits(sc);
    DecimalDigits(sc');
    SamePrefix(Decimal(sc) + ":" + Decimal(logType), Decimal(sc') + ":" + Decimal(logType'));
    SplitUnique(Decimal(sc), Decimal(logType), Decimal(sc'), Decimal(logType'));
    DecimalInjective(sc, sc');
    DecimalInjective(logType, logType');
  }

  lemma ContractKeyIsShorter(sc: nat, sc': nat, logType: nat)
    ensures ContractKey(sc) != TypeKey(sc', logType)
  {
    DecimalDigits(sc);
    ColonInside(Decimal(sc'), Decimal(logType));
    if ContractKey(sc) == TypeKey(sc', logType) {
      SamePrefix(Decimal(sc), Decimal(sc') + ":" + Decimal(logType));
    }
  }

  /** Without a named topic only plain transfers, type 0 of contract 0, are never found by type. */
  lemma TypeSearchMeansType(h: Hashes, e: Entry, sc: nat, logType: nat)
    requires logType != ANY_TYPE
    ensures EnteredUnder(h, e, SearchKey(h, sc, logType, Wildcard(h), Wildcard(h), Wildcard(h)))
       <==> e.sc == sc && e.logType == logType && !(sc == 0 && logType == 0)
  {
    hide TopicKey, ContractKey, TypeKey, PartFor, Wildcard;
    var key := TypeKey(sc, logType);
    ContractKeyIsShorter(e.sc, sc, logType);
    if key == TypeKey(e.sc, e.logType) {
      TypeKeyInjective(sc, logType, e.sc, e.logType);
    }
    forall bits: nat | key == KeyFor(h, e, bits)
      ensures false
    {
      TopicKeyIsLonger(e.sc, e.logType, PartFor(h, e, bits, 0), PartFor(h, e, bits, 1), PartFor(h, e, bits, 2),
                       sc, logType);
    }
  }

  /** Without topic and type a search finds the events of its contract, and nothing for contract 0. */
  lemma ContractSearchMeansContract(h: Hashes, e: Entry, sc: nat)
    ensures EnteredUnder(h, e, SearchKey(h, sc, ANY_TYPE, Wildcard(h), Wildcard(h), Wildcard(h)))
       <==> e.sc == sc && sc != 0
  {
    hide TopicKey, ContractKey, TypeKey, PartFor, Wildcard;
    var key := ContractKey(sc);
    ContractKeyIsShorter(sc, e.sc, e.logType);
    if key == ContractKey(e.sc) {
      ContractKeyInjective(sc, e.sc);
    }
    forall bits: nat | key == KeyFor(h, e, bits)
      ensures false
    {
      TopicKeyIsLonger(e.sc, e.logType, PartFor(h, e, bits, 0), PartFor(h, e, bits, 1), PartFor(h, e, bits, 2),
                       sc, 0);
    }
  }

  lemma ContractKeyInjective(sc: nat, sc': nat)
    requires ContractKey(sc) == ContractKey(sc')
    ensures sc == sc'
  {
    SamePrefix(Decimal(sc), Decimal(sc'));
    DecimalInjective(sc, sc');
  }

  /** The key that a search reads is one the event is entered under exactly if the event matches. */
  lemma KeyMeansMatch(h: Hashes, e: Entry, sc: nat, logType: nat, q1: string, q2: string, q3: string)
    requires |q1| == |q2| == |q3| == 60
    ensures EnteredUnder(h, e, SearchKey(h, sc, logType, q1, q2, q3))
       <==> Matches(h, e, sc, logType, q1, q2, q3) && !Unindexed(h, sc, logType, q1, q2, q3)
  {
    hide EnteredUnder, SearchKey, Wildcard;
    if !AllWild(h, q1, q2, q3) {
      NamedKeyMeansMatch(h, e, sc, logType, q1, q2, q3);
    } else if logType == ANY_TYPE {
      ContractSearchMeansContract(h, e, sc);
    } else {
      TypeSearchMeansType(h, e, sc, logType);
    }
  }

  // ----- The index -----

  type Index = map<string, set<nat>>

  function Ticks(index: Index, key: string): set<nat> {
    if key in index then index[key] else {}
  }

  /** Some event of the list is entered under this key. */
  ghost predicate Keyed(h: Hashes, logs: seq<Log>, key: string) {
    exists i :: 0 <= i < |logs| && LogEntered(h, logs[i], key)
  }

  ghost predicate LogEntered(h: Hashes, log: Log, key: string) {
    EntryOf(h, log).Some? && EnteredUnder(h, EntryOf(h, log).value, key)
  }

  /** Each key lists exactly the indexed ticks that have an event under it. */
  ghost predicate Reflects(h: Hashes, index: Index, history: map<nat, seq<Log>>) {
    forall key: string, t: nat ::
      t in Ticks(index, key) <==> t in history && Keyed(h, history[t], key)
  }

  /** The members of a sorted set with scores in a range, in order. */
  function RangeOf(s: set<nat>, first: nat, last: nat): seq<nat>
    decreases last + 1 - first
  {
    if first > last then []
    else (if first in s then [first] else []) + RangeOf(s, first + 1, last)
  }

  /** db_search_log */
  function SearchLog(h: Hashes, index: Index, sc: nat, logType: nat, first: nat, last: nat,
                     q1: string, q2: string, q3: string): seq<nat>
  {
    if |q1| != 60 || |q2| != 60 || |q3| != 60 then []
    else RangeOf(Ticks(index, SearchKey(h, sc, logType, q1, q2, q3)), first, last)
  }

  // ----- The linear scan -----

  /** A query text is open, or it is the text of this key. */
  predicate Asks(h: Hashes, q: string, k: Key) {
    q == Wildcard(h) || q == Text(h, k)
  }

  predicate Open(h: Hashes, q: string) {
    q == Wildcard(h)
  }

  /** A search for this type, or one that leaves topics and type open. */
  predicate AsksType(h: Hashes, logType: nat, t: nat, q1: string, q2: string, q3: string) {
    logType == t || (logType == 0xffff_ffff && Open(h, q1) && Open(h, q2) && Open(h, q3))
  }

  function WordOf(k: Key, i: nat): Word
    requires i < 4
  {
    if i == 0 then k.w0 else if i == 1 then k.w1 else if i == 2 then k.w2 else k.w3
  }

  /** Byte j of a key in memory. */
  function ByteOf(k: Key, j: nat): nat
    requires j < 32
  {
    WordOf(k, j / 8) / Power256(j % 8) % 256
  }

  function Power256(n: nat): (p: nat)
    ensures p > 0
  {
    if n == 0 then 1 else 256 * Power256(n - 1)
  }

  /** The key with the 32 bytes of a payload from a position on; bytes that are not there are zero. */
  ghost predicate IsTopic(k: Key, payload: seq<Byte>, from: nat) {
    forall j :: 0 <= j < 32 ==> ByteOf(k, j) == if from + j < |payload| then payload[from + j] else 0
  }

  function FourBytes(payload: seq<Byte>, from: nat): nat
    requires from + 4 <= |payload|
  {
    var (b0: nat, b1: nat) := (payload[from], payload[from + 1]);
    var (b2: nat, b3: nat) := (payload[from + 2], payload[from + 3]);
    b0 + 256 * b1 + 65536 * b2 + 16777216 * b3
  }

  /** What a search asks of an event, read off the event itself. */
  ghost predicate LogMatches(h: Hashes, log: Log, sc: nat, logType: nat, q1: string, q2: string, q3: string) {
    match log
    case QuTransfer(source, destination) =>
      sc == 0 && AsksType(h, logType, 0, q1, q2, q3) && Asks(h, q1, source) && Asks(h, q2, destination) && Open(h, q3)
    case AssetIssuance(issuer, rest) =>
      sc == 0 && AsksType(h, logType, 1, q1, q2, q3) && Asks(h, q1, issuer) && Asks(h, q2, rest) && Open(h, q3)
    case OwnershipChange(source, destination, issuer, name) =>
      && sc == 0 && AsksType(h, logType, 2, q1, q2, q3)
      && Asks(h, q1, source) && Asks(h, q2, destination) && Asks(h, q3, h.asset(issuer, name))
    case PossessionChange(source, destination, issuer, name) =>
      && sc == 0 && AsksType(h, logType, 3, q1, q2, q3)
      && Asks(h, q1, source) && Asks(h, q2, destination) && Asks(h, q3, h.asset(issuer, name))
    case OwnershipManagerChange(owner, issuer, name) =>
      && sc == 0 && AsksType(h, logType, 11, q1, q2, q3)
      && Asks(h, q1, owner) && Asks(h, q2, h.asset(issuer, name)) && Open(h, q3)
    case PossessionManagerChange(owner, issuer, name) =>
      && sc == 0 && AsksType(h, logType, 12, q1, q2, q3)
      && Asks(h, q1, owner) && Asks(h, q2, h.asset(issuer, name)) && Open(h, q3)
    case Burning(source, contractIndex) =>
      && sc == 0 && AsksType(h, logType, 8, q1, q2, q3)
      && Asks(h, q1, source) && Asks(h, q2, Key(0, 0, 0, contractIndex)) && Open(h, q3)
    case ReserveDeduction(contractIndex) =>
      && sc == 0 && AsksType(h, logType, 13, q1, q2, q3)
      && Asks(h, q1, Key(0, 0, 0, contractIndex)) && Open(h, q2) && Open(h, q3)
    case ContractMessage(payload) =>
      && |payload| >= 8
      && sc == FourBytes(payload, 0) != 0xffff_ffff && FourBytes(payload, 4) >= 100000
      && AsksType(h, logType, FourBytes(payload, 4), q1, q2, q3)
      && (exists k1, k2, k3: Key ::
            && IsTopic(k1, payload, 8) && IsTopic(k2, payload, 40) && IsTopic(k3, payload, 72)
            && Asks(h, q1, k1) && Asks(h, q2, k2) && Asks(h, q3, k3))
    case Unindexed => false
  }

  // ----- What is entered of an event is what a search asks of it -----

  ghost predicate EntryMatches(h: Hashes, log: Log, sc: nat, logType: nat, q1: string, q2: string, q3: string) {
    EntryOf(h, log).Some? && Matches(h, EntryOf(h, log).value, sc, logType, q1, q2, q3)
  }

  lemma {:induction false} NumberAt(b: seq<Byte>, j: nat)
    requires |b| <= 8 && j < 8
    ensures Number(b) / Power256(j) % 256 == if j < |b| then b[j] else 0
  {
    if b != [] && j > 0 {
      NumberAt(b[1..], j - 1);
      DivideTwice(Number(b), 256, Power256(j - 1));
      assert Number(b) / 256 == Number(b[1..]);
    }
  }

  lemma {:induction false} WordAtBytes(payload: seq<Byte>, from: nat, j: nat)
    requires j < 8
    ensures WordAt(payload, from) / Power256(j) % 256 == if from + j < |payload| then payload[from + j] else 0
  {
    var start := if from < |payload| then from else |payload|;
    var end := if from + 8 < |payload| then from + 8 else |payload|;
    NumberAt(payload[start..end], j);
  }

  lemma {:induction false} ByteInWord(k: Key, i: nat, j: nat)
    requires i < 4 && j < 8
    ensures ByteOf(k, 8 * i + j) == WordOf(k, i) / Power256(j) % 256
  {
    assert (8 * i + j) / 8 == i && (8 * i + j) % 8 == j;
  }

  lemma TopicWord(payload: seq<Byte>, from: nat, i: nat)
    requires i < 4
    ensures WordOf(TopicAt(payload, from), i) == WordAt(payload, from + 8 * i)
  {
  }

  lemma TopicAtBytes(payload: seq<Byte>, from: nat)
    ensures IsTopic(TopicAt(payload, from), payload, from)
  {
    hide WordAt, TopicAt, ByteOf, WordOf, Power256;
    forall j | 0 <= j < 32
      ensures ByteOf(TopicAt(payload, from), j) == if from + j < |payload| then payload[from + j] else 0
    {
      var i, r := j / 8, j % 8;
      ByteInWord(TopicAt(payload, from), i, r);
      TopicWord(payload, from, i);
      WordAtBytes(payload, from + 8 * i, r);
    }
  }

  /** A word is known by its eight bytes. */
  lemma {:induction false} WordByBytes(x: nat, y: nat, n: nat)
    requires x < Power256(n) && y < Power256(n)
    requires forall j: nat :: j < n ==> x / Power256(j) % 256 == y / Power256(j) % 256
    ensures x == y
    decreases n
  {
    if n > 0 {
      forall j: nat | j < n - 1
        ensures x / 256 / Power256(j) % 256 == y / 256 / Power256(j) % 256
      {
        NextByte(x, j);
        NextByte(y, j);
      }
      BytesBelow(x, n);
      BytesBelow(y, n);
      WordByBytes(x / 256, y / 256, n - 1);
      FirstByte(x, y);
    }
  }

  lemma NextByte(x: nat, j: nat)
    ensures x / 256 / Power256(j) % 256 == x / Power256(j + 1) % 256
  {
    DivideTwice(x, 256, Power256(j));
  }

  lemma BytesBelow(x: nat, n: nat)
    requires n > 0 && x < Power256(n)
    ensures x / 256 < Power256(n - 1)
  {
  }

  lemma FirstByte(x: nat, y: nat)
    requires x / 256 == y / 256 && x / Power256(0) % 256 == y / Power256(0) % 256
    ensures x == y
  {
    assert Power256(0) == 1;
  }

  lemma WordFitsBytes()
    ensures WORD == Power256(8)
  {
  }

  lemma SameWord(x: Word, y: Word)
    requires forall j: nat :: j < 8 ==> x / Power256(j) % 256 == y / Power256(j) % 256
    ensures x == y
  {
    WordFitsBytes();
    WordByBytes(x, y, 8);
  }

  lemma SameWordOf(k: Key, k': Key, i: nat)
    requires i < 4 && forall j :: 0 <= j < 32 ==> ByteOf(k, j) == ByteOf(k', j)
    ensures WordOf(k, i) == WordOf(k', i)
  {
    hide ByteOf, WordOf, Power256;
    forall j: nat | j < 8
      ensures WordOf(k, i) / Power256(j) % 256 == WordOf(k', i) / Power256(j) % 256
    {
      ByteInWord(k, i, j);
      ByteInWord(k', i, j);
      assert ByteOf(k, 8 * i + j) == ByteOf(k', 8 * i + j);
    }
    SameWord(WordOf(k, i), WordOf(k', i));
  }

  lemma SameByWords(k: Key, k': Key)
    requires forall i: nat :: i < 4 ==> WordOf(k, i) == WordOf(k', i)
    ensures k == k'
  {
    assert WordOf(k, 0) == WordOf(k', 0) && WordOf(k, 1) == WordOf(k', 1);
    assert WordOf(k, 2) == WordOf(k', 2) && WordOf(k, 3) == WordOf(k', 3);
  }

  lemma TopicIsUnique(k: Key, k': Key, payload: seq<Byte>, from: nat)
    requires IsTopic(k, payload, from) && IsTopic(k', payload, from)
    ensures k == k'
  {
    hide ByteOf, WordOf;
    forall i: nat | i < 4
      ensures WordOf(k, i) == WordOf(k', i)
    {
      SameWordOf(k, k', i);
    }
    SameByWords(k, k');
  }

  lemma NumberOfFour(payload: seq<Byte>, from: nat)
    requires from + 4 <= |payload|
    ensures Number(payload[from..from + 4]) == FourBytes(payload, from)
  {
    var b := payload[from..from + 4];
    assert b[1..][1..] == b[2..] && b[2..][1..] == b[3..] && b[3..][1..] == [];
    assert Number(b[3..]) == b[3];
    assert Number(b[2..]) == b[2] + 256 * Number(b[3..]);
    assert Number(b[1..]) == b[1] + 256 * Number(b[2..]);
  }

  lemma MessageMatches(h: Hashes, payload: seq<Byte>, sc: nat, logType: nat, q1: string, q2: string, q3: string)
    ensures LogMatches(h, ContractMessage(payload), sc, logType, q1, q2, q3)
       <==> EntryMatches(h, ContractMessage(payload), sc, logType, q1, q2, q3)
  {
    hide Text, IsTopic, TopicAt, Number;
    if |payload| >= 8 {
      NumberOfFour(payload, 0);
      NumberOfFour(payload, 4);
      TopicAtBytes(payload, 8);
      TopicAtBytes(payload, 40);
      TopicAtBytes(payload, 72);
      forall k: Key
        ensures IsTopic(k, payload, 8) ==> k == TopicAt(payload, 8)
        ensures IsTopic(k, payload, 40) ==> k == TopicAt(payload, 40)
        ensures IsTopic(k, payload, 72) ==> k == TopicAt(payload, 72)
      {
        if IsTopic(k, payload, 8) { TopicIsUnique(k, TopicAt(payload, 8), payload, 8); }
        if IsTopic(k, payload, 40) { TopicIsUnique(k, TopicAt(payload, 40), payload, 40); }
        if IsTopic(k, payload, 72) { TopicIsUnique(k, TopicAt(payload, 72), payload, 72); }
      }
    }
  }

  /** The entry that is made of an event matches a search exactly if the event does. */
  lemma EntryMeansLog(h: Hashes, log: Log, sc: nat, logType: nat, q1: string, q2: string, q3: string)
    ensures LogMatches(h, log, sc, logType, q1, q2, q3) <==> EntryMatches(h, log, sc, logType, q1, q2, q3)
  {
    if log.ContractMessage? {
      MessageMatches(h, log.payload, sc, logType, q1, q2, q3);
    } else {
      hide Text;
    }
  }

  ghost predicate TickMatches(h: Hashes, logs: seq<Log>, sc: nat, logType: nat, q1: string, q2: string, q3: string) {
    exists i :: 0 <= i < |logs| && LogMatches(h, logs[i], sc, logType, q1, q2, q3)
  }

  /** All indexed ticks of the range, in order, that have a matching event. */
  ghost function Scan(h: Hashes, history: map<nat, seq<Log>>, sc: nat, logType: nat, first: nat, last: nat,
                      q1: string, q2: string, q3: string): seq<nat>
    decreases last + 1 - first
  {
    if first > last then []
    else
      (if first in history && TickMatches(h, history[first], sc, logType, q1, q2, q3) then [first] else [])
      + Scan(h, history, sc, logType, first + 1, last, q1, q2, q3)
  }

  lemma KeyedMeansTickMatches(h: Hashes, logs: seq<Log>, sc: nat, logType: nat, q1: string, q2: string, q3: string)
    requires |q1| == |q2| == |q3| == 60
    ensures Keyed(h, logs, SearchKey(h, sc, logType, q1, q2, q3))
       <==> TickMatches(h, logs, sc, logType, q1, q2, q3) && !Unindexed(h, sc, logType, q1, q2, q3)
  {
    hide EntryOf, EnteredUnder, Matches, LogMatches, SearchKey, Unindexed;
    var key := SearchKey(h, sc, logType, q1, q2, q3);
    forall i | 0 <= i < |logs|
      ensures LogEntered(h, logs[i], key)
         <==> LogMatches(h, logs[i], sc, logType, q1, q2, q3) && !Unindexed(h, sc, logType, q1, q2, q3)
    {
      EntryMeansLog(h, logs[i], sc, logType, q1, q2, q3);
      if EntryOf(h, logs[i]).Some? {
        KeyMeansMatch(h, EntryOf(h, logs[i]).value, sc, logType, q1, q2, q3);
      }
    }
  }

  /** A query text of another length matches no event. */
  lemma OtherLengthsMatchNothing(h: Hashes, logs: seq<Log>, sc: nat, logType: nat, q1: string, q2: string, q3: string)
    requires |q1| != 60 || |q2| != 60 || |q3| != 60
    ensures !TickMatches(h, logs, sc, logType, q1, q2, q3)
  {
    hide Encode, IsTopic, FourBytes;
  }

  /** Every search answers what a scan of all events would, except the two that have no key. */
  lemma {:induction false} SearchIsScan(h: Hashes, index: Index, history: map<nat, seq<Log>>, sc: nat, logType: nat,
                                        first: nat, last: nat, q1: string, q2: string, q3: string)
    requires Reflects(h, index, history)
    ensures SearchLog(h, index, sc, logType, first, last, q1, q2, q3)
         == if Unindexed(h, sc, logType, q1, q2, q3) then []
            else Scan(h, history, sc, logType, first, last, q1, q2, q3)
    decreases last + 1 - first
  {
    hide SearchKey, Unindexed, Keyed, TickMatches, Ticks;
    if first <= last {
      if first in history && |q1| == |q2| == |q3| == 60 {
        KeyedMeansTickMatches(h, history[first], sc, logType, q1, q2, q3);
      } else if first in history {
        OtherLengthsMatchNothing(h, history[first], sc, logType, q1, q2, q3);
      }
      var key := SearchKey(h, sc, logType, q1, q2, q3);
      assert first in Ticks(index, key) <==> first in history && Keyed(h, history[first], key);
      SearchIsScan(h, index, history, sc, logType, first + 1, last, q1, q2, q3);
    }
  }

  // ----- Filling the index -----

  function AddIndexer(index: Index, key: string, tick: nat): Index {
    index[key := Ticks(index, key) + {tick}]
  }

  class Indexer {
    var index: Index

    constructor ()
      ensures index == map[]
    {
      index := map[];
    }

    method Add(key: string, tick: nat)
      modifies this
      ensures forall k: string, t: nat ::
        t in Ticks(index, k) <==> t in Ticks(old(index), k) || (t == tick && k == key)
    {
      index := AddIndexer(index, key, tick);
    }

    /** The key for one choice of topics; also how many topics it names. */
    method BuildKey(h: Hashes, e: Entry, bits: nat) returns (key: string, isSet: nat)
      ensures key == KeyFor(h, e, bits) && (isSet != 0 <==> AnyNamed(e, bits))
    {
      hide Text, Decimal;
      ghost var prefix := "indexed:" + (Decimal(e.sc) + ":" + (Decimal(e.logType) + ":"));
      key := "indexed:" + (Decimal(e.sc) + ":" + (Decimal(e.logType) + ":"));
      isSet := 0;
      for j := 0 to 3
        invariant key == prefix + (if j > 0 then PartFor(h, e, bits, 0) + ":" else "")
                         + (if j > 1 then PartFor(h, e, bits, 1) + ":" else "")
                         + (if j > 2 then PartFor(h, e, bits, 2) else "")
        invariant isSet != 0 <==> exists i: nat :: i < j && Named(e, bits, i)
      {
        if Topic(e, j) == Zero() {
          key := key + Any() + (if j == 2 then "" else ":");
        } else if Bit(bits, j) {
          key := key + Text(h, Topic(e, j)) + (if j == 2 then "" else ":");
          isSet := isSet + 1;
          assert Named(e, bits, j);
        } else {
          key := key + Any() + (if j == 2 then "" else ":");
        }
      }
      KeyJoined(e, PartFor(h, e, bits, 0), PartFor(h, e, bits, 1), PartFor(h, e, bits, 2));
    }

    /** Enters one event under all its keys. */
    method IndexEntry(h: Hashes, e: Entry, tick: nat)
      modifies this
      ensures forall k: string, t: nat ::
        t in Ticks(index, k) <==> t in Ticks(old(index), k) || (t == tick && EnteredUnder(h, e, k))
    {
      hide ContractKey, TypeKey, KeyFor, AnyNamed, Ticks;
      if !(e.sc == 0 && e.logType == 0) {
        if e.sc != 0 {
          Add(ContractKey(e.sc), tick);
        }
        Add(TypeKey(e.sc, e.logType), tick);
      }
      ghost var withPrefixes := index;
      for bits := 1 to 8
        invariant forall k: string, t: nat ::
          t in Ticks(index, k) <==>
          t in Ticks(withPrefixes, k)
          || (t == tick && exists b: nat :: 1 <= b < bits && AnyNamed(e, b) && k == KeyFor(h, e, b))
      {
        var key, isSet := BuildKey(h, e, bits);
        if isSet != 0 {
          Add(key, tick);
        }
      }
    }

    /** indexTick's loop over the log events of a tick. */
    method IndexTick(h: Hashes, tick: nat, vle: seq<Log>, ghost history: map<nat, seq<Log>>)
      requires Reflects(h, index, history) && (tick in history ==> history[tick] == vle)
      modifies this
      ensures Reflects(h, index, history[tick := vle])
    {
      hide EnteredUnder, EntryOf, Ticks;
      ghost var before := index;
      for i := 0 to |vle|
        invariant forall k: string, t: nat ::
          t in Ticks(index, k) <==> t in Ticks(before, k) || (t == tick && Keyed(h, vle[..i], k))
      {
        ghost var mid := index;
        var entry := EntryOf(h, vle[i]);
        if entry.Some? {
          IndexEntry(h, entry.value, tick);
        }
        KeyedAppend(h, vle, i);
      }
      assert vle[..|vle|] == vle;
    }
  }

  lemma KeyJoined(e: Entry, p1: string, p2: string, p3: string)
    ensures "indexed:" + (Decimal(e.sc) + ":" + (Decimal(e.logType) + ":")) + (p1 + ":") + (p2 + ":") + p3
         == TopicKey(e.sc, e.logType, p1, p2, p3)
  {
  }

  lemma KeyedAppend(h: Hashes, logs: seq<Log>, i: nat)
    requires i < |logs|
    ensures forall k: string ::
      Keyed(h, logs[..i + 1], k) <==> Keyed(h, logs[..i], k) || LogEntered(h, logs[i], k)
  {
  }
}
