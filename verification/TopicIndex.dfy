/**
 The topic index: every log event of a verified tick is entered under each combination of
 its topics, and a search reads one key. The stores' sorted sets are sets of ticks.
 */
module TopicIndex {
  import opened Options
  import opened Identity

  type Byte = x: nat | x < 256

  datatype Hashes = Hashes(checksum: Key -> nat, asset: (Key, nat) -> Key)

  /** The log events by what the indexer reads of them; asset names are numbers of seven bytes. */
  datatype Log =
    | QuTransfer(source: Key, destination: Key)
    | AssetIssuance(issuer: Key, rest: Key)
    | OwnershipChange(source: Key, destination: Key, issuer: Key, name: nat)
    | PossessionChange(source: Key, destination: Key, issuer: Key, name: nat)
    | OwnershipManagerChange(owner: Key, issuer: Key, name: nat)
    | PossessionManagerChange(owner: Key, issuer: Key, name: nat)
    | Burning(source: Key, contractIndex: Word)
    | ReserveDeduction(contractIndex: Word)
    | ContractMessage(payload: seq<Byte>)
    | Unindexed

  /** What is indexed of an event. */
  datatype Entry = Entry(sc: nat, logType: nat, t1: Key, t2: Key, t3: Key)

  const NO_CONTRACT := 0xffff_ffff
  const FIRST_CONTRACT_TYPE := 100000

  function Zero(): Key {
    Key(0, 0, 0, 0)
  }

  function Number(b: seq<Byte>): nat {
    if b == [] then 0 else b[0] + 256 * Number(b[1..])
  }

  lemma {:induction false} NumberBound(b: seq<Byte>)
    requires |b| <= 8
    ensures Number(b) < WORD
    ensures |b| == 0 ==> Number(b) < 1
    ensures |b| == 1 ==> Number(b) < 0x100
    ensures |b| == 2 ==> Number(b) < 0x1_0000
    ensures |b| == 3 ==> Number(b) < 0x100_0000
    ensures |b| == 4 ==> Number(b) < 0x1_0000_0000
    ensures |b| == 5 ==> Number(b) < 0x100_0000_0000
    ensures |b| == 6 ==> Number(b) < 0x1_0000_0000_0000
    ensures |b| == 7 ==> Number(b) < 0x100_0000_0000_0000
  {
    if b != [] {
      NumberBound(b[1..]);
    }
  }

  /** Up to eight bytes from a position on, as far as there are any. */
  function WordAt(b: seq<Byte>, from: nat): Word {
    var start := if from < |b| then from else |b|;
    var end := if from + 8 < |b| then from + 8 else |b|;
    NumberBound(b[start..end]);
    Number(b[start..end])
  }

  /** Up to 32 bytes of a payload, the rest zero. */
  function TopicAt(payload: seq<Byte>, from: nat): Key {
    Key(WordAt(payload, from), WordAt(payload, from + 8), WordAt(payload, from + 16), WordAt(payload, from + 24))
  }

  /** Contract, type and topics of an event; nothing for the events that are not indexed. */
  function EntryOf(h: Hashes, log: Log): Option<Entry> {
    match log
    case QuTransfer(source, destination) => Some(Entry(0, 0, source, destination, Zero()))
    case AssetIssuance(issuer, rest) => Some(Entry(0, 1, issuer, rest, Zero()))
    case OwnershipChange(source, destination, issuer, name) =>
      Some(Entry(0, 2, source, destination, h.asset(issuer, name)))
    case PossessionChange(source, destination, issuer, name) =>
      Some(Entry(0, 3, source, destination, h.asset(issuer, name)))
    case OwnershipManagerChange(owner, issuer, name) =>
      Some(Entry(0, 11, owner, h.asset(issuer, name), Zero()))
    case PossessionManagerChange(owner, issuer, name) =>
      Some(Entry(0, 12, owner, h.asset(issuer, name), Zero()))
    case Burning(source, contractIndex) => Some(Entry(0, 8, source, Key(0, 0, 0, contractIndex), Zero()))
    case ReserveDeduction(contractIndex) => Some(Entry(0, 13, Key(0, 0, 0, contractIndex), Zero(), Zero()))
    case ContractMessage(payload) =>
      if |payload| < 8 then None
      else
        var sc, logType := Number(payload[..4]), Number(payload[4..8]);
        if logType < FIRST_CONTRACT_TYPE || sc == NO_CONTRACT then None
        else Some(Entry(sc, logType, TopicAt(payload, 8), TopicAt(payload, 40), TopicAt(payload, 72)))
    case Unindexed => None
  }

  // ----- Index keys -----

  function Decimal(n: nat): (s: string)
    ensures |s| > 0
  {
    if n < 10 then [('0' as int + n) as char] else Decimal(n / 10) + [('0' as int + n % 10) as char]
  }

  function ContractKey(sc: nat): string {
    "indexed:" + Decimal(sc)
  }

  function TypeKey(sc: nat, logType: nat): string {
    "indexed:" + (Decimal(sc) + ":" + Decimal(logType))
  }

  function TopicKey(sc: nat, logType: nat, p1: string, p2: string, p3: string): string {
    "indexed:" + (Decimal(sc) + ":" + (Decimal(logType) + ":" + (p1 + ":" + (p2 + ":" + p3))))
  }

  function Any(): string {
    "ANY"
  }

  function Text(h: Hashes, t: Key): (s: string)
    ensures |s| == 60
  {
    Encode(h.checksum, t, true)
  }

  function Wildcard(h: Hashes): string {
    Text(h, Zero())
  }

  predicate Bit(bits: nat, j: nat)
    requires j < 3
  {
    if j == 0 then bits % 2 == 1 else if j == 1 then bits / 2 % 2 == 1 else bits / 4 % 2 == 1
  }

  function Topic(e: Entry, j: nat): Key
    requires j < 3
  {
    if j == 0 then e.t1 else if j == 1 then e.t2 else e.t3
  }

  predicate Named(e: Entry, bits: nat, j: nat)
    requires j < 3
  {
    Topic(e, j) != Zero() && Bit(bits, j)
  }

  function PartFor(h: Hashes, e: Entry, bits: nat, j: nat): string
    requires j < 3
  {
    if Named(e, bits, j) then Text(h, Topic(e, j)) else Any()
  }

  function KeyFor(h: Hashes, e: Entry, bits: nat): string {
    TopicKey(e.sc, e.logType, PartFor(h, e, bits, 0), PartFor(h, e, bits, 1), PartFor(h, e, bits, 2))
  }

  predicate AnyNamed(e: Entry, bits: nat) {
    Named(e, bits, 0) || Named(e, bits, 1) || Named(e, bits, 2)
  }

  /** The event is entered under this key. */
  ghost predicate EnteredUnder(h: Hashes, e: Entry, key: string) {
    || (e.sc != 0 && key == ContractKey(e.sc))
    || (!(e.sc == 0 && e.logType == 0) && key == TypeKey(e.sc, e.logType))
    || (exists bits: nat :: 1 <= bits < 8 && AnyNamed(e, bits) && key == KeyFor(h, e, bits))
  }

  // ----- Keys can be told apart -----

  predicate NoColon(s: string) {
    forall i :: 0 <= i < |s| ==> s[i] != ':'
  }

  function FirstColon(s: string): nat {
    if s == "" || s[0] == ':' then 0 else 1 + FirstColon(s[1..])
  }

  lemma {:induction false} FirstColonAfter(a: string, b: string)
    requires NoColon(a)
    ensures FirstColon(a + ":" + b) == |a|
  {
    if a != "" {
      FirstColonAfter(a[1..], b);
      assert (a + ":" + b)[1..] == a[1..] + ":" + b;
    }
  }

  lemma SplitUnique(a: string, b: string, a': string, b': string)
    requires NoColon(a) && NoColon(a') && a + ":" + b == a' + ":" + b'
    ensures a == a' && b == b'
  {
    var s := a + ":" + b;
    FirstColonAfter(a, b);
    FirstColonAfter(a', b');
    assert a == s[..|a|] && a' == s[..|a'|];
    assert b == s[|a| + 1..] && b' == s[|a'| + 1..];
  }

  lemma ColonInside(a: string, b: string)
    ensures !NoColon(a + ":" + b)
  {
    assert (a + ":" + b)[|a|] == ':';
  }

  lemma {:induction false} DecimalDigits(n: nat)
    ensures NoColon(Decimal(n))
  {
    if n >= 10 {
      DecimalDigits(n / 10);
    }
  }

  lemma {:induction false} DecimalInjective(m: nat, n: nat)
    requires Decimal(m) == Decimal(n)
    ensures m == n
  {
    var s := Decimal(m);
    if m >= 10 && n >= 10 {
      assert Decimal(m / 10) == s[..|s| - 1] == Decimal(n / 10);
      DecimalInjective(m / 10, n / 10);
      assert s[|s| - 1] == ('0' as int + m % 10) as char == ('0' as int + n % 10) as char;
    } else if m < 10 && n < 10 {
      assert s[0] == ('0' as int + m) as char == ('0' as int + n) as char;
    }
  }

  lemma SamePrefix(a: string, b: string)
    requires "indexed:" + a == "indexed:" + b
    ensures a == b
  {
    assert a == ("indexed:" + a)[8..] && b == ("indexed:" + b)[8..];
  }

  /** Parts without colons can be read back from a topic key. */
  lemma TopicKeyInjective(sc: nat, logType: nat, p1: string, p2: string, p3: string,
                          sc': nat, logType': nat, p1': string, p2': string, p3': string)
    requires NoColon(p1) && NoColon(p2) && NoColon(p1') && NoColon(p2')
    requires TopicKey(sc, logType, p1, p2, p3) == TopicKey(sc', logType', p1', p2', p3')
    ensures sc == sc' && logType == logType' && p1 == p1' && p2 == p2' && p3 == p3'
  {
    hide NoColon, Decimal;
    DecimalDigits(sc);
    DecimalDigits(sc');
    DecimalDigits(logType);
    DecimalDigits(logType');
    var r2, r2' := p2 + ":" + p3, p2' + ":" + p3';
    var r1, r1' := p1 + ":" + r2, p1' + ":" + r2';
    var r0, r0' := Decimal(logType) + ":" + r1, Decimal(logType') + ":" + r1';
    assert TopicKey(sc, logType, p1, p2, p3) == "indexed:" + (Decimal(sc) + ":" + r0);
    assert TopicKey(sc', logType', p1', p2', p3') == "indexed:" + (Decimal(sc') + ":" + r0');
    SamePrefix(Decimal(sc) + ":" + r0, Decimal(sc') + ":" + r0');
    SplitUnique(Decimal(sc), r0, Decimal(sc'), r0');
    SplitUnique(Decimal(logType), r1, Decimal(logType'), r1');
    SplitUnique(p1, r2, p1', r2');
    SplitUnique(p2, p3, p2', p3');
    DecimalInjective(sc, sc');
    DecimalInjective(logType, logType');
  }

  /** A topic key is never the shorter key of a contract or of a type. */
  lemma TopicKeyIsLonger(sc: nat, logType: nat, p1: string, p2: string, p3: string, sc': nat, logType': nat)
    ensures TopicKey(sc, logType, p1, p2, p3) != ContractKey(sc')
    ensures TopicKey(sc, logType, p1, p2, p3) != TypeKey(sc', logType')
  {
    hide NoColon, Decimal;
    DecimalDigits(sc);
    DecimalDigits(sc');
    DecimalDigits(logType');
    var r1 := p1 + ":" + (p2 + ":" + p3);
    var r0 := Decimal(logType) + ":" + r1;
    assert TopicKey(sc, logType, p1, p2, p3) == "indexed:" + (Decimal(sc) + ":" + r0);
    ColonInside(Decimal(sc), r0);
    ColonInside(Decimal(logType), r1);
    if TopicKey(sc, logType, p1, p2, p3) == ContractKey(sc') {
      SamePrefix(Decimal(sc) + ":" + r0, Decimal(sc'));
    }
    if TopicKey(sc, logType, p1, p2, p3) == TypeKey(sc', logType') {
      SamePrefix(Decimal(sc) + ":" + r0, Decimal(sc') + ":" + Decimal(logType'));
      SplitUnique(Decimal(sc), r0, Decimal(sc'), Decimal(logType'));
    }
  }
}
