/**
 What the packet ring buffer stands for: a queue of bytes inside a byte budget, and, as long
 as every packet holds its own size in its first three bytes, a queue of whole packets.
 */
module PacketQueue {
  import opened Powers

  type Byte = x: int | 0 <= x < 256
  type Packet = seq<Byte>

  const HEADER := 8

  /** The size a header declares: 24 bits, and a huge number in place of zero. */
  function SizeOf(p: seq<Byte>): (n: nat)
    requires |p| >= 3
    ensures n > 0
  {
    var n: int := p[0] as int + 256 * p[1] as int + 65536 * p[2] as int;
    if n == 0 then 0x7FFF_FFFF else n
  }

  /** setSize: the low 24 bits of the size in the first three bytes, lowest byte first. */
  function SetSize(p: seq<Byte>, size: nat): (q: seq<Byte>)
    requires |p| >= 3
    ensures |q| == |p|
  {
    [size % 256, size / 256 % 256, size / 65536 % 256] + p[3..]
  }

  /** The remainder of a larger modulus, one more digit of base 256 further up. */
  lemma ByteMore(x: nat, m: nat)
    requires m > 0
    ensures 256 * m > 0 && x % (m * 256) == x % m + m * (x / m % 256)
  {
    var y := x / m;
    DivMod(x, m);
    DivMod(y, 256);
    DivideTwice(x, m, 256);
    DivMod(x, m * 256);
    MulLeft(m, 256 * (y / 256), y % 256);
    MulAssoc(m, 256, y / 256);
  }

  /** A size below 2^24 is read back as it was set; one that leaves 24 zero bits is read as the huge number. */
  lemma SizeReadBack(p: seq<Byte>, size: nat)
    requires |p| >= 3
    ensures SizeOf(SetSize(p, size)) == if size % 16777216 == 0 then 2147483647 else size % 16777216
  {
    ByteMore(size, 256);
    ByteMore(size, 65536);
  }

  /** Every header is the one that was set for the size it declares, unless that is the huge number. */
  lemma SizeSetBack(p: seq<Byte>)
    requires |p| >= 3
    ensures p[..3] != [0, 0, 0] ==> SetSize(p, SizeOf(p)) == p && SizeOf(p) < 16777216
    ensures p[..3] == [0, 0, 0] ==> SizeOf(p) == 2147483647
  {
    assert p == [p[0], p[1], p[2]] + p[3..];
    assert p[..3] == [p[0], p[1], p[2]];
    HeaderBytes(p[0], p[1], p[2]);
  }

  lemma HeaderBytes(a: Byte, b: Byte, c: Byte)
    ensures var n := a as int + 256 * b as int + 65536 * c as int;
      n % 256 == a && n / 256 % 256 == b && n / 65536 % 256 == c && 0 <= n < 16777216
  {
    var m := b as int + 256 * c as int;
    assert (a as int + 256 * m) / 256 == m && m / 256 == c;
    assert (a as int + 256 * m) / 65536 == c;
  }

  /** What the memory at an address declares as its packet. */
  predicate Readable(memory: seq<Byte>, capacity: nat) {
    |memory| >= HEADER && (SizeOf(memory) <= capacity ==> SizeOf(memory) <= |memory|)
  }

  // ----- Critical sections as steps on the queued bytes -----

  datatype Outcome = Rejected | Blocked | Done

  datatype Event = Put(memory: seq<Byte>) | Get

  /** EnqueuePacket: too large, not enough space yet, or appended. */
  function PutOutcome(capacity: nat, c: seq<Byte>, memory: seq<Byte>): Outcome
    requires |memory| >= HEADER
  {
    if SizeOf(memory) > capacity then Rejected
    else if capacity - |c| < SizeOf(memory) then Blocked
    else Done
  }

  function AfterPut(capacity: nat, c: seq<Byte>, memory: seq<Byte>): seq<Byte>
    requires Readable(memory, capacity)
  {
    if PutOutcome(capacity, c, memory).Done? then c + memory[..SizeOf(memory)] else c
  }

  /** GetPacket and TryGetPacket: a header is in, and so are the bytes that it declares. */
  predicate CanGet(c: seq<Byte>) {
    |c| >= HEADER && SizeOf(c) <= |c|
  }

  function AfterGet(c: seq<Byte>): seq<Byte> {
    if CanGet(c) then c[SizeOf(c)..] else c
  }

  function After(capacity: nat, c: seq<Byte>, e: Event): seq<Byte>
    requires e.Put? ==> Readable(e.memory, capacity)
  {
    match e
    case Put(memory) => AfterPut(capacity, c, memory)
    case Get => AfterGet(c)
  }

  /** What one step adds to the queue. */
  function Entered(capacity: nat, c: seq<Byte>, e: Event): seq<Packet>
    requires e.Put? ==> Readable(e.memory, capacity)
  {
    if e.Put? && PutOutcome(capacity, c, e.memory).Done? then [e.memory[..SizeOf(e.memory)]] else []
  }

  /** What one step hands out. */
  function HandedOut(c: seq<Byte>, e: Event): seq<Packet> {
    if e.Get? && CanGet(c) then [c[..SizeOf(c)]] else []
  }

  /** Every address handed in declares a packet that is readable and holds its size bytes. */
  ghost predicate Legal(capacity: nat, run: seq<Event>) {
    forall i :: 0 <= i < |run| && run[i].Put? ==>
      Readable(run[i].memory, capacity) && SizeOf(run[i].memory) >= 3
  }

  function Final(capacity: nat, c: seq<Byte>, run: seq<Event>): seq<Byte>
    requires Legal(capacity, run)
    decreases |run|
  {
    if run == [] then c else Final(capacity, After(capacity, c, run[0]), run[1..])
  }

  /** The packets a run accepts, in order. */
  function Accepted(capacity: nat, c: seq<Byte>, run: seq<Event>): seq<Packet>
    requires Legal(capacity, run)
    decreases |run|
  {
    if run == [] then []
    else Entered(capacity, c, run[0]) + Accepted(capacity, After(capacity, c, run[0]), run[1..])
  }

  /** The packets a run hands out, in order. */
  function Taken(capacity: nat, c: seq<Byte>, run: seq<Event>): seq<Packet>
    requires Legal(capacity, run)
    decreases |run|
  {
    if run == [] then []
    else HandedOut(c, run[0]) + Taken(capacity, After(capacity, c, run[0]), run[1..])
  }

  // ----- Whole packets -----

  /** A packet that carries its own size. */
  predicate Framed(p: Packet) {
    |p| >= 3 && SizeOf(p) == |p|
  }

  predicate AllFramed(q: seq<Packet>) {
    forall i :: 0 <= i < |q| ==> Framed(q[i])
  }

  /** A packet that declares one or two bytes is cut off before the end of its size. */
  predicate Short(p: Packet) {
    p == [1] || p == [2, 0]
  }

  /** The bytes of a queue of packets. */
  function Flat(q: seq<Packet>): seq<Byte> {
    if q == [] then [] else q[0] + Flat(q[1..])
  }

  lemma {:induction false} FlatAppend(q: seq<Packet>, p: Packet)
    ensures Flat(q + [p]) == Flat(q) + p
  {
    if q == [] {
      assert q + [p] == [p];
    } else {
      FlatAppend(q[1..], p);
      assert (q + [p])[1..] == q[1..] + [p];
    }
  }

  /** The size read from the head is that of the oldest packet, and all of it is there. */
  lemma {:induction false} HeadOfFramed(q: seq<Packet>)
    requires AllFramed(q) && |Flat(q)| >= HEADER
    ensures q != [] && CanGet(Flat(q)) && SizeOf(Flat(q)) == |q[0]|
    ensures Flat(q)[..|q[0]|] == q[0] && Flat(q)[|q[0]|..] == Flat(q[1..])
  {
  }

  /** One step on the bytes is a step on the queue of packets. */
  lemma StepMoves(capacity: nat, q: seq<Packet>, e: Event) returns (next: seq<Packet>)
    requires AllFramed(q)
    requires e.Put? ==> Readable(e.memory, capacity) && SizeOf(e.memory) >= 3
    ensures AllFramed(next) && After(capacity, Flat(q), e) == Flat(next)
    ensures HandedOut(Flat(q), e) + next == q + Entered(capacity, Flat(q), e)
    ensures |Flat(q)| <= capacity ==> |Flat(next)| <= capacity
  {
    if e.Put? {
      next := q + Entered(capacity, Flat(q), e);
      if next != q { FlatAppend(q, next[|q|]); }
    } else if CanGet(Flat(q)) {
      HeadOfFramed(q);
      next := q[1..];
    } else {
      next := q;
    }
  }

  /**
   Any interleaving of producers and consumers: packets leave whole and in the order accepted,
   and what is left in the ring are the bytes of the packets not handed out yet.
   */
  lemma {:induction false} RunIsFifo(capacity: nat, q: seq<Packet>, run: seq<Event>) returns (left: seq<Packet>)
    requires AllFramed(q) && Legal(capacity, run)
    ensures AllFramed(left) && Final(capacity, Flat(q), run) == Flat(left)
    ensures |Flat(q)| <= capacity ==> |Flat(left)| <= capacity
    ensures Taken(capacity, Flat(q), run) + left == q + Accepted(capacity, Flat(q), run)
    decreases |run|
  {
    hide AllFramed, Readable, After, Entered, HandedOut, Flat;
    if run == [] {
      left := q;
    } else {
      var next := StepMoves(capacity, q, run[0]);
      left := RunIsFifo(capacity, next, run[1..]);
      var added, accepted := Entered(capacity, Flat(q), run[0]), Accepted(capacity, Flat(next), run[1..]);
      var gone, taken := HandedOut(Flat(q), run[0]), Taken(capacity, Flat(next), run[1..]);
      assert (gone + taken) + left == gone + (next + accepted);
      assert gone + (next + accepted) == (gone + next) + accepted;
      assert (q + added) + accepted == q + (added + accepted);
    }
  }

  // ----- Small packets -----

  /** Whole packets wait exactly while less than a header's worth of bytes is queued. */
  lemma {:induction false} ReadyAtHeader(q: seq<Packet>)
    requires AllFramed(q)
    ensures CanGet(Flat(q)) <==> |Flat(q)| >= HEADER
  {
    if |Flat(q)| >= HEADER { HeadOfFramed(q); }
  }

  /** With sizes of at least a header, a consumer waits only while nothing is queued. */
  lemma {:induction false} WholePacketsReady(q: seq<Packet>)
    requires AllFramed(q) && forall i :: 0 <= i < |q| ==> |q[i]| >= HEADER
    ensures CanGet(Flat(q)) <==> q != []
  {
    ReadyAtHeader(q);
  }

  /** A queued packet carries its size or declares one or two bytes. */
  lemma DeclaredPacket(memory: seq<Byte>)
    requires |memory| >= HEADER && SizeOf(memory) <= |memory|
    ensures var p := memory[..SizeOf(memory)]; if SizeOf(memory) >= 3 then Framed(p) else Short(p)
  {
  }

  /**
   When the oldest packet leaves whole: always if it holds its size; otherwise exactly if the
   bytes that follow it, read as the rest of its size, happen to be zero.
   */
  lemma {:induction false} OldestLeavesWhole(q: seq<Packet>)
    requires q != [] && (Framed(q[0]) || Short(q[0])) && |Flat(q)| >= HEADER
    ensures HandedOut(Flat(q), Get) == [q[0]]
       <==> (|q[0]| <= 2 ==> Flat(q)[2] == 0) && (|q[0]| == 1 ==> Flat(q)[1] == 0)
  {
    var c := Flat(q);
    assert c[..|q[0]|] == q[0];
    assert |c| >= |q[0]|;
    if HandedOut(c, Get) == [q[0]] {
      assert HandedOut(c, Get)[0] == c[..SizeOf(c)];
      assert SizeOf(c) == |q[0]|;
    }
  }
}
