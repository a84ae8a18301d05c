/** MutexRoundBuffer: the byte ring. Each method body is one critical section. */
module RingBuffer {
  import opened PacketQueue

  /** Position k places after head in a ring of the given capacity. */
  function Place(head: nat, k: nat, capacity: nat): nat {
    if head + k < capacity then head + k else head + k - capacity
  }

  /** The n bytes of the ring from head on. */
  function Window(b: seq<Byte>, head: nat, n: nat): (w: seq<Byte>)
    requires n <= |b| && (head < |b| || n == 0)
    ensures |w| == n
  {
    seq(n, k requires 0 <= k < n => b[Place(head, k, |b|)])
  }

  lemma WindowSplit(b: seq<Byte>, head: nat, n: nat, m: nat)
    requires m <= n <= |b| && head < |b|
    ensures Place(head, m, |b|) < |b|
    ensures Window(b, head, n)[..m] == Window(b, head, m)
    ensures Window(b, head, n)[m..] == Window(b, Place(head, m, |b|), n - m)
  {
  }

  lemma WindowOfBlocks(b: seq<Byte>, head: nat, n: nat)
    requires n <= |b| && head < |b|
    ensures head + n <= |b| ==> Window(b, head, n) == b[head..head + n]
    ensures head + n > |b| ==> Window(b, head, n) == b[head..] + b[..n - (|b| - head)]
  {
  }

  /** The ring after data was copied to a place in it. */
  function Copied(b: seq<Byte>, at: nat, data: seq<Byte>): (c: seq<Byte>)
    requires at + |data| <= |b|
    ensures |c| == |b|
    ensures forall k :: 0 <= k < |b| ==> c[k] == if at <= k < at + |data| then data[k - at] else b[k]
  {
    b[..at] + data + b[at + |data|..]
  }

  lemma WrittenInOnePiece(b: seq<Byte>, head: nat, n: nat, p: seq<Byte>)
    requires head < |b| && n + |p| <= |b| && Place(head, n, |b|) + |p| <= |b|
    ensures Window(Copied(b, Place(head, n, |b|), p), head, n + |p|) == Window(b, head, n) + p
  {
    hide Copied;
  }

  lemma WrittenAround(b: seq<Byte>, head: nat, n: nat, p: seq<Byte>)
    requires head < |b| && n + |p| <= |b| && Place(head, n, |b|) < |b| < Place(head, n, |b|) + |p|
    ensures var tail := Place(head, n, |b|); var first := |b| - tail;
      Window(Copied(Copied(b, tail, p[..first]), 0, p[first..]), head, n + |p|) == Window(b, head, n) + p
  {
    hide Copied;
  }

  lemma ModOnce(x: nat, c: nat)
    requires x < 2 * c
    ensures x % c == if x < c then x else x - c
  {
  }

  class MutexRoundBuffer {
    const buffer: array<Byte>
    var size: nat
    var head: nat
    var tail: nat

    ghost predicate Valid()
      reads this
    {
      && size <= buffer.Length
      && (buffer.Length == 0 ==> head == tail == 0)
      && (buffer.Length > 0 ==> head < buffer.Length && tail == Place(head, size, buffer.Length))
    }

    /** The queued bytes, oldest first. */
    ghost function Contents(): (c: seq<Byte>)
      requires Valid()
      reads this, buffer
      ensures |c| == size
    {
      Window(buffer[..], head, size)
    }

    constructor (capacity: nat)
      ensures Valid() && fresh(buffer) && buffer.Length == capacity && Contents() == []
    {
      buffer := new Byte[capacity];
      size, head, tail := 0, 0, 0;
    }

    /** memcpy into the ring */
    method Store(at: nat, data: seq<Byte>)
      requires at + |data| <= buffer.Length
      modifies buffer
      ensures buffer[..] == Copied(old(buffer[..]), at, data)
    {
      forall k | 0 <= k < |data| {
        buffer[at + k] := data[k];
      }
    }

    /** Writes a packet at the tail, in one piece or around the end. */
    method Write(packet: seq<Byte>)
      requires Valid() && |packet| <= buffer.Length - size && |packet| > 0
      modifies buffer
      ensures Window(buffer[..], head, size + |packet|) == old(Contents()) + packet
    {
      hide SizeOf, Window;
      ghost var b := buffer[..];
      if tail + |packet| <= buffer.Length {
        Store(tail, packet);
        WrittenInOnePiece(b, head, size, packet);
      } else {
        var firstChunk := buffer.Length - tail;
        Store(tail, packet[..firstChunk]);
        Store(0, packet[firstChunk..]);
        WrittenAround(b, head, size, packet);
      }
    }

    /** EnqueuePacket on the memory at an address; Blocked means that the caller waits. */
    method EnqueuePacket(memory: seq<Byte>) returns (outcome: Outcome)
      requires Valid() && Readable(memory, buffer.Length)
      modifies this, buffer
      ensures Valid()
      ensures outcome == PutOutcome(buffer.Length, old(Contents()), memory)
      ensures Contents() == AfterPut(buffer.Length, old(Contents()), memory)
    {
      hide SizeOf, Window;
      var packetSize := SizeOf(memory);
      if packetSize > buffer.Length {
        return Rejected;
      }
      if buffer.Length - size < packetSize {
        return Blocked;
      }
      var packet := memory[..packetSize];
      ModOnce(tail + packetSize, buffer.Length);
      Write(packet);
      tail := (tail + packetSize) % buffer.Length;
      size := size + packetSize;
      return Done;
    }

    /** peek_data, and the copying out of a packet: n bytes from the head on. */
    method PeekData(n: nat) returns (dest: seq<Byte>)
      requires Valid() && n <= buffer.Length && buffer.Length > 0
      ensures dest == Window(buffer[..], head, n)
    {
      WindowOfBlocks(buffer[..], head, n);
      if head + n <= buffer.Length {
        dest := buffer[head..head + n];
      } else {
        var firstChunk := buffer.Length - head;
        dest := buffer[head..] + buffer[..n - firstChunk];
      }
    }

    /**
     TryGetPacket. GetPacket waits where this gives up; for packets of at least three bytes its
     second wait never blocks (ReadyAtHeader), so that it is this section after its first wait.
     */
    method TryGetPacket() returns (ok: bool, packet: seq<Byte>)
      requires Valid()
      modifies this
      ensures Valid() && ok == CanGet(old(Contents()))
      ensures Contents() == AfterGet(old(Contents()))
      ensures ok ==> [packet] == HandedOut(old(Contents()), Get)
      ensures !ok ==> unchanged(this)
    {
      packet := [];
      if size < HEADER {
        return false, packet;
      }
      ghost var c := Contents();
      var header := PeekData(HEADER);
      WindowSplit(buffer[..], head, size, HEADER);
      var packetSize := SizeOf(header);
      assert packetSize == SizeOf(c);
      hide SizeOf, Window;
      if size < packetSize {
        return false, packet;
      }
      packet := PeekData(packetSize);
      WindowSplit(buffer[..], head, size, packetSize);
      ModOnce(head + packetSize, buffer.Length);
      head := (head + packetSize) % buffer.Length;
      size := size - packetSize;
      return true, packet;
    }
  }
}
