/**
 The incremental KangarooTwelve of the XKCP library at security level 128: Update in any
 pieces, four leaves at a time where the input allows it, then Final.
 */
module XkcpKangarooTwelve {
  import opened Sponge
  import opened TreeHash
  import opened KeccakState
  import TurboShake = TurboShakeSponge
  import OneShot = KangarooTwelve

  datatype Phase = Absorbing | Final | Squeezing

  const WORD := 0x1_0000_0000_0000_0000

  // ----- Four leaves side by side -----

  /** Chunk k of four. */
  function ChunkOf(input: seq<Byte>, k: nat): seq<Byte>
    requires |input| == 4 * CHUNK && k < 4
  {
    input[k * CHUNK..(k + 1) * CHUNK]
  }

  function LeafClosed(f: Permutation, s: State, rest: seq<Byte>): State
    requires |rest| == 128
  {
    f(XorAt(XorAt(XorAt(s, 0, rest), 128, [LEAF_DOMAIN]), RATE - 1, [0x80]))
  }

  /** KT128ProcessLeaves: 48 full blocks, then 16 lanes and the padding, on four states at once. */
  method ProcessLeaves(f: Permutation, input: seq<Byte>) returns (output: seq<Byte>)
    requires |input| == 4 * CHUNK
    ensures output == Leaf(f, ChunkOf(input, 0)) + Leaf(f, ChunkOf(input, 1))
                    + Leaf(f, ChunkOf(input, 2)) + Leaf(f, ChunkOf(input, 3))
  {
    hide Absorb, XorAt, Leaf, Close;
    var lanes: seq<State> := seq(4, _ => Blank());
    var j := 0;
    TurboShake.NothingAbsorbed(f, Fresh());
    assert forall k :: 0 <= k < 4 ==> ChunkOf(input, k)[..0] == [];
    while j < CHUNK - RATE
      invariant j <= 48 * RATE && j % RATE == 0 && |lanes| == 4
      invariant forall k :: 0 <= k < 4 ==> Absorb(f, Fresh(), ChunkOf(input, k)[..j]) == Node(lanes[k], 0)
    {
      forall k | 0 <= k < 4
        ensures Absorb(f, Fresh(), ChunkOf(input, k)[..j + RATE])
             == Node(f(XorAt(lanes[k], 0, ChunkOf(input, k)[j..j + RATE])), 0)
      {
        FullBlock(f, ChunkOf(input, k), j, lanes[k]);
      }
      lanes := seq(4, k requires 0 <= k < 4 => f(XorAt(lanes[k], 0, ChunkOf(input, k)[j..j + RATE])));
      j := j + RATE;
    }
    var closed := seq(4, k requires 0 <= k < 4 => LeafClosed(f, lanes[k], ChunkOf(input, k)[j..]));
    forall k | 0 <= k < 4
      ensures closed[k][..32] == Leaf(f, ChunkOf(input, k))
    {
      LastBlock(f, ChunkOf(input, k), lanes[k]);
    }
    output := closed[0][..32] + closed[1][..32] + closed[2][..32] + closed[3][..32];
  }

  lemma FullBlock(f: Permutation, chunk: seq<Byte>, j: nat, s: State)
    requires j + RATE <= |chunk| && Absorb(f, Fresh(), chunk[..j]) == Node(s, 0)
    ensures Absorb(f, Fresh(), chunk[..j + RATE]) == Node(f(XorAt(s, 0, chunk[j..j + RATE])), 0)
  {
    hide Absorb, XorAt;
    AbsorbConcat(f, Fresh(), chunk[..j], chunk[j..j + RATE]);
    assert chunk[..j] + chunk[j..j + RATE] == chunk[..j + RATE];
    AbsorbUpToRate(f, Node(s, 0), chunk[j..j + RATE]);
  }

  lemma LastBlock(f: Permutation, chunk: seq<Byte>, s: State)
    requires |chunk| == CHUNK && Absorb(f, Fresh(), chunk[..48 * RATE]) == Node(s, 0)
    ensures LeafClosed(f, s, chunk[48 * RATE..])[..32] == Leaf(f, chunk)
  {
    hide Absorb, XorAt, Leaf;
    var whole, rest := chunk[..48 * RATE], chunk[48 * RATE..];
    AbsorbConcat(f, Fresh(), whole, rest);
    assert whole + rest == chunk;
    AbsorbWithin(f, Node(s, 0), rest);
    LeafIsFold(f, chunk);
    SqueezedBlock(f, Close(f, Absorb(f, Fresh(), chunk), LEAF_DOMAIN), 0, 32);
  }

  lemma {:induction false} FourChunksAbsorbed(f: Permutation, m: seq<Byte>, input: seq<Byte>, p: Progress,
                                              leaves: seq<Byte>)
    requires Trunked(f, m, p) && |input| == 4 * CHUNK
    requires leaves == Leaf(f, ChunkOf(input, 0)) + Leaf(f, ChunkOf(input, 1))
                     + Leaf(f, ChunkOf(input, 2)) + Leaf(f, ChunkOf(input, 3))
    ensures p.final.at < RATE
    ensures Trunked(f, m + input, Progress(p.blocks + 4, 0, Absorb(f, p.final, leaves), p.queue))
  {
    hide Absorb, Trunk, Leaf;
    var c0, c1, c2, c3 := ChunkOf(input, 0), ChunkOf(input, 1), ChunkOf(input, 2), ChunkOf(input, 3);
    hide ChunkOf, Trunked;
    var l0, l1, l2, l3 := Leaf(f, c0), Leaf(f, c1), Leaf(f, c2), Leaf(f, c3);
    ChunkAbsorbed(f, m, c0, p, p.queue);
    var p1 := Progress(p.blocks + 1, 0, Absorb(f, p.final, l0), p.queue);
    ChunkAbsorbed(f, m + c0, c1, p1, p.queue);
    var p2 := Progress(p.blocks + 2, 0, Absorb(f, p1.final, l1), p.queue);
    ChunkAbsorbed(f, m + c0 + c1, c2, p2, p.queue);
    var p3 := Progress(p.blocks + 3, 0, Absorb(f, p2.final, l2), p.queue);
    ChunkAbsorbed(f, m + c0 + c1 + c2, c3, p3, p.queue);
    AbsorbConcat(f, p.final, l0, l1);
    AbsorbConcat(f, p.final, l0 + l1, l2);
    AbsorbConcat(f, p.final, l0 + l1 + l2, l3);
    FourParts(m, input);
  }

  lemma FourParts(m: seq<Byte>, input: seq<Byte>)
    requires |input| == 4 * CHUNK
    ensures m + ChunkOf(input, 0) + ChunkOf(input, 1) + ChunkOf(input, 2) + ChunkOf(input, 3) == m + input
  {
  }

  // ----- The instance -----

  class Instance {
    const permutation: Permutation
    const queueNode: TurboShake.Instance
    const finalNode: TurboShake.Instance
    const fixedOutputLength: nat
    var blockNumber: nat
    var queueAbsorbedLen: nat
    var phase: Phase
    /** Everything absorbed so far. */
    ghost var absorbed: seq<Byte>

    ghost predicate Wired()
      reads this, queueNode, queueNode.state, finalNode, finalNode.state
    {
      && queueNode.Valid() && finalNode.Valid()
      && queueNode != finalNode && queueNode.state != finalNode.state
      && queueNode.permutation == permutation && finalNode.permutation == permutation
    }

    ghost function Held(): Progress
      reads this, queueNode, queueNode.state, finalNode, finalNode.state
      requires Wired()
    {
      Progress(blockNumber, queueAbsorbedLen, finalNode.View(), queueNode.View())
    }

    ghost predicate Open()
      reads this, queueNode, finalNode
    {
      !finalNode.squeezing && (blockNumber != 0 && queueAbsorbedLen != 0 ==> !queueNode.squeezing)
    }

    ghost predicate Valid()
      reads this, queueNode, queueNode.state, finalNode, finalNode.state
    {
      && Wired()
      && (phase == Absorbing ==> Open() && Holds(permutation, absorbed, Held()))
    }

    /** KangarooTwelve_Initialize */
    constructor (f: Permutation, outputByteLen: nat)
      ensures Valid() && fresh(queueNode) && fresh(queueNode.state) && fresh(finalNode) && fresh(finalNode.state)
      ensures permutation == f && fixedOutputLength == outputByteLen && phase == Absorbing && absorbed == []
    {
      permutation := f;
      queueNode := new TurboShake.Instance(f);
      finalNode := new TurboShake.Instance(f);
      fixedOutputLength := outputByteLen;
      blockNumber, queueAbsorbedLen, phase := 0, 0, Absorbing;
      absorbed := [];
    }

    /** Closes the queue as a leaf and absorbs its chaining value into the final node. */
    method PassLeaf()
      requires Wired() && !finalNode.squeezing && !queueNode.squeezing
      modifies queueNode, queueNode.state, finalNode`byteIOIndex, finalNode.state
      ensures Wired()
      ensures finalNode.View()
           == Absorb(permutation, old(finalNode.View()), LeafOf(permutation, old(queueNode.View())))
    {
      hide Absorb, Squeezed, Close;
      var ok := queueNode.AbsorbDomainSeparationByte(LEAF_DOMAIN);
      assert ok;
      var intermediate := queueNode.Squeeze(32);
      ok := finalNode.AbsorbAll(intermediate);
      assert ok;
    }

    /** m and the first bytes of input are in: all of input, or whole chunks of the tree. */
    ghost predicate Between(m: seq<Byte>, input: seq<Byte>, taken: nat)
      reads this, queueNode, queueNode.state, finalNode, finalNode.state
      requires Wired()
    {
      && taken <= |input| && Open()
      && (if blockNumber != 0 && queueAbsorbedLen == 0 then
            |m| + |input| > CHUNK && Trunked(permutation, m + input[..taken], Held())
          else
            taken == |input| && Holds(permutation, m + input, Held()))
    }

    /** The first chunk, absorbed in the final node. */
    method FillFirstChunk(input: seq<Byte>, ghost m: seq<Byte>) returns (taken: nat)
      requires Wired() && Open() && blockNumber == 0 && |m| <= CHUNK && Holds(permutation, m, Held())
      modifies this, finalNode`byteIOIndex, finalNode.state
      ensures Wired() && Between(m, input, taken)
      ensures phase == old(phase) && absorbed == old(absorbed)
    {
      hide Absorb, Trunked;
      taken := if |input| < CHUNK - queueAbsorbedLen then |input| else CHUNK - queueAbsorbedLen;
      FirstChunkGrows(permutation, m, input[..taken], Held());
      var ok := finalNode.AbsorbAll(input[..taken]);
      assert ok;
      queueAbsorbedLen := queueAbsorbedLen + taken;
      if queueAbsorbedLen == CHUNK && taken < |input| {
        MarkerAbsorbed(permutation, m + input[..taken], Held());
        queueAbsorbedLen := 0;
        blockNumber := 1;
        OneByte(permutation, finalNode.View(), 0x03);
        ok := finalNode.AbsorbAll([0x03]);
        assert ok;
        finalNode.byteIOIndex := (finalNode.byteIOIndex + 7) / 8 * 8;
      } else {
        assert input[..taken] == input;
      }
    }

    /** The started queue, up to a whole chunk. */
    method FillQueue(input: seq<Byte>, ghost m: seq<Byte>) returns (taken: nat)
      requires Wired() && Open() && blockNumber != 0 && queueAbsorbedLen != 0
      requires |m| > CHUNK && Holds(permutation, m, Held())
      modifies this, queueNode, queueNode.state, finalNode`byteIOIndex, finalNode.state
      ensures Wired() && Between(m, input, taken)
      ensures phase == old(phase) && absorbed == old(absorbed)
    {
      hide Absorb, Trunk, LeafOf, Holds;
      ghost var before := Held();
      QueueHolds(permutation, m, before);
      taken := if |input| < CHUNK - queueAbsorbedLen then |input| else CHUNK - queueAbsorbedLen;
      var ok := queueNode.AbsorbAll(input[..taken]);
      assert ok;
      queueAbsorbedLen := queueAbsorbedLen + taken;
      if queueAbsorbedLen == CHUNK {
        QueueFills(permutation, m, input[..taken], before);
        queueAbsorbedLen := 0;
        blockNumber := blockNumber + 1;
        PassLeaf();
      } else {
        QueueGrows(permutation, m, input[..taken], before);
        assert input[..taken] == input;
      }
    }

    /** Four whole chunks at a time. */
    method AbsorbFourAtATime(input: seq<Byte>, start: nat, ghost m: seq<Byte>) returns (taken: nat)
      requires Wired() && Between(m, input, start)
      modifies this, finalNode`byteIOIndex, finalNode.state
      ensures Wired() && Between(m, input, taken)
      ensures phase == old(phase) && absorbed == old(absorbed)
    {
      hide Absorb, Trunked, Holds, Leaf, ChunkOf;
      taken := start;
      while |input| - taken >= 4 * CHUNK
        invariant Wired() && Between(m, input, taken)
        invariant phase == old(phase) && absorbed == old(absorbed)
      {
        var four := input[taken..taken + 4 * CHUNK];
        ghost var before := Held();
        var intermediate := ProcessLeaves(permutation, four);
        FourChunksAbsorbed(permutation, m + input[..taken], four, before, intermediate);
        assert m + input[..taken] + four == m + input[..taken + 4 * CHUNK];
        blockNumber := blockNumber + 4;
        var ok := finalNode.AbsorbAll(intermediate);
        assert ok;
        taken := taken + 4 * CHUNK;
      }
    }

    /** The chunks that are left, one by one. */
    method AbsorbChunks(input: seq<Byte>, start: nat, ghost m: seq<Byte>)
      requires Wired() && Between(m, input, start)
      modifies this, queueNode, queueNode.state, finalNode`byteIOIndex, finalNode.state
      ensures Wired() && Between(m, input, |input|)
      ensures phase == old(phase) && absorbed == old(absorbed)
    {
      hide Absorb, Trunked, Holds, Leaf, LeafOf;
      var taken := start;
      while taken < |input|
        invariant Wired() && Between(m, input, taken)
        invariant phase == old(phase) && absorbed == old(absorbed)
      {
        var len := if |input| - taken < CHUNK then |input| - taken else CHUNK;
        var chunk := input[taken..taken + len];
        ghost var before := Held();
        assert m + input[..taken] + chunk == m + input[..taken + len];
        queueNode.Initialize();
        var ok := queueNode.AbsorbAll(chunk);
        assert ok;
        taken := taken + len;
        if len == CHUNK {
          LeafIsFold(permutation, chunk);
          blockNumber := blockNumber + 1;
          PassLeaf();
          ChunkAbsorbed(permutation, m + input[..taken - len], chunk, before, queueNode.View());
        } else {
          queueAbsorbedLen := len;
          QueueStarted(permutation, m + input[..taken - len], chunk, before);
          assert input[..taken] == input;
        }
      }
    }

    /** KangarooTwelve_Update */
    method Update(input: seq<Byte>) returns (ok: bool)
      requires Valid()
      modifies this, queueNode, queueNode.state, finalNode`byteIOIndex, finalNode.state
      ensures Valid() && ok == (old(phase) == Absorbing) && phase == old(phase)
      ensures absorbed == if ok then old(absorbed) + input else old(absorbed)
    {
      hide Absorb, Trunk;
      if phase != Absorbing {
        return false;
      }
      var taken := 0;
      assert absorbed + input[..0] == absorbed;
      if blockNumber == 0 {
        assert |absorbed| <= CHUNK;
        taken := FillFirstChunk(input, absorbed);
      } else if queueAbsorbedLen != 0 {
        taken := FillQueue(input, absorbed);
      }
      taken := AbsorbFourAtATime(input, taken, absorbed);
      AbsorbChunks(input, taken, absorbed);
      assert input[..|input|] == input;
      absorbed := absorbed + input;
      if blockNumber != 0 && queueAbsorbedLen == 0 {
        TrunkedHolds(permutation, absorbed, Held());
      }
      return true;
    }

    /** right_encode of the number of leaves and the two closing bytes. */
    method AbsorbTail()
      requires Wired() && !finalNode.squeezing && blockNumber < WORD
      modifies finalNode`byteIOIndex, finalNode.state
      ensures Wired()
      ensures finalNode.View() == Absorb(permutation, old(finalNode.View()), Tail(blockNumber))
    {
      hide Absorb, BigEndian;
      var encbuf := new Byte[11];
      var count := RightEncode(encbuf, blockNumber);
      encbuf[count] := 0xFF;
      encbuf[count + 1] := 0xFF;
      assert encbuf[..count + 2] == Tail(blockNumber);
      var ok := finalNode.AbsorbAll(encbuf[..count + 2]);
      assert ok;
    }

    /** The chaining value of the queue, the count of leaves; then the final node is closed. */
    method CloseTree(ghost s: seq<Byte>)
      requires Wired() && Open() && |s| < WORD && Holds(permutation, s, Held())
      modifies this, queueNode, queueNode.state, finalNode, finalNode.state
      ensures Wired() && finalNode.squeezing && finalNode.byteIOIndex == 0
      ensures forall n: nat :: TreeOf(permutation, s, n) == Squeezed(permutation, finalNode.state[..], 0, n)
      ensures phase == old(phase)
    {
      hide Absorb, LeafOf, TreeOf, Squeezed, BigEndian, XorAt, Trunked, Close;
      ghost var held := Held();
      var padding: Byte;
      ghost var closed: State;
      if blockNumber == 0 {
        forall n: nat {
          SingleNodeResult(permutation, s, held, n);
        }
        padding := SINGLE_DOMAIN;
      } else {
        ghost var f := permutation;
        if queueAbsorbedLen != 0 {
          forall n: nat {
            QueuedResult(f, s, held, n);
          }
          blockNumber := blockNumber + 1;
          PassLeaf();
        } else {
          QueueSplits(f, s, held);
          assert s[..|s|] == s;
          forall n: nat {
            TrunkedResult(f, s, held, n);
          }
        }
        blockNumber := blockNumber - 1;
        AbsorbTail();
        padding := FINAL_DOMAIN;
      }
      var ok := finalNode.AbsorbDomainSeparationByte(padding);
      assert ok;
    }

    /** KangarooTwelve_Final: the hash at once, or the final node ready to be squeezed. */
    method Finish(customization: seq<Byte>) returns (ok: bool, output: seq<Byte>)
      requires Valid() && |absorbed| + |customization| + 9 < WORD
      modifies this, queueNode, queueNode.state, finalNode, finalNode.state
      ensures Valid() && ok == (old(phase) == Absorbing)
      ensures !ok ==> phase == old(phase)
      ensures ok && fixedOutputLength != 0 ==>
        && phase == Final
        && output == KT128(permutation, old(absorbed), customization, fixedOutputLength)
      ensures ok && fixedOutputLength == 0 ==>
        && phase == Squeezing && finalNode.squeezing && finalNode.byteIOIndex == 0
        && forall n: nat :: KT128(permutation, old(absorbed), customization, n)
                         == Squeezed(permutation, finalNode.state[..], 0, n)
    {
      hide Absorb, TreeOf, Squeezed, BigEndian, Holds;
      output := [];
      if phase != Absorbing {
        return false, output;
      }
      ghost var message := absorbed;
      if |customization| != 0 {
        ok := Update(customization);
        assert ok;
      }
      assert absorbed == message + customization;
      var encbuf := new Byte[11];
      var count := RightEncode(encbuf, |customization|);
      ok := Update(encbuf[..count]);
      assert ok;
      assert absorbed == message + customization + LengthEncode(|customization|);
      CloseTree(absorbed);
      if fixedOutputLength != 0 {
        phase := Final;
        output := finalNode.Squeeze(fixedOutputLength);
      } else {
        phase := Squeezing;
      }
      return true, output;
    }
  }

  /** KangarooTwelve of the library: one Update, then Final; an empty output is an error. */
  method Hash(f: Permutation, input: seq<Byte>, outputLength: nat, customization: seq<Byte>)
    returns (ok: bool, output: seq<Byte>)
    requires |input| + |customization| + 9 < WORD
    ensures ok == (outputLength != 0)
    ensures ok ==> output == KT128(f, input, customization, outputLength)
  {
    if outputLength == 0 {
      return false, [];
    }
    var instance := new Instance(f, outputLength);
    ok := instance.Update(input);
    assert instance.absorbed == input;
    ok, output := instance.Finish(customization);
  }

  function Joined(parts: seq<seq<Byte>>): seq<Byte> {
    if parts == [] then [] else Joined(parts[..|parts| - 1]) + parts[|parts| - 1]
  }

  /** A new instance that has absorbed a message in pieces. */
  method AbsorbParts(f: Permutation, parts: seq<seq<Byte>>, outputLength: nat) returns (instance: Instance)
    requires |Joined(parts)| + 9 < WORD
    ensures fresh(instance) && fresh(instance.queueNode) && fresh(instance.queueNode.state)
    ensures fresh(instance.finalNode) && fresh(instance.finalNode.state)
    ensures instance.Valid() && instance.phase == Absorbing && instance.absorbed == Joined(parts)
    ensures instance.permutation == f && instance.fixedOutputLength == outputLength
  {
    instance := new Instance(f, outputLength);
    for i := 0 to |parts|
      invariant instance.Valid() && instance.phase == Absorbing
      invariant fresh(instance) && fresh(instance.queueNode) && fresh(instance.queueNode.state)
      invariant fresh(instance.finalNode) && fresh(instance.finalNode.state)
      invariant instance.absorbed == Joined(parts[..i])
    {
      JoinedPrefix(parts, i);
      var ok := instance.Update(parts[i]);
      assert parts[..i + 1][..i] == parts[..i];
    }
    assert parts[..|parts|] == parts;
  }

  lemma {:induction false} JoinedPrefix(parts: seq<seq<Byte>>, i: nat)
    requires i < |parts|
    ensures |Joined(parts[..i])| + |parts[i]| <= |Joined(parts)|
    decreases |parts|
  {
    var n := |parts| - 1;
    if i < n {
      JoinedPrefix(parts[..n], i);
      assert parts[..n][..i] == parts[..i];
    }
  }

  /** Both implementations on one message, this one in any pieces: the two digests are equal. */
  method Compare(f: Permutation, parts: seq<seq<Byte>>, outputLength: nat)
    returns (stock: seq<Byte>, incremental: seq<Byte>)
    requires |Joined(parts)| < 0x1_0000_0000 && 0 < outputLength <= RATE
    ensures stock == incremental == KT128(f, Joined(parts), [], outputLength)
  {
    hide TreeOf;
    stock := OneShot.Hash(f, Joined(parts), outputLength);
    var instance := AbsorbParts(f, parts, outputLength);
    var ok;
    ok, incremental := instance.Finish([]);
  }

  /** Two instances that absorbed the same message in different pieces hold the same. */
  method SplitsAgree(f: Permutation, parts: seq<seq<Byte>>, others: seq<seq<Byte>>, outputLength: nat)
    returns (one: Instance, other: Instance)
    requires Joined(parts) == Joined(others) && |Joined(parts)| + 9 < WORD
    ensures one.Valid() && other.Valid()
    ensures one.blockNumber == other.blockNumber && one.queueAbsorbedLen == other.queueAbsorbedLen
    ensures one.finalNode.View() == other.finalNode.View()
    ensures one.blockNumber != 0 && one.queueAbsorbedLen != 0 ==> one.queueNode.View() == other.queueNode.View()
  {
    one := AbsorbParts(f, parts, outputLength);
    other := AbsorbParts(f, others, outputLength);
    HeldDecided(f, Joined(parts), one.Held(), other.Held());
  }

  lemma HeldDecided(f: Permutation, m: seq<Byte>, p: Progress, q: Progress)
    requires Holds(f, m, p) && Holds(f, m, q)
    ensures p.blocks == q.blocks && p.queued == q.queued && p.final == q.final
    ensures p.blocks != 0 && p.queued != 0 ==> p.queue == q.queue
  {
  }

  lemma {:induction false} OneByte(f: Permutation, s: Node, b: Byte)
    requires s.at < RATE
    ensures Absorb(f, s, [b]) == AbsorbByte(f, s, b)
  {
  }
}
