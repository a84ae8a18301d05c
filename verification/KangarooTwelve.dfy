/**
 The one-shot KangarooTwelve: absorbing with a fast path for full blocks and a lane-wise
 path for pieces of a block, and one pass over the chunks with two sponges.
 */
module KangarooTwelve {
  import opened Sponge
  import opened TreeHash
  import opened KeccakState

  /** KangarooTwelve_F */
  class SpongeBuffer {
    const permutation: Permutation
    const state: array<Byte>
    var byteIOIndex: nat

    ghost predicate Valid()
      reads this, state
    {
      state.Length == 200 && byteIOIndex < RATE
    }

    ghost function View(): Node
      reads this, state
      requires Valid()
    {
      Node(state[..], byteIOIndex)
    }

    constructor (f: Permutation)
      ensures Valid() && fresh(this) && fresh(state) && permutation == f && View() == Fresh()
    {
      permutation := f;
      state := new Byte[200](_ => 0);
      byteIOIndex := 0;
      new;
      assert state[..] == Blank();
    }

    /** memset of the whole structure */
    method Reset()
      requires state.Length == 200
      modifies this, state
      ensures Valid() && View() == Fresh()
    {
      Clear(state);
      byteIOIndex := 0;
    }

    /** A piece at the start of a block: lanes by eights, fours, twos and one, then the odd bytes. */
    method AddAligned(piece: seq<Byte>)
      requires state.Length == 200 && |piece| <= RATE
      modifies state
      ensures state[..] == XorAt(old(state[..]), 0, piece)
    {
      ghost var was := state[..];
      NothingAdded(was, 0);
      var lanes := |piece| / 8;
      var j := 0;
      while j + 8 <= lanes
        invariant 0 <= j <= lanes && state[..] == XorAt(was, 0, piece[..8 * j])
      {
        AddRun(j, 8, piece, was);
        j := j + 8;
      }
      while j + 4 <= lanes
        invariant 0 <= j <= lanes && state[..] == XorAt(was, 0, piece[..8 * j])
      {
        AddRun(j, 4, piece, was);
        j := j + 4;
      }
      while j + 2 <= lanes
        invariant 0 <= j <= lanes && state[..] == XorAt(was, 0, piece[..8 * j])
      {
        AddRun(j, 2, piece, was);
        j := j + 2;
      }
      if j < lanes {
        AddRun(j, 1, piece, was);
        j := j + 1;
      }
      if |piece| % 8 != 0 {
        XorAtAppend(was, 0, piece[..8 * lanes], piece[8 * lanes..]);
        AddBytes(state, 8 * lanes, piece[8 * lanes..]);
        assert piece[..8 * lanes] + piece[8 * lanes..] == piece;
      } else {
        assert piece[..8 * lanes] == piece;
      }
    }

    method AddRun(first: nat, count: nat, piece: seq<Byte>, ghost was: State)
      requires state.Length == 200 && 8 * (first + count) <= |piece| <= RATE
      requires state[..] == XorAt(was, 0, piece[..8 * first])
      modifies state
      ensures state[..] == XorAt(was, 0, piece[..8 * (first + count)])
    {
      AddLanes(state, first, count, piece);
      var before, run := piece[..8 * first], piece[8 * first..8 * (first + count)];
      XorAtAppend(was, 0, before, run);
      assert before + run == piece[..8 * (first + count)];
    }

    /** A piece that starts inside a block: lane by lane, the first from its offset on. */
    method AddUnaligned(piece: seq<Byte>)
      requires Valid() && byteIOIndex + |piece| <= RATE
      modifies state
      ensures state[..] == XorAt(old(state[..]), byteIOIndex, piece)
    {
      ghost var was := state[..];
      NothingAdded(was, byteIOIndex);
      var sizeLeft := |piece|;
      var lanePosition := byteIOIndex / 8;
      var offsetInLane := byteIOIndex % 8;
      var done := 0;
      while sizeLeft > 0
        invariant 0 <= sizeLeft && done + sizeLeft == |piece|
        invariant sizeLeft > 0 ==> offsetInLane < 8 && 8 * lanePosition + offsetInLane == byteIOIndex + done
        invariant state[..] == XorAt(was, byteIOIndex, piece[..done])
      {
        var bytesInLane := 8 - offsetInLane;
        if bytesInLane > sizeLeft {
          bytesInLane := sizeLeft;
        }
        if bytesInLane != 0 {
          AddBytes(state, 8 * lanePosition + offsetInLane, piece[done..done + bytesInLane]);
          XorAtAppend(was, byteIOIndex, piece[..done], piece[done..done + bytesInLane]);
          assert piece[..done] + piece[done..done + bytesInLane] == piece[..done + bytesInLane];
        }
        sizeLeft := sizeLeft - bytesInLane;
        lanePosition := lanePosition + 1;
        offsetInLane := 0;
        done := done + bytesInLane;
      }
      assert piece[..done] == piece;
    }

    /** Full blocks, while one is left; the rest of data is left over. */
    method AbsorbFullBlocks(data: seq<Byte>) returns (left: nat)
      requires Valid() && byteIOIndex == 0
      modifies state
      ensures Valid() && left <= |data| && left < RATE
      ensures View() == Absorb(permutation, old(View()), data[..|data| - left])
    {
      ghost var start := View();
      left := |data|;
      var done := 0;
      while left >= RATE
        invariant done + left == |data|
        invariant View() == Absorb(permutation, start, data[..done])
      {
        var block := data[done..done + RATE];
        AbsorbPiece(permutation, View(), block);
        AbsorbConcat(permutation, start, data[..done], block);
        assert data[..done] + block == data[..done + RATE];
        AddLanes(state, 0, 21, block);
        assert block[8 * 0..8 * (0 + 21)] == block;
        Permute(permutation, state);
        left := left - RATE;
        done := done + RATE;
      }
    }

    /** A piece that stays in the current block, and the permutation when it fills it. */
    method AbsorbPartial(piece: seq<Byte>)
      requires Valid() && byteIOIndex + |piece| <= RATE
      modifies this, state
      ensures Valid() && View() == Absorb(permutation, old(View()), piece)
    {
      hide XorAt, Absorb;
      AbsorbPiece(permutation, View(), piece);
      if byteIOIndex == 0 {
        AddAligned(piece);
      } else {
        AddUnaligned(piece);
      }
      byteIOIndex := byteIOIndex + |piece|;
      if byteIOIndex == RATE {
        Permute(permutation, state);
        byteIOIndex := 0;
      }
    }

    /** KangarooTwelve_F_Absorb */
    method AbsorbAll(data: seq<Byte>)
      requires Valid()
      modifies this, state
      ensures Valid() && View() == Absorb(permutation, old(View()), data)
    {
      hide XorAt, Absorb;
      ghost var start := View();
      var i := 0;
      AbsorbNothing(permutation, start);
      assert data[..0] == [];
      while i < |data|
        invariant 0 <= i <= |data| && Valid()
        invariant View() == Absorb(permutation, start, data[..i])
      {
        ghost var before := i;
        if byteIOIndex == 0 && |data| >= i + RATE {
          var left := AbsorbFullBlocks(data[i..]);
          i := |data| - left;
          assert data[before..][..i - before] == data[before..i];
        } else {
          var partialBlock := if |data| - i + byteIOIndex > RATE then RATE - byteIOIndex else |data| - i;
          i := i + partialBlock;
          AbsorbPartial(data[i - partialBlock..i]);
        }
        AbsorbConcat(permutation, start, data[..before], data[before..i]);
        assert data[..before] + data[before..i] == data[..i];
      }
      assert data[..i] == data;
    }

    /** Adds the domain byte and the closing bit and permutes; the position stays as it was. */
    method CloseWith(domain: Byte)
      requires Valid()
      modifies state
      ensures Valid() && state[..] == Close(permutation, old(View()), domain)
    {
      AddBytes(state, byteIOIndex, [domain]);
      AddBytes(state, RATE - 1, [0x80]);
      Permute(permutation, state);
    }

    /** Counts a zero byte: nothing is added, but a full block is permuted. */
    method SkipByte()
      requires Valid()
      modifies this, state
      ensures Valid() && View() == Absorb(permutation, old(View()), [0])
    {
      ZeroByte(permutation, View());
      byteIOIndex := byteIOIndex + 1;
      if byteIOIndex == RATE {
        Permute(permutation, state);
        byteIOIndex := 0;
      }
    }

    /** The marker after the first chunk: one byte, then the position rounded up to a lane. */
    method AddMarker()
      requires Valid()
      modifies this, state
      ensures var marked := AbsorbByte(permutation, old(View()), 0x03);
        && state[..] == marked.state
        && byteIOIndex == if marked.at == 0 then 0 else (marked.at + 7) / 8 * 8
    {
      AddBytes(state, byteIOIndex, [0x03]);
      byteIOIndex := byteIOIndex + 1;
      if byteIOIndex == RATE {
        Permute(permutation, state);
        byteIOIndex := 0;
      } else {
        byteIOIndex := (byteIOIndex + 7) / 8 * 8;
      }
    }
  }

  lemma {:induction false} AbsorbNothing(f: Permutation, s: Node)
    requires s.at < RATE
    ensures Absorb(f, s, []) == s
  {
  }

  ghost predicate Pair(f: Permutation, final: SpongeBuffer, queue: SpongeBuffer)
    reads final, final.state, queue, queue.state
  {
    && final.Valid() && queue.Valid() && final != queue && final.state != queue.state
    && final.permutation == f && queue.permutation == f
  }

  ghost function Held(blocks: nat, queued: nat, final: SpongeBuffer, queue: SpongeBuffer): Progress
    reads final, final.state, queue, queue.state
    requires final.Valid() && queue.Valid()
  {
    Progress(blocks, queued, final.View(), queue.View())
  }

  /** Closes the queue as a leaf and absorbs its chaining value into the final node. */
  method PassLeaf(f: Permutation, final: SpongeBuffer, queue: SpongeBuffer)
    requires Pair(f, final, queue)
    modifies final, final.state, queue, queue.state
    ensures Pair(f, final, queue)
    ensures final.View() == Absorb(f, old(final.View()), LeafOf(f, old(queue.View())))
  {
    ghost var closed := Close(f, queue.View(), LEAF_DOMAIN);
    queue.CloseWith(LEAF_DOMAIN);
    SqueezedBlock(f, closed, 0, 32);
    queue.byteIOIndex := 32;
    final.AbsorbAll(queue.state[..32]);
  }

  /** All chunks after the first: whole ones become leaves, a shorter last one stays queued. */
  method AbsorbChunks(f: Permutation, final: SpongeBuffer, queue: SpongeBuffer, input: seq<Byte>)
    returns (blockNumber: nat, queueAbsorbedLen: nat)
    requires Pair(f, final, queue) && |input| > CHUNK
    requires Trunked(f, input[..CHUNK], Held(1, 0, final, queue))
    modifies final, final.state, queue, queue.state
    ensures Pair(f, final, queue)
    ensures Holds(f, input, Held(blockNumber, queueAbsorbedLen, final, queue))
  {
    hide Absorb, Trunked, Holds, LeafOf, Leaf;
    blockNumber, queueAbsorbedLen := 1, 0;
    var done := CHUNK;
    while done < |input|
      invariant CHUNK <= done <= |input| && Pair(f, final, queue)
      invariant done < |input| ==> queueAbsorbedLen == 0
      invariant queueAbsorbedLen == 0 ==> Trunked(f, input[..done], Held(blockNumber, 0, final, queue))
      invariant queueAbsorbedLen != 0 ==> Holds(f, input, Held(blockNumber, queueAbsorbedLen, final, queue))
    {
      var len := if |input| - done < CHUNK then |input| - done else CHUNK;
      var chunk := input[done..done + len];
      ghost var before := Held(blockNumber, 0, final, queue);
      assert input[..done] + chunk == input[..done + len];
      queue.Reset();
      queue.AbsorbAll(chunk);
      ghost var filled := queue.View();
      done := done + len;
      if len == CHUNK {
        LeafIsFold(f, chunk);
        blockNumber := blockNumber + 1;
        PassLeaf(f, final, queue);
        ChunkAbsorbed(f, input[..done - len], chunk, before, queue.View());
      } else {
        queueAbsorbedLen := len;
        QueueStarted(f, input[..done - len], chunk, before);
        assert input[..done] == input;
      }
    }
    assert input[..done] == input;
    if queueAbsorbedLen == 0 {
      TrunkedHolds(f, input, Held(blockNumber, 0, final, queue));
    }
  }

  /** Adds the zero byte that encodes the empty customization behind the last chunk. */
  method AddEncodedLength(f: Permutation, final: SpongeBuffer, queue: SpongeBuffer,
                          blocks: nat, queued: nat, ghost input: seq<Byte>)
    returns (blockNumber: nat, queueAbsorbedLen: nat)
    requires Pair(f, final, queue) && |input| > CHUNK
    requires Holds(f, input, Held(blocks, queued, final, queue))
    modifies final, final.state, queue, queue.state
    ensures Pair(f, final, queue)
    ensures Holds(f, input + [0], Held(blockNumber, queueAbsorbedLen, final, queue))
  {
    hide Absorb, Trunk, Holds, LeafOf;
    blockNumber, queueAbsorbedLen := blocks, queued;
    ghost var before := Held(blocks, queued, final, queue);
    if queueAbsorbedLen != 0 {
      QueueHolds(f, input, before);
      queue.SkipByte();
      queueAbsorbedLen := queueAbsorbedLen + 1;
      if queueAbsorbedLen == CHUNK {
        QueueFills(f, input, [0], before);
        blockNumber := blockNumber + 1;
        queueAbsorbedLen := 0;
        PassLeaf(f, final, queue);
        TrunkedHolds(f, input + [0], Held(blockNumber, 0, final, queue));
      } else {
        QueueGrows(f, input, [0], before);
      }
    } else {
      QueueSplits(f, input, before);
      assert input[..|input|] == input;
      StartQueue(f, queue);
      queueAbsorbedLen := 1;
      QueueStarted(f, input, [0], before);
    }
  }

  /** A fresh queue that has counted one zero byte. */
  method StartQueue(f: Permutation, queue: SpongeBuffer)
    requires queue.Valid() && queue.permutation == f
    modifies queue, queue.state
    ensures queue.Valid() && queue.View() == Absorb(f, Fresh(), [0])
  {
    Clear(queue.state);
    queue.byteIOIndex := 1;
    AbsorbZeros(f, Fresh(), 1);
    var zero: seq<Byte> := seq(1, _ => 0 as bv8);
    assert zero == [0];
  }

  /** The marker behind a complete first chunk. */
  method EndFirstChunk(f: Permutation, final: SpongeBuffer, queue: SpongeBuffer, ghost chunk: seq<Byte>)
    requires Pair(f, final, queue) && |chunk| == CHUNK
    requires final.View() == Absorb(f, Fresh(), chunk)
    modifies final, final.state
    ensures Pair(f, final, queue) && Trunked(f, chunk, Held(1, 0, final, queue))
  {
    MarkerAbsorbed(f, chunk, Held(0, CHUNK, final, queue));
    final.AddMarker();
  }

  /** The chaining value of the queue, the count of leaves and the last domain byte. */
  method EndTree(f: Permutation, final: SpongeBuffer, queue: SpongeBuffer,
                 blocks: nat, queued: nat, ghost s: seq<Byte>, ghost n: nat)
    requires Pair(f, final, queue) && CHUNK < |s| <= 0x1_0000_0000
    requires Holds(f, s, Held(blocks, queued, final, queue))
    modifies final, final.state, queue, queue.state
    ensures Pair(f, final, queue)
    ensures TreeOf(f, s, n) == Squeezed(f, f(XorAt(final.state[..], RATE - 1, [0x80])), 0, n)
  {
    hide Absorb, LeafOf, TreeOf, Squeezed, BigEndian, XorAt, Trunked;
    var blockNumber := blocks;
    assert blockNumber <= |s| <= 0x1_0000_0000;
    ghost var held := Held(blocks, queued, final, queue);
    if queued != 0 {
      QueuedResult(f, s, held, n);
      blockNumber := blockNumber + 1;
      PassLeaf(f, final, queue);
    } else {
      QueueSplits(f, s, held);
      assert s[..|s|] == s;
      TrunkedResult(f, s, held, n);
    }
    blockNumber := blockNumber - 1;
    var encbuf := new Byte[11];
    var count := RightEncode(encbuf, blockNumber);
    encbuf[count] := 0xFF;
    encbuf[count + 1] := 0xFF;
    assert encbuf[..count + 2] == Tail(blockNumber);
    final.AbsorbAll(encbuf[..count + 2]);
    AddBytes(final.state, final.byteIOIndex, [FINAL_DOMAIN]);
  }

  /** KangarooTwelve: the hash of RFC 9861 with empty customization. */
  method Hash(f: Permutation, input: seq<Byte>, outputByteLen: nat) returns (output: seq<Byte>)
    requires |input| < 0x1_0000_0000 && outputByteLen <= RATE
    ensures output == KT128(f, input, [], outputByteLen)
  {
    hide Absorb, Trunked, Holds, TreeOf, Squeezed, XorAt;
    ghost var s := input + [0];
    EmptyCustomization(f, input, outputByteLen);
    var finalNode := new SpongeBuffer(f);
    var queueNode := new SpongeBuffer(f);
    var len := if CHUNK < |input| then CHUNK else |input|;
    var first := input[..len];
    finalNode.AbsorbAll(first);
    var blockNumber, queueAbsorbedLen := 0, 0;
    if len == CHUNK {
      EndFirstChunk(f, finalNode, queueNode, first);
      if |input| > len {
        blockNumber, queueAbsorbedLen := AbsorbChunks(f, finalNode, queueNode, input);
        blockNumber, queueAbsorbedLen :=
          AddEncodedLength(f, finalNode, queueNode, blockNumber, queueAbsorbedLen, input);
      } else {
        ghost var held := Held(1, 0, finalNode, queueNode);
        StartQueue(f, queueNode);
        blockNumber, queueAbsorbedLen := 1, 1;
        assert first == input;
        QueueStarted(f, input, [0], held);
      }
      EndTree(f, finalNode, queueNode, blockNumber, queueAbsorbedLen, s, outputByteLen);
    } else {
      assert first == input;
      EndSingle(f, finalNode, input, outputByteLen);
    }
    AddBytes(finalNode.state, RATE - 1, [0x80]);
    Permute(f, finalNode.state);
    SqueezedBlock(f, finalNode.state[..], 0, outputByteLen);
    output := finalNode.state[..outputByteLen];
  }

  /** A message of at most one chunk: the encoded length and the domain byte. */
  method EndSingle(f: Permutation, final: SpongeBuffer, ghost input: seq<Byte>, ghost n: nat)
    requires final.Valid() && final.permutation == f && |input| < CHUNK
    requires final.View() == Absorb(f, Fresh(), input)
    modifies final, final.state
    ensures TreeOf(f, input + [0], n) == Squeezed(f, f(XorAt(final.state[..], RATE - 1, [0x80])), 0, n)
  {
    hide Absorb, TreeOf, Squeezed, XorAt;
    ghost var absorbed := Absorb(f, final.View(), [0]);
    AbsorbConcat(f, Fresh(), input, [0]);
    SingleNodeResult(f, input + [0], Progress(0, |input| + 1, absorbed, absorbed), n);
    ZeroByte(f, final.View());
    final.byteIOIndex := final.byteIOIndex + 1;
    if final.byteIOIndex == RATE {
      Permute(f, final.state);
      AddBytes(final.state, 0, [SINGLE_DOMAIN]);
    } else {
      AddBytes(final.state, final.byteIOIndex, [SINGLE_DOMAIN]);
    }
  }

  lemma {:induction false} ZeroByte(f: Permutation, s: Node)
    requires s.at < RATE
    ensures Absorb(f, s, [0]) == if s.at + 1 == RATE then Node(f(s.state), 0) else Node(s.state, s.at + 1)
  {
    AbsorbPiece(f, s, [0]);
    assert XorAt(s.state, s.at, [0]) == s.state;
  }

  lemma EmptyCustomization(f: Permutation, input: seq<Byte>, n: nat)
    ensures KT128(f, input, [], n) == TreeOf(f, input + [0], n)
  {
    assert LengthEncode(0) == [0];
    assert input + [] + LengthEncode(0) == input + [0];
  }
}
