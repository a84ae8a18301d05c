/**
 The tree hash KT128 of RFC 9861: section 3.2 for the tree, section 3.3 for length_encode.
 Beside it, what a one-pass implementation holds after each prefix of the message.
 */
module TreeHash {
  import opened Sponge

  const CHUNK := 8192
  const LEAF_DOMAIN: Byte := 0x0B
  const FINAL_DOMAIN: Byte := 0x06
  const SINGLE_DOMAIN: Byte := 0x07

  // ----- The definition -----

  /** The bytes of x, most significant first, none for zero. */
  function BigEndian(x: nat): seq<Byte> {
    if x == 0 then [] else BigEndian(x / 256) + [(x % 256) as Byte]
  }

  /** The RFC defines this for x below 256^255, where the remainder has no effect. */
  function LengthEncode(x: nat): seq<Byte> {
    BigEndian(x) + [(|BigEndian(x)| % 256) as Byte]
  }

  function Leaf(f: Permutation, chunk: seq<Byte>): (cv: seq<Byte>)
    ensures |cv| == 32
  {
    TurboShake(f, chunk, LEAF_DOMAIN, 32)
  }

  /** The chaining values of all chunks after the first. */
  function ChainingValues(f: Permutation, rest: seq<Byte>): seq<Byte>
    decreases |rest|
  {
    if rest == [] then []
    else if |rest| <= CHUNK then Leaf(f, rest)
    else Leaf(f, rest[..CHUNK]) + ChainingValues(f, rest[CHUNK..])
  }

  /** The marker between the first chunk and the chaining values. */
  function Marker(): seq<Byte> {
    [0x03] + seq(7, _ => 0 as bv8)
  }

  /** The first chunk, the marker and the chaining values. */
  function Trunk(f: Permutation, s: seq<Byte>): seq<Byte>
    requires |s| >= CHUNK
  {
    s[..CHUNK] + Marker() + ChainingValues(f, s[CHUNK..])
  }

  /** The number of chunks of s after the first. */
  function Leaves(s: seq<Byte>): nat
    requires |s| > CHUNK
  {
    (|s| - 1) / CHUNK
  }

  function Tail(leaves: nat): seq<Byte> {
    LengthEncode(leaves) + [0xFF, 0xFF]
  }

  function TreeOf(f: Permutation, s: seq<Byte>, n: nat): seq<Byte> {
    if |s| <= CHUNK then TurboShake(f, s, SINGLE_DOMAIN, n)
    else TurboShake(f, Trunk(f, s) + Tail(Leaves(s)), FINAL_DOMAIN, n)
  }

  /** KT128(message, customization, n). */
  function KT128(f: Permutation, message: seq<Byte>, customization: seq<Byte>, n: nat): seq<Byte> {
    TreeOf(f, message + customization + LengthEncode(|customization|), n)
  }

  // ----- What one pass over the message holds -----

  /** The two sponges and the two counters of a running computation. */
  datatype Progress = Progress(blocks: nat, queued: nat, final: Node, queue: Node)

  /** Whole chunks only: everything of m is in the final node. */
  ghost predicate Trunked(f: Permutation, m: seq<Byte>, p: Progress) {
    && |m| >= CHUNK && |m| % CHUNK == 0
    && p.blocks == |m| / CHUNK && p.queued == 0
    && p.final == Absorb(f, Fresh(), Trunk(f, m))
  }

  /** p is what is held after absorbing m. */
  ghost predicate Holds(f: Permutation, m: seq<Byte>, p: Progress) {
    if |m| <= CHUNK then
      p.blocks == 0 && p.queued == |m| && p.final == Absorb(f, Fresh(), m)
    else
      var q := |m| % CHUNK;
      && p.blocks == |m| / CHUNK && p.queued == q
      && p.final == Absorb(f, Fresh(), Trunk(f, m[..|m| - q]))
      && (q != 0 ==> p.queue == Absorb(f, Fresh(), m[|m| - q..]))
  }

  /** The chaining value that closing a sponge gives. */
  function LeafOf(f: Permutation, queue: Node): seq<Byte>
    requires queue.at < RATE
  {
    Squeezed(f, Close(f, queue, LEAF_DOMAIN), 0, 32)
  }

  lemma {:induction false} ChainingValuesAppend(f: Permutation, rest: seq<Byte>, chunk: seq<Byte>)
    requires |rest| % CHUNK == 0 && 0 < |chunk| <= CHUNK
    ensures ChainingValues(f, rest + chunk) == ChainingValues(f, rest) + Leaf(f, chunk)
    decreases |rest|
  {
    hide Leaf;
    if rest == [] {
      assert rest + chunk == chunk;
    } else {
      var first, others := rest[..CHUNK], rest[CHUNK..];
      ChainingValuesAppend(f, others, chunk);
      assert (rest + chunk)[..CHUNK] == first && (rest + chunk)[CHUNK..] == others + chunk;
      if |rest| == CHUNK {
        assert others == [] && first == rest;
      }
    }
  }

  lemma TrunkAppend(f: Permutation, m: seq<Byte>, chunk: seq<Byte>)
    requires |m| >= CHUNK && |m| % CHUNK == 0 && 0 < |chunk| <= CHUNK
    ensures Trunk(f, m + chunk) == Trunk(f, m) + Leaf(f, chunk)
  {
    hide Leaf;
    ChainingValuesAppend(f, m[CHUNK..], chunk);
    assert (m + chunk)[..CHUNK] == m[..CHUNK] && (m + chunk)[CHUNK..] == m[CHUNK..] + chunk;
  }

  /** After 8192 bytes the marker is one byte added and the position rounded up to eight. */
  lemma MarkerAbsorbed(f: Permutation, m: seq<Byte>, p: Progress)
    requires |m| == CHUNK && Holds(f, m, p)
    ensures p.final.at == 128 && AbsorbByte(f, p.final, 0x03).at == 129
    ensures var marked := AbsorbByte(f, p.final, 0x03);
      Trunked(f, m, Progress(1, 0, Node(marked.state, 136), p.queue))
  {
    hide Trunk;
    AbsorbPosition(f, Fresh(), m);
    var marked := AbsorbByte(f, p.final, 0x03);
    AbsorbZeros(f, marked, 7);
    var zeros: seq<Byte> := seq(7, _ => 0 as bv8);
    AbsorbConcat(f, p.final, [0x03], zeros);
    assert [0x03 as Byte][..0] == [];
    assert Absorb(f, p.final, [0x03]) == marked;
    AbsorbConcat(f, Fresh(), m, Marker());
    TrunkOfChunk(f, m);
  }

  lemma TrunkOfChunk(f: Permutation, m: seq<Byte>)
    requires |m| == CHUNK
    ensures Trunk(f, m) == m + Marker()
  {
  }

  lemma {:induction false} FirstChunkGrows(f: Permutation, m: seq<Byte>, d: seq<Byte>, p: Progress)
    requires |m| + |d| <= CHUNK && Holds(f, m, p)
    ensures Holds(f, m + d, Progress(0, p.queued + |d|, Absorb(f, p.final, d), p.queue))
  {
    hide Absorb;
    AbsorbConcat(f, Fresh(), m, d);
  }

  lemma {:induction false} LeafIsFold(f: Permutation, chunk: seq<Byte>)
    ensures Leaf(f, chunk) == LeafOf(f, Absorb(f, Fresh(), chunk))
  {
    TurboShakeIsFold(f, chunk, LEAF_DOMAIN, 32);
  }

  /** A further whole chunk. */
  lemma ChunkAbsorbed(f: Permutation, m: seq<Byte>, chunk: seq<Byte>, p: Progress, queue: Node)
    requires Trunked(f, m, p) && |chunk| == CHUNK
    ensures Trunked(f, m + chunk, Progress(p.blocks + 1, 0, Absorb(f, p.final, Leaf(f, chunk)), queue))
  {
    hide Absorb, Trunk, Leaf;
    TrunkAppend(f, m, chunk);
    AbsorbConcat(f, Fresh(), Trunk(f, m), Leaf(f, chunk));
  }

  /** Whole chunks and an unfinished one. */
  lemma {:induction false} QueueStarted(f: Permutation, m: seq<Byte>, d: seq<Byte>, p: Progress)
    requires Trunked(f, m, p) && 0 < |d| < CHUNK
    ensures Holds(f, m + d, Progress(p.blocks, |d|, p.final, Absorb(f, Fresh(), d)))
  {
    hide Absorb, Trunk;
    assert (m + d)[..|m|] == m && (m + d)[|m|..] == d;
  }

  lemma TrunkedHolds(f: Permutation, m: seq<Byte>, p: Progress)
    requires Trunked(f, m, p) && |m| > CHUNK
    ensures Holds(f, m, p)
  {
    hide Absorb, Trunk;
    assert m[..|m|] == m;
  }

  /** The parts of m that the final node and the queue hold. */
  lemma QueueSplits(f: Permutation, m: seq<Byte>, p: Progress)
    requires |m| > CHUNK && Holds(f, m, p)
    ensures var cut := |m| - p.queued;
      0 <= cut && Trunked(f, m[..cut], Progress(p.blocks, 0, p.final, p.queue))
  {
  }

  /** The queue takes more, short of a whole chunk. */
  lemma {:induction false} QueueGrows(f: Permutation, m: seq<Byte>, d: seq<Byte>, p: Progress)
    requires |m| > CHUNK && Holds(f, m, p) && 0 < p.queued && p.queued + |d| < CHUNK
    ensures Holds(f, m + d, Progress(p.blocks, p.queued + |d|, p.final, Absorb(f, p.queue, d)))
  {
    hide Absorb, Trunk, Holds, Trunked;
    QueueSplits(f, m, p);
    var cut := |m| - p.queued;
    QueueHolds(f, m, p);
    AbsorbConcat(f, Fresh(), m[cut..], d);
    QueueStarted(f, m[..cut], m[cut..] + d, Progress(p.blocks, 0, p.final, p.queue));
    assert m[..cut] + (m[cut..] + d) == m + d;
  }

  lemma QueueHolds(f: Permutation, m: seq<Byte>, p: Progress)
    requires |m| > CHUNK && Holds(f, m, p) && p.queued > 0
    ensures p.queued < CHUNK && p.queue == Absorb(f, Fresh(), m[|m| - p.queued..])
  {
  }

  lemma {:induction false} QueueFillsTo(f: Permutation, whole: seq<Byte>, part: seq<Byte>, d: seq<Byte>, p: Progress)
    requires Trunked(f, whole, Progress(p.blocks, 0, p.final, p.queue))
    requires p.queue == Absorb(f, Fresh(), part) && |part| + |d| == CHUNK
    ensures p.queue.at < RATE
    ensures var queue := Absorb(f, p.queue, d);
      Trunked(f, whole + part + d, Progress(p.blocks + 1, 0, Absorb(f, p.final, LeafOf(f, queue)), queue))
  {
    hide Absorb, Trunk, Trunked, LeafOf, Leaf;
    AbsorbConcat(f, Fresh(), part, d);
    LeafIsFold(f, part + d);
    ChunkAbsorbed(f, whole, part + d, Progress(p.blocks, 0, p.final, p.queue), Absorb(f, p.queue, d));
    assert whole + (part + d) == whole + part + d;
  }

  /** The queue takes exactly what it lacks, and its chaining value goes to the final node. */
  lemma {:induction false} QueueFills(f: Permutation, m: seq<Byte>, d: seq<Byte>, p: Progress)
    requires |m| > CHUNK && Holds(f, m, p) && 0 < p.queued && p.queued + |d| == CHUNK
    ensures p.queue.at < RATE
    ensures var queue := Absorb(f, p.queue, d);
      Trunked(f, m + d, Progress(p.blocks + 1, 0, Absorb(f, p.final, LeafOf(f, queue)), queue))
  {
    hide Absorb, Trunk, Holds, Trunked, LeafOf, Leaf;
    QueueSplits(f, m, p);
    QueueHolds(f, m, p);
    var cut := |m| - p.queued;
    assert m[..cut] + m[cut..] == m;
    QueueFillsTo(f, m[..cut], m[cut..], d, p);
  }

  // ----- The end of the message -----

  lemma {:induction false} SingleNodeResult(f: Permutation, s: seq<Byte>, p: Progress, n: nat)
    requires |s| <= CHUNK && Holds(f, s, p)
    ensures p.final.at < RATE
    ensures TreeOf(f, s, n) == Squeezed(f, Close(f, p.final, SINGLE_DOMAIN), 0, n)
  {
    TurboShakeIsFold(f, s, SINGLE_DOMAIN, n);
  }

  /** With an empty queue the final node only lacks the count of leaves. */
  lemma {:induction false} TrunkedResult(f: Permutation, s: seq<Byte>, p: Progress, n: nat)
    requires |s| > CHUNK && Trunked(f, s, p)
    ensures p.final.at < RATE && p.blocks >= 1
    ensures TreeOf(f, s, n)
         == Squeezed(f, Close(f, Absorb(f, p.final, Tail(p.blocks - 1)), FINAL_DOMAIN), 0, n)
  {
    hide Absorb, Trunk, Tail, TurboShake;
    AbsorbConcat(f, Fresh(), Trunk(f, s), Tail(Leaves(s)));
    TurboShakeIsFold(f, Trunk(f, s) + Tail(Leaves(s)), FINAL_DOMAIN, n);
  }

  /** With a started queue its chaining value comes first. */
  lemma {:induction false} QueuedResult(f: Permutation, s: seq<Byte>, p: Progress, n: nat)
    requires |s| > CHUNK && Holds(f, s, p) && p.queued > 0
    ensures p.final.at < RATE && p.queue.at < RATE && p.blocks >= 1
    ensures TreeOf(f, s, n)
         == Squeezed(f, Close(f, Absorb(f, Absorb(f, p.final, LeafOf(f, p.queue)), Tail(p.blocks)),
                              FINAL_DOMAIN), 0, n)
  {
    hide Absorb, Trunk, Tail, TurboShake, LeafOf, Leaf;
    QueueHolds(f, s, p);
    var cut := |s| - p.queued;
    var whole, chunk := s[..cut], s[cut..];
    assert whole + chunk == s;
    LeafIsFold(f, chunk);
    TrunkAppend(f, whole, chunk);
    AbsorbConcat(f, Fresh(), Trunk(f, whole), Leaf(f, chunk));
    AbsorbConcat(f, Fresh(), Trunk(f, s), Tail(p.blocks));
    TurboShakeIsFold(f, Trunk(f, s) + Tail(p.blocks), FINAL_DOMAIN, n);
  }
}
