/**
 The sponge under KangarooTwelve: the permutation of the 200-byte state is a parameter, and
 absorbing is a fold over single bytes. TurboSHAKE128 is given block by block, as section
 2.2 of RFC 9861 writes it, and shown to be that fold.
 */
module Sponge {
  type Byte = bv8
  type State = s: seq<Byte> | |s| == 200 witness seq(200, _ => 0 as bv8)
  type Permutation = State -> State

  const RATE := 168

  /** A sponge that is being filled: its state and the position of the next byte. */
  datatype Node = Node(state: State, at: nat)

  function Xor(a: Byte, b: Byte): Byte {
    a ^ b
  }

  function Blank(): (s: State) {
    seq(200, _ => 0 as bv8)
  }

  function Fresh(): Node {
    Node(Blank(), 0)
  }

  /** The state with data added, byte by byte, from position at on. */
  function XorAt(s: State, at: nat, data: seq<Byte>): State
    requires at + |data| <= 200
  {
    seq(200, (k: nat) requires k < 200 =>
      if at <= k < at + |data| then Xor(s[k], data[k - at]) else s[k])
  }

  function AbsorbByte(f: Permutation, s: Node, b: Byte): (r: Node)
    requires s.at < RATE
    ensures r.at < RATE
  {
    var added := XorAt(s.state, s.at, [b]);
    if s.at + 1 == RATE then Node(f(added), 0) else Node(added, s.at + 1)
  }

  function Absorb(f: Permutation, s: Node, data: seq<Byte>): (r: Node)
    requires s.at < RATE
    ensures r.at < RATE
  {
    if data == [] then s
    else AbsorbByte(f, Absorb(f, s, data[..|data| - 1]), data[|data| - 1])
  }

  /** Domain byte, closing bit of the padding, permutation. */
  function Close(f: Permutation, s: Node, domain: Byte): State
    requires s.at < RATE
  {
    f(XorAt(XorAt(s.state, s.at, [domain]), RATE - 1, [0x80]))
  }

  /** The bytes that a closed sponge gives from position at of its current block on. */
  function Squeezed(f: Permutation, s: State, at: nat, n: nat): (r: seq<Byte>)
    requires at <= RATE
    ensures |r| == n
    decreases n, at
  {
    if n == 0 then []
    else if at == RATE then Squeezed(f, f(s), 0, n)
    else [s[at]] + Squeezed(f, s, at + 1, n - 1)
  }

  // ----- TurboSHAKE128 as RFC 9861 defines it -----

  /** Full blocks while more than one is left, then the last block with its padding. */
  function AbsorbBlocks(f: Permutation, s: State, input: seq<Byte>): State
    requires |input| > 0
    decreases |input|
  {
    if |input| > RATE then AbsorbBlocks(f, f(XorAt(s, 0, input[..RATE])), input[RATE..])
    else f(XorAt(XorAt(s, 0, input), RATE - 1, [0x80]))
  }

  function SqueezeBlocks(f: Permutation, s: State, n: nat): (r: seq<Byte>)
    ensures |r| == n
    decreases n
  {
    if n > RATE then s[..RATE] + SqueezeBlocks(f, f(s), n - RATE) else s[..n]
  }

  function TurboShake(f: Permutation, message: seq<Byte>, domain: Byte, n: nat): (r: seq<Byte>)
    ensures |r| == n
  {
    SqueezeBlocks(f, AbsorbBlocks(f, Blank(), message + [domain]), n)
  }

  // ----- The fold -----

  lemma {:induction false} AbsorbConcat(f: Permutation, s: Node, a: seq<Byte>, b: seq<Byte>)
    requires s.at < RATE
    ensures Absorb(f, s, a + b) == Absorb(f, Absorb(f, s, a), b)
  {
    hide AbsorbByte;
    if b == [] {
      assert a + b == a;
    } else {
      AbsorbConcat(f, s, a, b[..|b| - 1]);
      assert (a + b)[..|a + b| - 1] == a + b[..|b| - 1];
    }
  }

  lemma {:induction false} AbsorbPosition(f: Permutation, s: Node, data: seq<Byte>)
    requires s.at < RATE
    ensures Absorb(f, s, data).at == (s.at + |data|) % RATE
  {
    if data != [] {
      AbsorbPosition(f, s, data[..|data| - 1]);
    }
  }

  lemma XorAtAppend(s: State, at: nat, a: seq<Byte>, b: seq<Byte>)
    requires at + |a| + |b| <= 200
    ensures XorAt(XorAt(s, at, a), at + |a|, b) == XorAt(s, at, a + b)
  {
  }

  /** Bytes that do not reach the end of the block are only added to the state. */
  lemma {:induction false} AbsorbWithin(f: Permutation, s: Node, data: seq<Byte>)
    requires s.at + |data| < RATE
    ensures Absorb(f, s, data) == Node(XorAt(s.state, s.at, data), s.at + |data|)
  {
    if data == [] {
      assert XorAt(s.state, s.at, data) == s.state;
    } else {
      var init, last := data[..|data| - 1], data[|data| - 1];
      AbsorbWithin(f, s, init);
      XorAtAppend(s.state, s.at, init, [last]);
      assert init + [last] == data;
    }
  }

  /** Bytes that end exactly at the end of the block are added, and the state is permuted. */
  lemma {:induction false} AbsorbUpToRate(f: Permutation, s: Node, data: seq<Byte>)
    requires s.at < RATE && s.at + |data| == RATE
    ensures Absorb(f, s, data) == Node(f(XorAt(s.state, s.at, data)), 0)
  {
    var init, last := data[..|data| - 1], data[|data| - 1];
    AbsorbWithin(f, s, init);
    XorAtAppend(s.state, s.at, init, [last]);
    assert init + [last] == data;
  }

  /** Both cases at once: any run of bytes that stays in the block. */
  lemma {:induction false} AbsorbPiece(f: Permutation, s: Node, data: seq<Byte>)
    requires s.at < RATE && s.at + |data| <= RATE
    ensures Absorb(f, s, data) ==
      if s.at + |data| == RATE then Node(f(XorAt(s.state, s.at, data)), 0)
      else Node(XorAt(s.state, s.at, data), s.at + |data|)
  {
    if s.at + |data| == RATE {
      AbsorbUpToRate(f, s, data);
    } else {
      AbsorbWithin(f, s, data);
    }
  }

  /** Zero bytes that stay in the block only move the position. */
  lemma {:induction false} AbsorbZeros(f: Permutation, s: Node, n: nat)
    requires s.at + n < RATE
    ensures Absorb(f, s, seq(n, _ => 0 as bv8)) == Node(s.state, s.at + n)
  {
    var zeros: seq<Byte> := seq(n, _ => 0 as bv8);
    AbsorbWithin(f, s, zeros);
    assert XorAt(s.state, s.at, zeros) == s.state;
  }

  // ----- Blocks against the fold -----

  lemma {:induction false} BlocksAreFold(f: Permutation, s: State, message: seq<Byte>, domain: Byte)
    ensures AbsorbBlocks(f, s, message + [domain]) == Close(f, Absorb(f, Node(s, 0), message), domain)
    decreases |message|
  {
    var input := message + [domain];
    if |message| >= RATE {
      var block, rest := message[..RATE], message[RATE..];
      assert input[..RATE] == block && input[RATE..] == rest + [domain];
      AbsorbConcat(f, Node(s, 0), block, rest);
      assert block + rest == message;
      AbsorbUpToRate(f, Node(s, 0), block);
      BlocksAreFold(f, f(XorAt(s, 0, block)), rest, domain);
    } else {
      AbsorbWithin(f, Node(s, 0), message);
      XorAtAppend(s, 0, message, [domain]);
    }
  }

  lemma {:induction false} SqueezedBlock(f: Permutation, s: State, at: nat, n: nat)
    requires at + n <= RATE
    ensures Squeezed(f, s, at, n) == s[at..at + n]
    decreases n
  {
    if n > 0 {
      SqueezedBlock(f, s, at + 1, n - 1);
    }
  }

  lemma {:induction false} SqueezedSplit(f: Permutation, s: State, at: nat, m: nat, n: nat)
    requires at + m <= RATE
    ensures Squeezed(f, s, at, m + n) == s[at..at + m] + Squeezed(f, s, at + m, n)
    decreases m
  {
    if m > 0 {
      SqueezedSplit(f, s, at + 1, m - 1, n);
      assert 1 + (m - 1 + n) == m + n;
      assert s[at..at + m] == [s[at]] + s[at + 1..at + m];
    }
  }

  lemma {:induction false} SqueezeBlocksAreBytes(f: Permutation, s: State, n: nat)
    ensures SqueezeBlocks(f, s, n) == Squeezed(f, s, 0, n)
    decreases n
  {
    if n > RATE {
      SqueezedSplit(f, s, 0, RATE, n - RATE);
      SqueezeBlocksAreBytes(f, f(s), n - RATE);
      assert n == RATE + (n - RATE);
    } else {
      SqueezedBlock(f, s, 0, n);
    }
  }

  /** TurboSHAKE128 is: absorb byte by byte, close, squeeze byte by byte. */
  lemma {:induction false} TurboShakeIsFold(f: Permutation, message: seq<Byte>, domain: Byte, n: nat)
    ensures TurboShake(f, message, domain, n)
         == Squeezed(f, Close(f, Absorb(f, Fresh(), message), domain), 0, n)
  {
    BlocksAreFold(f, Blank(), message, domain);
    SqueezeBlocksAreBytes(f, AbsorbBlocks(f, Blank(), message + [domain]), n);
  }
}
