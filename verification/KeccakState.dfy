/** The 200-byte state in memory: bytes and lanes are added in place, and permuted in place. */
module KeccakState {
  import opened Sponge
  import opened TreeHash

  method AddBytes(state: array<Byte>, at: nat, data: seq<Byte>)
    requires state.Length == 200 && at + |data| <= 200
    modifies state
    ensures state[..] == XorAt(old(state[..]), at, data)
  {
    hide Xor;
    var i := 0;
    while i < |data|
      invariant 0 <= i <= |data|
      invariant forall k :: 0 <= k < 200 ==>
        state[k] == if at <= k < at + i then Xor(old(state[k]), data[k - at]) else old(state[k])
    {
      state[at + i] := Xor(state[at + i], data[i]);
      i := i + 1;
    }
  }

  /** Adds the eight-byte lanes first, ..., first + count - 1 of data. */
  method AddLanes(state: array<Byte>, first: nat, count: nat, data: seq<Byte>)
    requires state.Length == 200 && 8 * (first + count) <= |data| && 8 * (first + count) <= 200
    modifies state
    ensures state[..] == XorAt(old(state[..]), 8 * first, data[8 * first..8 * (first + count)])
  {
    hide XorAt;
    ghost var was := state[..];
    NothingAdded(was, 8 * first);
    assert data[8 * first..8 * first] == [];
    for j := first to first + count
      invariant state[..] == XorAt(was, 8 * first, data[8 * first..8 * j])
    {
      AddBytes(state, 8 * j, data[8 * j..8 * j + 8]);
      XorAtAppend(was, 8 * first, data[8 * first..8 * j], data[8 * j..8 * j + 8]);
      assert data[8 * first..8 * j] + data[8 * j..8 * j + 8] == data[8 * first..8 * (j + 1)];
    }
  }

  lemma NothingAdded(s: State, at: nat)
    requires at <= 200
    ensures XorAt(s, at, []) == s
  {
  }

  method Permute(f: Permutation, state: array<Byte>)
    requires state.Length == 200
    modifies state
    ensures state[..] == f(old(state[..]))
  {
    var s: State := f(state[..]);
    forall k | 0 <= k < 200 {
      state[k] := s[k];
    }
  }

  method Clear(state: array<Byte>)
    requires state.Length == 200
    modifies state
    ensures state[..] == Blank()
  {
    forall k | 0 <= k < 200 {
      state[k] := 0;
    }
  }

  // ----- right_encode -----

  function Shift(x: nat, bytes: nat): nat {
    if bytes == 0 then x else Shift(x, bytes - 1) / 256
  }

  lemma {:induction false} ShiftInner(x: nat, bytes: nat)
    ensures Shift(x / 256, bytes) == Shift(x, bytes + 1)
  {
    if bytes > 0 {
      ShiftInner(x, bytes - 1);
    }
  }

  lemma {:induction false} BigEndianAt(x: nat, i: nat)
    requires i < |BigEndian(x)|
    ensures BigEndian(x)[i] == (Shift(x, |BigEndian(x)| - 1 - i) % 256) as Byte
    decreases x
  {
    var n := |BigEndian(x)|;
    if i < n - 1 {
      BigEndianAt(x / 256, i);
      ShiftInner(x, n - 2 - i);
    }
  }

  function Exp256(n: nat): nat {
    if n == 0 then 1 else 256 * Exp256(n - 1)
  }

  lemma {:induction false} BigEndianLength(x: nat, n: nat)
    requires x < Exp256(n)
    ensures |BigEndian(x)| <= n
  {
    if x > 0 {
      BigEndianLength(x / 256, n - 1);
    }
  }

  /** A 64-bit value takes at most eight bytes. */
  lemma {:induction false} WordLength(x: nat)
    requires x < 0x1_0000_0000_0000_0000
    ensures |BigEndian(x)| <= 8
  {
    assert Exp256(2) == 0x1_0000 && Exp256(4) == 0x1_0000_0000;
    assert Exp256(6) == 0x1_0000_0000_0000 && Exp256(8) == 0x1_0000_0000_0000_0000;
    BigEndianLength(x, 8);
  }

  lemma {:induction false} OneByteLess(x: nat)
    requires x > 0
    ensures |BigEndian(x)| == 1 + |BigEndian(x / 256)|
  {
  }

  lemma {:induction false} NoBytes(x: nat)
    ensures x == 0 <==> |BigEndian(x)| == 0
    ensures x == 0 ==> BigEndian(x) == []
  {
  }

  /** right_encode, also written out inside the one-pass KangarooTwelve. */
  method RightEncode(encbuf: array<Byte>, value: nat) returns (count: nat)
    requires encbuf.Length >= 9 && value < 0x1_0000_0000_0000_0000
    modifies encbuf
    ensures 1 <= count <= 9 && encbuf[..count] == LengthEncode(value)
    ensures encbuf[count..] == old(encbuf[count..])
  {
    hide BigEndian, Shift;
    WordLength(value);
    var v, n := value, 0;
    while v != 0 && n < 8
      invariant n <= 8 && n + |BigEndian(v)| == |BigEndian(value)|
      invariant encbuf[..] == old(encbuf[..])
    {
      OneByteLess(v);
      n, v := n + 1, v / 256;
    }
    NoBytes(v);
    assert encbuf[n + 1..] == encbuf[..][n + 1..];
    assert n == |BigEndian(value)|;
    var i := 1;
    while i <= n
      invariant 1 <= i <= n + 1
      invariant forall k :: 0 <= k < i - 1 ==> encbuf[k] == BigEndian(value)[k]
      invariant encbuf[n + 1..] == old(encbuf[n + 1..])
    {
      var shifted := ShiftBytes(value, n - i);
      BigEndianAt(value, i - 1);
      encbuf[i - 1] := (shifted % 256) as Byte;
      i := i + 1;
    }
    assert encbuf[..n] == BigEndian(value);
    encbuf[n] := n as Byte;
    count := n + 1;
  }

  /** value >> (8 * bytes) */
  method ShiftBytes(value: nat, bytes: nat) returns (r: nat)
    ensures r == Shift(value, bytes)
  {
    r := value;
    for k := 0 to bytes
      invariant r == Shift(value, k)
    {
      r := r / 256;
    }
  }
}
