/**
 The incremental TurboSHAKE sponge of the XKCP library, at rate 168: absorb any pieces,
 close once, squeeze any pieces.
 */
module TurboShakeSponge {
  import opened Sponge
  import opened KeccakState

  /** The sponge after squeezing n bytes from position at on. */
  function Advanced(f: Permutation, s: State, at: nat, n: nat): (r: Node)
    requires at <= RATE
    ensures r.at <= RATE
    decreases n, at
  {
    if n == 0 then Node(s, at)
    else if at == RATE then Advanced(f, f(s), 0, n)
    else Advanced(f, s, at + 1, n - 1)
  }

  /** Squeezing in two calls gives what one call gives. */
  lemma {:induction false} SqueezeAgain(f: Permutation, s: State, at: nat, m: nat, n: nat)
    requires at <= RATE
    ensures var mid := Advanced(f, s, at, m);
      && Squeezed(f, s, at, m + n) == Squeezed(f, s, at, m) + Squeezed(f, mid.state, mid.at, n)
      && Advanced(f, s, at, m + n) == Advanced(f, mid.state, mid.at, n)
    decreases m, at
  {
    hide Squeezed, Advanced;
    if m == 0 {
      NothingSqueezed(f, Node(s, at));
      assert [] + Squeezed(f, s, at, n) == Squeezed(f, s, at, n);
    } else if at == RATE {
      EndOfBlock(f, s, m);
      EndOfBlock(f, s, m + n);
      SqueezeAgain(f, f(s), 0, m, n);
    } else {
      SqueezeAgain(f, s, at + 1, m - 1, n);
      FirstByte(f, s, at, m);
      FirstByte(f, s, at, m + n);
      assert (m - 1) + n == (m + n) - 1;
      var mid := Advanced(f, s, at, m);
      Associative([s[at]], Squeezed(f, s, at + 1, m - 1), Squeezed(f, mid.state, mid.at, n));
    }
  }

  lemma {:induction false} EndOfBlock(f: Permutation, s: State, n: nat)
    requires n > 0
    ensures Squeezed(f, s, RATE, n) == Squeezed(f, f(s), 0, n)
    ensures Advanced(f, s, RATE, n) == Advanced(f, f(s), 0, n)
  {
  }

  lemma FirstByte(f: Permutation, s: State, at: nat, n: nat)
    requires at < RATE && n > 0
    ensures Squeezed(f, s, at, n) == [s[at]] + Squeezed(f, s, at + 1, n - 1)
    ensures Advanced(f, s, at, n) == Advanced(f, s, at + 1, n - 1)
  {
  }

  lemma Associative(a: seq<Byte>, b: seq<Byte>, c: seq<Byte>)
    ensures (a + b) + c == a + (b + c)
  {
  }

  lemma {:induction false} AdvancedInBlock(f: Permutation, s: State, at: nat, n: nat)
    requires at + n <= RATE
    ensures Advanced(f, s, at, n) == Node(s, at + n)
    decreases n
  {
    if n > 0 {
      AdvancedInBlock(f, s, at + 1, n - 1);
    }
  }

  /** A piece squeezed from within a block follows what was squeezed before. */
  lemma PieceSqueezed(f: Permutation, s: State, at: nat, m: nat, n: nat)
    requires at <= RATE && Advanced(f, s, at, m).at + n <= RATE
    ensures var mid := Advanced(f, s, at, m);
      && Squeezed(f, s, at, m + n) == Squeezed(f, s, at, m) + mid.state[mid.at..mid.at + n]
      && Advanced(f, s, at, m + n) == Node(mid.state, mid.at + n)
  {
    var mid := Advanced(f, s, at, m);
    SqueezeAgain(f, s, at, m, n);
    SqueezedBlock(f, mid.state, mid.at, n);
    AdvancedInBlock(f, mid.state, mid.at, n);
  }

  /** The same after the permutation that a full block calls for. */
  lemma {:induction false} NextBlockSqueezed(f: Permutation, s: State, at: nat, m: nat, n: nat)
    requires at <= RATE && Advanced(f, s, at, m).at == RATE && 0 < n <= RATE
    ensures var next := f(Advanced(f, s, at, m).state);
      && Squeezed(f, s, at, m + n) == Squeezed(f, s, at, m) + next[..n]
      && Advanced(f, s, at, m + n) == Node(next, n)
  {
    var next := f(Advanced(f, s, at, m).state);
    SqueezeAgain(f, s, at, m, n);
    SqueezedBlock(f, next, 0, n);
    AdvancedInBlock(f, next, 0, n);
  }

  /** AbsorbLastFewBits: as Close, with one more permutation when the domain byte fills the block. */
  function Closed(f: Permutation, s: Node, domain: Byte): State
    requires s.at < RATE
  {
    if domain >= 0x80 && s.at == RATE - 1 then
      f(XorAt(f(XorAt(s.state, s.at, [domain])), RATE - 1, [0x80]))
    else Close(f, s, domain)
  }

  class Instance {
    const permutation: Permutation
    const state: array<Byte>
    var byteIOIndex: nat
    var squeezing: bool

    ghost predicate Valid()
      reads this, state
    {
      state.Length == 200 && byteIOIndex <= RATE && (!squeezing ==> byteIOIndex < RATE)
    }

    ghost function View(): Node
      reads this, state
      requires Valid()
    {
      Node(state[..], byteIOIndex)
    }

    constructor (f: Permutation)
      ensures Valid() && fresh(this) && fresh(state) && permutation == f
      ensures View() == Fresh() && !squeezing
    {
      permutation := f;
      state := new Byte[200](_ => 0);
      byteIOIndex, squeezing := 0, false;
      new;
      assert state[..] == Blank();
    }

    method Initialize()
      requires Valid()
      modifies this, state
      ensures Valid() && View() == Fresh() && !squeezing
    {
      Clear(state);
      byteIOIndex, squeezing := 0, false;
    }

    /** Full blocks, while one is left. */
    method AbsorbBlocks(data: seq<Byte>) returns (left: nat)
      requires Valid() && byteIOIndex == 0 && !squeezing
      modifies state
      ensures Valid() && left <= |data| && left < RATE
      ensures View() == Absorb(permutation, old(View()), data[..|data| - left])
    {
      hide Absorb, XorAt;
      ghost var start := View();
      left := |data|;
      NothingAbsorbed(permutation, start);
      assert data[..0] == [];
      while left >= RATE
        invariant left <= |data| && View() == Absorb(permutation, start, data[..|data| - left])
      {
        var done := |data| - left;
        var block := data[done..done + RATE];
        AbsorbPiece(permutation, View(), block);
        AbsorbConcat(permutation, start, data[..done], block);
        assert data[..done] + block == data[..done + RATE];
        AddBytes(state, 0, block);
        Permute(permutation, state);
        left := left - RATE;
      }
    }

    method AbsorbPartial(piece: seq<Byte>)
      requires Valid() && !squeezing && byteIOIndex + |piece| <= RATE
      modifies state, this`byteIOIndex
      ensures Valid() && View() == Absorb(permutation, old(View()), piece)
    {
      hide Absorb, XorAt;
      AbsorbPiece(permutation, View(), piece);
      AddBytes(state, byteIOIndex, piece);
      byteIOIndex := byteIOIndex + |piece|;
      if byteIOIndex == RATE {
        Permute(permutation, state);
        byteIOIndex := 0;
      }
    }

    /** SpongeAbsorb */
    method AbsorbAll(data: seq<Byte>) returns (ok: bool)
      requires Valid()
      modifies state, this`byteIOIndex
      ensures Valid() && ok == !squeezing
      ensures View() == if ok then Absorb(permutation, old(View()), data) else old(View())
    {
      hide Absorb, XorAt;
      if squeezing {
        return false;
      }
      ghost var start := View();
      var i := 0;
      NothingAbsorbed(permutation, start);
      assert data[..0] == [];
      while i < |data|
        invariant 0 <= i <= |data| && Valid()
        invariant View() == Absorb(permutation, start, data[..i])
      {
        ghost var before := i;
        if byteIOIndex == 0 && |data| - i >= RATE {
          var left := AbsorbBlocks(data[i..]);
          i := |data| - left;
          assert data[before..][..i - before] == data[before..i];
        } else {
          var partialBlock := if |data| - i > RATE - byteIOIndex then RATE - byteIOIndex else |data| - i;
          i := i + partialBlock;
          AbsorbPartial(data[i - partialBlock..i]);
        }
        AbsorbConcat(permutation, start, data[..before], data[before..i]);
        assert data[..before] + data[before..i] == data[..i];
      }
      assert data[..i] == data;
      return true;
    }

    /** SpongeAbsorbLastFewBits */
    method AbsorbDomainSeparationByte(domain: Byte) returns (ok: bool)
      requires Valid()
      modifies this, state
      ensures Valid() && ok == (domain != 0 && !old(squeezing))
      ensures ok ==> View() == Node(Closed(permutation, old(View()), domain), 0) && squeezing
      ensures !ok ==> View() == old(View()) && squeezing == old(squeezing)
    {
      if domain == 0 || squeezing {
        return false;
      }
      AddBytes(state, byteIOIndex, [domain]);
      if domain >= 0x80 && byteIOIndex == RATE - 1 {
        Permute(permutation, state);
      }
      AddBytes(state, RATE - 1, [0x80]);
      Permute(permutation, state);
      byteIOIndex, squeezing := 0, true;
      return true;
    }

    /** SpongeSqueeze: the next n bytes; an open sponge is closed with domain byte 1 first. */
    method Squeeze(n: nat) returns (data: seq<Byte>)
      requires Valid()
      modifies this, state
      ensures Valid() && squeezing
      ensures var start := if old(squeezing) then old(View())
                           else Node(Closed(permutation, old(View()), 0x01), 0);
        && data == Squeezed(permutation, start.state, start.at, n)
        && View() == Advanced(permutation, start.state, start.at, n)
    {
      hide Squeezed, Advanced, Closed;
      if !squeezing {
        var _ := AbsorbDomainSeparationByte(0x01);
      }
      ghost var start := View();
      data := [];
      var i := 0;
      NothingSqueezed(permutation, start);
      while i < n
        invariant 0 <= i <= n && Valid() && squeezing
        invariant data == Squeezed(permutation, start.state, start.at, i)
        invariant View() == Advanced(permutation, start.state, start.at, i)
      {
        if byteIOIndex == RATE && n - i >= RATE {
          var blocks, left := SqueezeWhole(n - i, start, i);
          data := data + blocks;
          i := n - left;
        } else {
          ghost var before := View();
          var partialBlock;
          if byteIOIndex == RATE {
            Permute(permutation, state);
            byteIOIndex := 0;
          }
          partialBlock := if n - i > RATE - byteIOIndex then RATE - byteIOIndex else n - i;
          if before.at == RATE {
            NextBlockSqueezed(permutation, start.state, start.at, i, partialBlock);
          } else {
            PieceSqueezed(permutation, start.state, start.at, i, partialBlock);
          }
          data := data + state[byteIOIndex..byteIOIndex + partialBlock];
          i := i + partialBlock;
          byteIOIndex := byteIOIndex + partialBlock;
        }
      }
    }

    /** Whole blocks, while one is wanted; the position stays at the end of the block. */
    method SqueezeWhole(wanted: nat, ghost start: Node, ghost done: nat)
      returns (blocks: seq<Byte>, left: nat)
      requires Valid() && byteIOIndex == RATE && wanted >= RATE && squeezing
      requires start.at <= RATE && View() == Advanced(permutation, start.state, start.at, done)
      modifies state
      ensures Valid() && left < RATE && left <= wanted
      ensures Squeezed(permutation, start.state, start.at, done + wanted - left)
           == Squeezed(permutation, start.state, start.at, done) + blocks
      ensures View() == Advanced(permutation, start.state, start.at, done + wanted - left)
    {
      hide Squeezed, Advanced;
      left, blocks := wanted, [];
      while left >= RATE
        invariant left <= wanted && Valid()
        invariant View() == Advanced(permutation, start.state, start.at, done + wanted - left)
        invariant Squeezed(permutation, start.state, start.at, done + wanted - left)
               == Squeezed(permutation, start.state, start.at, done) + blocks
      {
        NextBlockSqueezed(permutation, start.state, start.at, done + wanted - left, RATE);
        assert done + wanted - left + RATE == done + wanted - (left - RATE);
        Permute(permutation, state);
        blocks := blocks + state[..RATE];
        left := left - RATE;
      }
    }
  }

  lemma {:induction false} NothingAbsorbed(f: Permutation, s: Node)
    requires s.at < RATE
    ensures Absorb(f, s, []) == s
  {
  }

  lemma NothingSqueezed(f: Permutation, s: Node)
    requires s.at <= RATE
    ensures Squeezed(f, s.state, s.at, 0) == [] && Advanced(f, s.state, s.at, 0) == s
  {
  }
}
