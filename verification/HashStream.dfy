/** What a hash context has done with the bytes it was fed: whole blocks are absorbed, the rest is held back. */
module HashStream {
  import opened Fips180

  function Whole(msg: seq<Byte>): (s: seq<Byte>)
    ensures |s| % 64 == 0
  {
    msg[..|msg| - |msg| % 64]
  }

  function Tail(msg: seq<Byte>): (s: seq<Byte>)
    ensures |s| == |msg| % 64
  {
    msg[|msg| - |msg| % 64..]
  }

  function Absorbed<S>(compress: (S, Block) -> S, start: S, msg: seq<Byte>): S {
    Blocks(compress, start, Whole(msg))
  }

  /** A piece that does not fill up the block held back only adds to it. */
  lemma PieceHeld<S>(compress: (S, Block) -> S, start: S, msg: seq<Byte>, piece: seq<Byte>)
    requires |msg| % 64 + |piece| < 64
    ensures Absorbed(compress, start, msg + piece) == Absorbed(compress, start, msg)
    ensures Tail(msg + piece) == Tail(msg) + piece
  {
    assert |msg + piece| - |msg + piece| % 64 == |msg| - |msg| % 64;
    assert Whole(msg + piece) == Whole(msg);
  }

  /** A piece that exactly fills it up has the block absorbed. */
  lemma PieceFills<S>(compress: (S, Block) -> S, start: S, msg: seq<Byte>, piece: seq<Byte>)
    requires |msg| % 64 + |piece| == 64
    ensures Absorbed(compress, start, msg + piece) == compress(Absorbed(compress, start, msg), Tail(msg) + piece)
    ensures |msg + piece| % 64 == 0 && Tail(msg + piece) == []
  {
    assert |msg + piece| % 64 == 0;
    var block := Tail(msg) + piece;
    assert Whole(msg + piece) == Whole(msg) + block;
    BlocksConcat(compress, start, Whole(msg), block);
    assert block[..64] == block && block[64..] == [];
  }

  /** What is left is absorbed with a filling that ends on a block. */
  lemma Finished<S>(compress: (S, Block) -> S, start: S, msg: seq<Byte>, filling: seq<Byte>)
    requires |msg + filling| % 64 == 0
    ensures |Tail(msg) + filling| % 64 == 0
    ensures Blocks(compress, start, msg + filling)
            == Blocks(compress, Absorbed(compress, start, msg), Tail(msg) + filling)
  {
    assert msg + filling == Whole(msg) + (Tail(msg) + filling);
    BlocksConcat(compress, start, Whole(msg), Tail(msg) + filling);
  }

  lemma OneBlock<S>(compress: (S, Block) -> S, s: S, block: Block)
    ensures Blocks(compress, s, block) == compress(s, block)
  {
    assert block[..64] == block && block[64..] == [];
  }

  lemma TwoBlocks<S>(compress: (S, Block) -> S, s: S, first: Block, second: Block)
    ensures Blocks(compress, s, first + second) == compress(compress(s, first), second)
  {
    BlocksConcat(compress, s, first, second);
    OneBlock(compress, s, first);
    OneBlock(compress, compress(s, first), second);
  }

  /** The bytes held back can be read off a 64-bit count of bits. */
  lemma UsedSpace(n: nat)
    ensures (8 * n) % RANGE64 / 8 % 64 == n % 64
  {
    var q, r := n / 0x2000_0000_0000_0000, n % 0x2000_0000_0000_0000;
    SameRest(8 * n, 8 * r, q);
    SixtyFourths(n, r, 0x80_0000_0000_0000 * q);
  }

  lemma SameRest(x: nat, y: nat, q: nat)
    requires x == RANGE64 * q + y && y < RANGE64
    ensures x % RANGE64 == y
  {
  }

  lemma SixtyFourths(n: nat, r: nat, k: nat)
    requires n == r + 64 * k
    ensures n % 64 == r % 64
  {
  }

  lemma CountOn(n: nat, k: nat)
    ensures ((8 * n) % RANGE64 + 8 * k) % RANGE64 == (8 * (n + k)) % RANGE64
  {
  }

  /** The record kept between pieces: the state after the whole blocks, the length in bits, the bytes held back. */
  ghost predicate Kept<S>(compress: (S, Block) -> S, start: S, msg: seq<Byte>, state: S, bitcount: nat,
                          buffer: seq<Byte>) {
    state == Absorbed(compress, start, msg)
    && bitcount == 8 * |msg| % RANGE64
    && |buffer| == 64 && buffer[..|msg| % 64] == Tail(msg)
  }

  lemma KeptHeld<S>(compress: (S, Block) -> S, start: S, msg: seq<Byte>, state: S, bitcount: nat, buffer: seq<Byte>,
                    piece: seq<Byte>, buffer': seq<Byte>)
    requires Kept(compress, start, msg, state, bitcount, buffer)
    requires |msg| % 64 + |piece| < 64
    requires buffer' == buffer[..|msg| % 64] + piece + buffer[|msg| % 64 + |piece|..]
    ensures Kept(compress, start, msg + piece, state, (bitcount + 8 * |piece|) % RANGE64, buffer')
  {
    PieceHeld(compress, start, msg, piece);
    CountOn(|msg|, |piece|);
  }

  lemma KeptFilled<S>(compress: (S, Block) -> S, start: S, msg: seq<Byte>, state: S, bitcount: nat, buffer: seq<Byte>,
                      piece: seq<Byte>, buffer': seq<Byte>, block: Block)
    requires Kept(compress, start, msg, state, bitcount, buffer)
    requires |msg| % 64 + |piece| == 64 == |buffer'|
    requires block == buffer[..|msg| % 64] + piece
    ensures |msg + piece| % 64 == 0
    ensures Kept(compress, start, msg + piece, compress(state, block), (bitcount + 8 * |piece|) % RANGE64, buffer')
  {
    PieceFills(compress, start, msg, piece);
    CountOn(|msg|, |piece|);
  }

  function Flatten<T>(pieces: seq<seq<T>>): seq<T> {
    if pieces == [] then [] else Flatten(pieces[..|pieces| - 1]) + pieces[|pieces| - 1]
  }

  // ----- the C library's memory operations

  method CopyIn(a: array<Byte>, at: nat, s: seq<Byte>)
    requires at + |s| <= a.Length
    modifies a
    ensures a[..] == old(a[..at]) + s + old(a[at + |s|..])
  {
    var i := 0;
    while i < |s|
      invariant 0 <= i <= |s|
      invariant a[..at] == old(a[..at]) && a[at..at + i] == s[..i] && a[at + i..] == old(a[at + i..])
    {
      a[at + i] := s[i];
      i := i + 1;
    }
  }

  method Clear(a: array<Byte>, from: nat, to: nat)
    requires from <= to <= a.Length
    modifies a
    ensures a[..] == old(a[..from]) + Zeros(to - from) + old(a[to..])
  {
    CopyIn(a, from, Zeros(to - from));
  }
}
