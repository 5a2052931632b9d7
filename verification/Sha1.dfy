/** SHA-1 as computed: the functions in their cheaper forms, registers shifted by assignment, a 64-bit length in
    two words, and padding made while the last block is closed. */
module Sha1 {
  import opened Fips180
  import opened HashStream

  // ----- the functions in their coded forms

  function CodedCh(x: Bits, y: Bits, z: Bits): Bits { z ^ (x & (y ^ z)) }
  function CodedMaj(x: Bits, y: Bits, z: Bits): Bits { (x & y) | (z & (x | y)) }

  lemma ChoiceBits(x: Bits, y: Bits, z: Bits)
    ensures z ^ (x & (y ^ z)) == (x & y) ^ (!x & z)
  {
  }

  lemma MajorityBits(x: Bits, y: Bits, z: Bits)
    ensures (x & y) | (z & (x | y)) == (x & y) ^ (x & z) ^ (y & z)
  {
  }

  lemma ChoiceForms(x: Bits, y: Bits, z: Bits)
    ensures CodedCh(x, y, z) == Ch(x, y, z)
  {
    ChoiceBits(x, y, z);
  }

  lemma MajorityForms(x: Bits, y: Bits, z: Bits)
    ensures CodedMaj(x, y, z) == Maj(x, y, z)
  {
    MajorityBits(x, y, z);
  }

  function Coded(t: nat, x: Bits, y: Bits, z: Bits): Bits {
    if t < 20 then CodedCh(x, y, z) else if t < 40 then Parity(x, y, z) else if t < 60 then CodedMaj(x, y, z)
    else Parity(x, y, z)
  }

  lemma CodedIsStandard(t: nat, x: Bits, y: Bits, z: Bits)
    ensures Coded(t, x, y, z) == F160(t, x, y, z)
  {
    hide Ch, CodedCh, Maj, CodedMaj, Parity;
    ChoiceForms(x, y, z);
    MajorityForms(x, y, z);
  }

  const CODED160 := Functions160(
    (t: nat, x: Word, y: Word, z: Word) => Coded(t, x as Bits, y as Bits, z as Bits) as Word,
    (x: Word) => Rotl1(x as Bits) as Word,
    (x: Word) => Rotl5(x as Bits) as Word,
    (x: Word) => Rotl30(x as Bits) as Word,
    (x: Word, y: Word, z: Word, u: Word) => Xor4(x as Bits, y as Bits, z as Bits, u as Bits) as Word)

  ghost predicate Agree(m: Functions160, n: Functions160) {
    (forall t: nat, x: Word, y: Word, z: Word :: m.f(t, x, y, z) == n.f(t, x, y, z))
    && (forall x: Word :: m.rotl1(x) == n.rotl1(x) && m.rotl5(x) == n.rotl5(x) && m.rotl30(x) == n.rotl30(x))
    && (forall x: Word, y: Word, z: Word, u: Word :: m.xor4(x, y, z, u) == n.xor4(x, y, z, u))
  }

  lemma CodedAgrees()
    ensures Agree(CODED160, STANDARD160)
  {
    hide CODED160, STANDARD160;
    forall t: nat, x: Word, y: Word, z: Word
      ensures CODED160.f(t, x, y, z) == STANDARD160.f(t, x, y, z)
    {
      SameRoundFunction(t, x, y, z);
    }
    forall x: Word
      ensures CODED160.rotl1(x) == STANDARD160.rotl1(x) && CODED160.rotl5(x) == STANDARD160.rotl5(x)
      ensures CODED160.rotl30(x) == STANDARD160.rotl30(x)
    {
      SameOthers(x, x, x, x);
    }
    forall x: Word, y: Word, z: Word, u: Word
      ensures CODED160.xor4(x, y, z, u) == STANDARD160.xor4(x, y, z, u)
    {
      SameOthers(x, y, z, u);
    }
  }

  lemma SameRoundFunction(t: nat, x: Word, y: Word, z: Word)
    ensures CODED160.f(t, x, y, z) == STANDARD160.f(t, x, y, z)
  {
    hide Coded, F160;
    CodedIsStandard(t, x as Bits, y as Bits, z as Bits);
  }

  lemma SameOthers(x: Word, y: Word, z: Word, u: Word)
    ensures CODED160.rotl1(x) == STANDARD160.rotl1(x) && CODED160.rotl5(x) == STANDARD160.rotl5(x)
    ensures CODED160.rotl30(x) == STANDARD160.rotl30(x)
    ensures CODED160.xor4(x, y, z, u) == STANDARD160.xor4(x, y, z, u)
  {
    hide Rotl1, Rotl5, Rotl30, Xor4;
  }

  lemma {:induction false} SameWords(m: Functions160, n: Functions160, block: Block, t: nat)
    requires Agree(m, n)
    ensures W160(m, block, t) == W160(n, block, t)
  {
    if t >= 16 {
      SameWords(m, n, block, t - 3);
      SameWords(m, n, block, t - 8);
      SameWords(m, n, block, t - 14);
      SameWords(m, n, block, t - 16);
    }
  }

  lemma {:induction false} SameRounds(m: Functions160, n: Functions160, s: State160, w: seq<Word>, t: nat)
    requires Agree(m, n) && t <= 80 == |w|
    ensures Rounds160(m, s, w, t) == Rounds160(n, s, w, t)
  {
    if t > 0 {
      SameRounds(m, n, s, w, t - 1);
    }
  }

  lemma SameCompress(m: Functions160, n: Functions160, s: State160, block: Block)
    requires Agree(m, n)
    ensures Compress160(m)(s, block) == Compress160(n)(s, block)
  {
    hide Round160;
    forall t | 0 <= t < 80
      ensures Schedule160(m, block)[t] == Schedule160(n, block)[t]
    {
      SameWords(m, n, block, t);
    }
    assert Schedule160(m, block) == Schedule160(n, block);
    SameRounds(m, n, s, Schedule160(m, block), 80);
  }

  lemma {:induction false} SameBlocks(m: Functions160, n: Functions160, s: State160, data: seq<Byte>)
    requires Agree(m, n) && |data| % 64 == 0
    ensures Blocks(Compress160(m), s, data) == Blocks(Compress160(n), s, data)
    decreases |data|
  {
    hide Compress160;
    if data != [] {
      SameCompress(m, n, s, data[..64]);
      SameBlocks(m, n, Compress160(m)(s, data[..64]), data[64..]);
    }
  }

  // ----- a block

  /** One round: five assignments. */
  method RoundInPlace(m: Functions160, s: State160, t: nat, w: Word) returns (s': State160)
    ensures s' == Round160(m, s, t, w)
  {
    var a, b, c, d, e := s.a, s.b, s.c, s.d, s.e;
    var temp := Sum(m.rotl5(a) + m.f(t, b, c, d) + e + w + K160(t));
    e := d;
    d := c;
    c := m.rotl30(b);
    b := a;
    a := temp;
    s' := State160(a, b, c, d, e);
  }

  lemma NextWord(m: Functions160, block: Block, t: nat)
    requires 16 <= t < 80
    ensures var w := Schedule160(m, block); w[t] == m.rotl1(m.xor4(w[t - 3], w[t - 8], w[t - 14], w[t - 16]))
  {
  }

  lemma FirstWord(m: Functions160, block: Block, t: nat)
    requires t < 16
    ensures Schedule160(m, block)[t] == WordAt(block, t)
  {
  }

  /** The whole block, its 16 words in place. */
  method Process(m: Functions160, s: State160, w: array<Word>, ghost block: Block) returns (s': State160)
    requires w.Length == 80
    requires forall t :: 0 <= t < 16 ==> w[t] == WordAt(block, t)
    modifies w
    ensures s' == Compress160(m)(s, block)
  {
    ghost var schedule := Schedule160(m, block);
    var r := RunRounds(m, s, w, block);
    s' := Add160(s, r);
  }

  method RunRounds(m: Functions160, s: State160, w: array<Word>, ghost block: Block) returns (r: State160)
    requires w.Length == 80
    requires forall t :: 0 <= t < 16 ==> w[t] == WordAt(block, t)
    modifies w
    ensures r == Rounds160(m, s, Schedule160(m, block), 80)
  {
    hide Round160, W160;
    ghost var schedule := Schedule160(m, block);
    forall t | 0 <= t < 16
      ensures w[t] == schedule[t]
    {
      FirstWord(m, block, t);
    }
    r := s;
    var t := 0;
    while t < 80
      invariant 0 <= t <= 80
      invariant forall k :: 0 <= k < t || 0 <= k < 16 ==> w[k] == schedule[k]
      invariant r == Rounds160(m, s, schedule, t)
    {
      if t >= 16 {
        NextWord(m, block, t);
        w[t] := m.rotl1(m.xor4(w[t - 3], w[t - 8], w[t - 14], w[t - 16]));
      }
      r := RoundInPlace(m, r, t, w[t]);
      t := t + 1;
    }
  }

  // ----- the length in two words

  lemma Carry(hi: Word, lo: Word, bits: nat)
    requires bits < RANGE32
    ensures var lo' := Sum(lo + bits);
            var hi' := if lo' < bits then Sum(hi + 1) else hi;
            RANGE32 * hi' + lo' == (RANGE32 * hi + lo + bits) % RANGE64
  {
    var n := RANGE32 * hi + lo + bits;
    if lo + bits < RANGE32 {
      Least(n, n, 0);
    } else if hi + 1 < RANGE32 {
      Least(n, n, 0);
    } else {
      Least(n, lo + bits - RANGE32, 1);
    }
  }

  lemma Least(n: nat, r: nat, q: nat)
    requires n == RANGE64 * q + r && r < RANGE64
    ensures n % RANGE64 == r
  {
  }

  lemma CountsAdd(x: nat, y: nat)
    ensures (x % RANGE64 + y) % RANGE64 == (x + y) % RANGE64
  {
    var q := x / RANGE64;
    Least(x + y, (x % RANGE64 + y) % RANGE64, q + (x % RANGE64 + y) / RANGE64);
  }

  lemma LengthWords(front: seq<Byte>, hi: Word, lo: Word)
    requires |front| == 56
    ensures RANGE32 * hi + lo < RANGE64
    ensures var block := front + Length64(RANGE32 * hi + lo);
            WordAt(block, 14) == hi && WordAt(block, 15) == lo
            && forall t :: 0 <= t < 14 ==> WordAt(block, t) == WordAt(front, t)
  {
    var n := RANGE32 * hi + lo;
    assert n / RANGE32 == hi && n % RANGE32 == lo;
    var block := front + Length64(n);
    assert block[56..60] == WordBytes(hi) && block[60..] == WordBytes(lo);
    assert WordAt(block, 14) == WordAt(block[56..60], 0);
    assert WordAt(block, 15) == WordAt(block[60..], 0);
  }

  lemma SealedWords(buffer: seq<Byte>, marked: seq<Byte>, hi: Word, lo: Word)
    requires |marked| <= 56 && buffer == marked + Zeros(64 - |marked|)
    ensures RANGE32 * hi + lo < RANGE64
    ensures var block := marked + Zeros(56 - |marked|) + Length64(RANGE32 * hi + lo);
            WordAt(block, 14) == hi && WordAt(block, 15) == lo
            && forall t :: 0 <= t < 14 ==> WordAt(block, t) == WordAt(buffer, t)
  {
    var front := marked + Zeros(56 - |marked|);
    LengthWords(front, hi, lo);
    assert buffer[..56] == front;
    assert forall t :: 0 <= t < 14 ==> WordAt(buffer, t) == WordAt(front, t);
  }

  // ----- the last blocks

  lemma ShortEnding(tail: seq<Byte>, len: nat)
    requires |tail| == len % 64 < 56
    ensures |tail + Filling(len)| == 64
    ensures tail + Filling(len) == tail + [0x80] + Zeros(56 - |tail + [0x80]|) + Length64(8 * len % RANGE64)
  {
  }

  lemma LongEnding(tail: seq<Byte>, len: nat)
    requires |tail| == len % 64 >= 56
    ensures |tail + Filling(len)| == 128
    ensures tail + Filling(len) ==
            (tail + [0x80] + Zeros(64 - |tail + [0x80]|)) + ([] + Zeros(56) + Length64(8 * len % RANGE64))
  {
    assert Zeros(ZeroCount(len)) == Zeros(63 - |tail|) + Zeros(56);
  }

  lemma CountedWhole(msg: seq<Byte>)
    ensures 8 * |Whole(msg)| + 8 * |Tail(msg)| == 8 * |msg|
  {
  }

  class Context {
    const m: Functions160
    const bytes: array<Byte>
    const words: array<Word>
    var h: State160
    var hi: Word
    var lo: Word
    var inbytes: nat
    var padded: bool
    ghost var msg: seq<Byte>

    ghost predicate Shape()
      reads this
    {
      bytes.Length == 64 && words.Length == 80
    }

    /** The length is counted when a block is taken in; Counted is what the two words hold then. */
    ghost predicate Counted(count: nat)
      reads this
    {
      RANGE32 * hi + lo == count % RANGE64
    }

    ghost predicate Valid()
      reads this, bytes
    {
      Shape() && !padded
      && Counted(8 * |Whole(msg)|)
      && h == Absorbed(Compress160(m), INITIAL160, msg)
      && inbytes == |msg| % 64 && bytes[..inbytes] == Tail(msg)
    }

    constructor (m: Functions160)
      ensures Valid() && msg == [] && this.m == m
      ensures fresh(bytes) && fresh(words)
    {
      this.m := m;
      bytes := new Byte[64](_ => 0);
      words := new Word[80](_ => 0);
      h := INITIAL160;
      hi, lo := 0, 0;
      inbytes := 0;
      padded := false;
      msg := [];
    }

    method Count(bits: nat, ghost before: nat)
      requires bits < RANGE32 && Counted(before)
      modifies this`hi, this`lo
      ensures Counted(before + bits)
    {
      Carry(hi, lo, bits);
      CountsAdd(before, bits);
      lo := Sum(lo + bits);
      if lo < bits {
        hi := Sum(hi + 1);
      }
    }

    /** Words in big-endian order, whatever the machine's. */
    method LoadWords(n: nat)
      requires Shape() && n <= 16
      modifies words
      ensures forall t :: 0 <= t < n ==> words[t] == WordAt(bytes[..], t)
    {
      var t := 0;
      while t < n
        invariant 0 <= t <= n
        invariant forall k :: 0 <= k < t ==> words[k] == WordAt(bytes[..], k)
      {
        words[t] := WordAt(bytes[..], t);
        t := t + 1;
      }
    }

    /** A call that does not finish: takes as many bytes as fit in the block. */
    method Update0(data: seq<Byte>) returns (rest: seq<Byte>)
      requires Valid()
      modifies this, bytes, words
      ensures Valid() && msg + rest == old(msg) + data
      ensures |data| > 0 ==> |rest| < |data|
    {
      hide Compress160;
      if |data| < 64 - inbytes {
        Hold(data);
        assert old(msg) + data + [] == old(msg) + data;
        rest := [];
      } else {
        var n := 64 - inbytes;
        TakeBlock(data[..n]);
        rest := data[n..];
        assert data == data[..n] + rest;
      }
    }

    method Hold(piece: seq<Byte>)
      requires Valid() && inbytes + |piece| < 64
      modifies this, bytes
      ensures Valid() && msg == old(msg) + piece
    {
      hide Compress160;
      PieceHeld(Compress160(m), INITIAL160, msg, piece);
      CopyIn(bytes, inbytes, piece);
      assert bytes[..inbytes + |piece|] == bytes[..inbytes] + piece;
      inbytes := inbytes + |piece|;
      msg := msg + piece;
    }

    method TakeBlock(piece: seq<Byte>)
      requires Valid() && inbytes + |piece| == 64
      modifies this, bytes, words
      ensures Valid() && msg == old(msg) + piece
    {
      hide Compress160, WordAt, Blocks;
      PieceFills(Compress160(m), INITIAL160, msg, piece);
      CopyIn(bytes, inbytes, piece);
      assert bytes[..] == Tail(msg) + piece;
      inbytes := 0;
      assert |Whole(msg + piece)| == |Whole(msg)| + 64;
      Count(512, 8 * |Whole(msg)|);
      LoadWords(16);
      h := Process(m, h, words, bytes[..]);
      msg := msg + piece;
    }

    method Update(input: seq<Byte>)
      requires Valid()
      modifies this, bytes, words
      ensures Valid() && msg == old(msg) + input
    {
      hide Compress160;
      var rest := input;
      while |rest| > 0
        invariant Valid() && msg + rest == old(msg) + input
        decreases |rest|
      {
        rest := Update0(rest);
      }
      assert msg + [] == msg;
    }

    /** A call that finishes: marks the end once, fills the block up and, if there is room, puts the length in. */
    method Close(ghost held: seq<Byte>, ghost before: nat) returns (more: bool)
      requires Shape() && Counted(before)
      requires inbytes == |held| < 64 && bytes[..inbytes] == held
      modifies this, bytes, words
      ensures padded && inbytes == 0 && msg == old(msg)
      ensures Counted(before + 8 * |held|)
      ensures var marked := if old(padded) then held else held + [0x80];
              && more == (|marked| > 56)
              && (more ==> h == Compress160(m)(old(h), marked + Zeros(64 - |marked|)))
              && (!more ==> h == Compress160(m)(old(h), marked + Zeros(56 - |marked|)
                                                        + Length64((before + 8 * |held|) % RANGE64)))
    {
      hide Compress160, Length64;
      var nread := inbytes;
      inbytes := 0;
      Count(8 * nread, before);
      if !padded {
        bytes[nread] := 0x80;
        nread := nread + 1;
        padded := true;
      }
      ghost var marked := bytes[..nread];
      assert marked == if old(padded) then held else held + [0x80];
      Clear(bytes, nread, 64);
      more := Seal(nread, marked);
    }

    /** The length goes into the last two words of a block with room for it. */
    method Seal(nread: nat, ghost marked: seq<Byte>) returns (more: bool)
      requires Shape() && nread == |marked| <= 64
      requires bytes[..] == marked + Zeros(64 - nread)
      modifies this`h, words
      ensures more == (nread > 56)
      ensures more ==> h == Compress160(m)(old(h), marked + Zeros(64 - nread))
      ensures RANGE32 * hi + lo < RANGE64
      ensures !more ==> h == Compress160(m)(old(h), marked + Zeros(56 - nread) + Length64(RANGE32 * hi + lo))
    {
      hide Compress160, WordAt, Length64, WordBytes;
      ghost var block: Block := bytes[..];
      if nread <= 56 {
        SealedWords(bytes[..], marked, hi, lo);
        block := marked + Zeros(56 - nread) + Length64(RANGE32 * hi + lo);
        LoadWords(14);
        words[14], words[15] := hi, lo;
      } else {
        LoadWords(16);
      }
      h := Process(m, h, words, block);
      more := nread > 56;
    }

    method Final() returns (digest: seq<Byte>)
      requires Valid()
      modifies this, bytes, words
      ensures digest == Digest160(Blocks(Compress160(m), INITIAL160, Pad(old(msg))))
    {
      hide Compress160, Length64, Blocks, Whole, Filling;
      ghost var tail, len, start := Tail(msg), |msg|, h;
      ghost var ending := tail + Filling(len);
      CountedWhole(msg);
      Finished(Compress160(m), INITIAL160, msg, Filling(len));
      if len % 64 < 56 {
        ShortEnding(tail, len);
        OneBlock(Compress160(m), start, ending);
      } else {
        LongEnding(tail, len);
        TwoBlocks(Compress160(m), start, tail + [0x80] + Zeros(64 - |tail + [0x80]|),
                  [] + Zeros(56) + Length64(8 * len % RANGE64));
      }
      var more := Close(tail, 8 * |Whole(msg)|);
      while more
        invariant Shape() && Counted(8 * len)
        invariant more ==> padded && inbytes == 0 && len % 64 >= 56
                           && h == Compress160(m)(start, tail + [0x80] + Zeros(64 - |tail + [0x80]|))
        invariant !more ==> h == Blocks(Compress160(m), start, ending)
        decreases more
      {
        more := Close([], 8 * len);
      }
      digest := Digest160(h);
    }
  }

  method ComputeBlock(block: seq<Byte>) returns (digest: seq<Byte>)
    ensures digest == Hash160(STANDARD160, block)
  {
    hide Compress160;
    var context := new Context(CODED160);
    context.Update(block);
    assert [] + block == block;
    digest := context.Final();
    CodedAgrees();
    SameBlocks(CODED160, STANDARD160, INITIAL160, Pad(block));
  }

  /** A file is read in pieces; where they are cut does not show. */
  method ComputeFile(pieces: seq<seq<Byte>>) returns (digest: seq<Byte>)
    ensures digest == Hash160(STANDARD160, Flatten(pieces))
  {
    hide Compress160;
    var context := new Context(CODED160);
    var i := 0;
    while i < |pieces|
      invariant 0 <= i <= |pieces|
      invariant fresh(context) && fresh(context.bytes) && fresh(context.words)
      invariant context.Valid() && context.m == CODED160 && context.msg == Flatten(pieces[..i])
    {
      context.Update(pieces[i]);
      assert pieces[..i + 1][..i] == pieces[..i];
      i := i + 1;
    }
    assert pieces[..|pieces|] == pieces;
    digest := context.Final();
    CodedAgrees();
    SameBlocks(CODED160, STANDARD160, INITIAL160, Pad(Flatten(pieces)));
  }
}
