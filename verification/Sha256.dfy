/** SHA-256 as computed: a 16-word schedule laid over the context's buffer, which may hold the block itself,
    registers that change roles instead of moving, and a context fed in pieces. */
module Sha256 {
  import opened Fips180
  import opened HashStream

  // ----- rounds

  /** One round on registers in their current roles: only d and h change. */
  method RoundInPlace(m: Functions256, a: Word, b: Word, c: Word, d: Word, e: Word, f: Word, g: Word, h: Word, k: Word,
                      w: Word)
    returns (d': Word, h': Word)
    ensures State256(h', a, b, c, d', e, f, g) == Round256(m, State256(a, b, c, d, e, f, g, h), k, w)
  {
    var t1 := Sum(h + m.bigSigma1(e) + m.ch(e, f, g) + k + w);
    d' := Sum(d + t1);
    h' := Sum(t1 + m.bigSigma0(a) + m.maj(a, b, c));
    SumInParts(t1, m.bigSigma0(a), m.maj(a, b, c));
  }

  lemma SumInParts(x: nat, y: nat, z: nat)
    ensures Sum(x + y + z) == Sum(x + Sum(y + z))
  {
    var q := (y + z) / RANGE32;
    assert y + z == RANGE32 * q + Sum(y + z);
    SameRest32(x + y + z, x + Sum(y + z), q);
  }

  lemma SameRest32(x: nat, y: nat, q: nat)
    requires x == RANGE32 * q + y
    ensures Sum(x) == Sum(y)
  {
  }

  // ----- the schedule

  /** The last 16 schedule words before t, each in its place modulo 16. */
  ghost predicate Window(w: seq<Word>, schedule: seq<Word>, t: nat)
    requires |w| == 16 && |schedule| == 64
  {
    16 <= t <= 64 && forall k :: t - 16 <= k < t ==> w[k % 16] == schedule[k]
  }

  /** The first t words of a schedule. */
  ghost predicate Filled(w: seq<Word>, schedule: seq<Word>, t: nat)
    requires |w| == 16 && |schedule| == 64
  {
    t <= 16 && forall k :: 0 <= k < t ==> w[k] == schedule[k]
  }

  lemma FilledUp(w: seq<Word>, schedule: seq<Word>)
    requires |w| == 16 && |schedule| == 64 && Filled(w, schedule, 16)
    ensures Window(w, schedule, 16)
  {
  }

  /** The next word, computed in the place of the oldest one. */
  lemma NextWord(w: seq<Word>, m: Functions256, data: Block, j: nat)
    requires |w| == 16 && j < 64 && Window(w, Schedule256(m, data), j)
    ensures Sum(w[j % 16] + Sum(m.smallSigma1(w[(j + 14) % 16]) + w[(j + 9) % 16] + m.smallSigma0(w[(j + 1) % 16])))
            == Schedule256(m, data)[j]
  {
    var schedule := Schedule256(m, data);
    assert (j + 1) % 16 == (j - 15) % 16 && (j + 14) % 16 == (j - 2) % 16;
    assert (j + 9) % 16 == (j - 7) % 16 && j % 16 == (j - 16) % 16;
    assert w[(j - 15) % 16] == schedule[j - 15] && w[(j - 2) % 16] == schedule[j - 2];
    assert w[(j - 7) % 16] == schedule[j - 7] && w[(j - 16) % 16] == schedule[j - 16];
    ScheduleRule(m, data, j);
    SumInParts(w[j % 16], m.smallSigma1(schedule[j - 2]) + schedule[j - 7], m.smallSigma0(schedule[j - 15]));
  }

  lemma ScheduleRule(m: Functions256, data: Block, j: nat)
    requires 16 <= j < 64
    ensures var w := Schedule256(m, data);
            w[j] == Sum(m.smallSigma1(w[j - 2]) + w[j - 7] + m.smallSigma0(w[j - 15]) + w[j - 16])
  {
  }

  lemma Slide(w: seq<Word>, schedule: seq<Word>, j: nat)
    requires |w| == 16 && |schedule| == 64 && j < 64 && Window(w, schedule, j)
    ensures Window(w[j % 16 := schedule[j]], schedule, j + 1)
  {
    forall k | j - 15 <= k < j + 1
      ensures w[j % 16 := schedule[j]][k % 16] == schedule[k]
    {
      if k < j {
        DifferentPlaces(k, j);
      }
    }
  }

  lemma DifferentPlaces(k: nat, j: nat)
    requires j - 15 <= k < j
    ensures k % 16 != j % 16
  {
  }

  // ----- a block

  /** The registers after t rounds. */
  ghost function After(m: Functions256, s: State256, data: Block, t: nat): State256
    requires t <= 64
  {
    Rounds256(m, s, Schedule256(m, data), t)
  }

  /** The 16 words of a block's bytes. */
  function WordsOf(bytes: Block): (w: seq<Word>)
    ensures |w| == 16
  {
    seq(16, t requires 0 <= t < 16 => WordAt(bytes, t))
  }

  /** Storing one word leaves the other words alone. */
  method PutWord(a: array<Byte>, t: nat, x: Word)
    requires a.Length == 64 && t < 16
    modifies a
    ensures WordsOf(a[..]) == old(WordsOf(a[..]))[t := x]
  {
    ghost var was: Block := a[..];
    CopyIn(a, 4 * t, WordBytes(x));
    WordPut(was, a[..], t, x);
  }

  lemma WordPut(was: Block, bytes: Block, t: nat, x: Word)
    requires t < 16 && bytes == was[..4 * t] + WordBytes(x) + was[4 * t + 4..]
    ensures WordsOf(bytes) == WordsOf(was)[t := x]
  {
    forall i | 0 <= i < 16
      ensures WordsOf(bytes)[i] == WordsOf(was)[t := x][i]
    {
      if i == t {
        assert bytes[4 * t..4 * t + 4] == WordBytes(x);
        assert WordAt(bytes, t) == WordAt(bytes[4 * t..4 * t + 4], 0);
      } else {
        assert forall k :: 4 * i <= k < 4 * i + 4 ==> bytes[k] == was[k];
        assert WordAt(bytes, i) == WordAt(was, i);
      }
    }
  }

  lemma FirstWord(m: Functions256, block: Block, t: nat)
    requires t < 16
    ensures Schedule256(m, block)[t] == WordsOf(block)[t]
  {
  }

  /** The words of the block from t on are still to be read. */
  ghost predicate Unread(words: seq<Word>, block: Block, t: nat)
    requires |words| == 16
  {
    forall k :: t <= k < 16 ==> words[k] == WordsOf(block)[k]
  }

  /** Rounds 0 to 15 take their word from the block and store it. The block may be the buffer's own content: the
      word stored then lies where it was read. */
  method FirstRound(m: Functions256, a: Word, b: Word, c: Word, d: Word, e: Word, f: Word, g: Word, h: Word, j: nat,
                    data: array<Byte>, buffer: array<Byte>, ghost block: Block, ghost s: State256)
    returns (d': Word, h': Word)
    requires data.Length == buffer.Length == 64 && j < 16
    requires State256(a, b, c, d, e, f, g, h) == After(m, s, block, j)
    requires Unread(WordsOf(data[..]), block, j)
    requires Filled(WordsOf(buffer[..]), Schedule256(m, block), j)
    modifies buffer
    ensures Unread(WordsOf(data[..]), block, j + 1)
    ensures Filled(WordsOf(buffer[..]), Schedule256(m, block), j + 1)
    ensures State256(h', a, b, c, d', e, f, g) == After(m, s, block, j + 1)
  {
    hide WordsOf, Schedule256, Round256;
    var w := WordsOf(data[..])[j];
    FirstWord(m, block, j);
    PutWord(buffer, j, w);
    d', h' := RoundInPlace(m, a, b, c, d, e, f, g, h, m.k(j), w);
  }

  /** Later rounds make the next word in place of the oldest one. */
  method LaterRound(m: Functions256, a: Word, b: Word, c: Word, d: Word, e: Word, f: Word, g: Word, h: Word, j: nat,
                    buffer: array<Byte>, ghost block: Block, ghost s: State256)
    returns (d': Word, h': Word)
    requires buffer.Length == 64 && j < 64
    requires State256(a, b, c, d, e, f, g, h) == After(m, s, block, j)
    requires Window(WordsOf(buffer[..]), Schedule256(m, block), j)
    modifies buffer
    ensures Window(WordsOf(buffer[..]), Schedule256(m, block), j + 1)
    ensures State256(h', a, b, c, d', e, f, g) == After(m, s, block, j + 1)
  {
    hide WordsOf, Schedule256, Round256, Window;
    var words := WordsOf(buffer[..]);
    var s0: nat := m.smallSigma0(words[(j + 1) % 16]);
    var s1: nat := m.smallSigma1(words[(j + 14) % 16]);
    var p := j % 16;
    NextWord(words, m, block, j);
    Slide(words, Schedule256(m, block), j);
    var w := Sum(words[p] + Sum(s1 + words[(j + 9) % 16] + s0));
    PutWord(buffer, p, w);
    d', h' := RoundInPlace(m, a, b, c, d, e, f, g, h, m.k(j), w);
  }

  /** Eight rounds bring every register back to its own role. */
  method EightFirstRounds(m: Functions256, r: State256, j: nat, data: array<Byte>, buffer: array<Byte>,
                          ghost block: Block, ghost s: State256)
    returns (r': State256)
    requires data.Length == buffer.Length == 64 && j <= 8
    requires r == After(m, s, block, j)
    requires Unread(WordsOf(data[..]), block, j) && Filled(WordsOf(buffer[..]), Schedule256(m, block), j)
    modifies buffer
    ensures r' == After(m, s, block, j + 8)
    ensures Unread(WordsOf(data[..]), block, j + 8) && Filled(WordsOf(buffer[..]), Schedule256(m, block), j + 8)
  {
    hide WordsOf, Schedule256, After, Filled, Unread;
    var a, b, c, d, e, f, g, h := r.a, r.b, r.c, r.d, r.e, r.f, r.g, r.h;
    d, h := FirstRound(m, a, b, c, d, e, f, g, h, j, data, buffer, block, s);
    c, g := FirstRound(m, h, a, b, c, d, e, f, g, j + 1, data, buffer, block, s);
    b, f := FirstRound(m, g, h, a, b, c, d, e, f, j + 2, data, buffer, block, s);
    a, e := FirstRound(m, f, g, h, a, b, c, d, e, j + 3, data, buffer, block, s);
    h, d := FirstRound(m, e, f, g, h, a, b, c, d, j + 4, data, buffer, block, s);
    g, c := FirstRound(m, d, e, f, g, h, a, b, c, j + 5, data, buffer, block, s);
    f, b := FirstRound(m, c, d, e, f, g, h, a, b, j + 6, data, buffer, block, s);
    e, a := FirstRound(m, b, c, d, e, f, g, h, a, j + 7, data, buffer, block, s);
    r' := State256(a, b, c, d, e, f, g, h);
  }

  method EightLaterRounds(m: Functions256, r: State256, j: nat, buffer: array<Byte>,
                          ghost block: Block, ghost s: State256)
    returns (r': State256)
    requires buffer.Length == 64 && j <= 56
    requires r == After(m, s, block, j) && Window(WordsOf(buffer[..]), Schedule256(m, block), j)
    modifies buffer
    ensures r' == After(m, s, block, j + 8) && Window(WordsOf(buffer[..]), Schedule256(m, block), j + 8)
  {
    hide WordsOf, Schedule256, After, Window;
    var a, b, c, d, e, f, g, h := r.a, r.b, r.c, r.d, r.e, r.f, r.g, r.h;
    d, h := LaterRound(m, a, b, c, d, e, f, g, h, j, buffer, block, s);
    c, g := LaterRound(m, h, a, b, c, d, e, f, g, j + 1, buffer, block, s);
    b, f := LaterRound(m, g, h, a, b, c, d, e, f, j + 2, buffer, block, s);
    a, e := LaterRound(m, f, g, h, a, b, c, d, e, j + 3, buffer, block, s);
    h, d := LaterRound(m, e, f, g, h, a, b, c, d, j + 4, buffer, block, s);
    g, c := LaterRound(m, d, e, f, g, h, a, b, c, j + 5, buffer, block, s);
    f, b := LaterRound(m, c, d, e, f, g, h, a, b, j + 6, buffer, block, s);
    e, a := LaterRound(m, b, c, d, e, f, g, h, a, j + 7, buffer, block, s);
    r' := State256(a, b, c, d, e, f, g, h);
  }

  /** A whole block, from memory of its own or from the buffer that the schedule is laid over. */
  method Transform(m: Functions256, s: State256, data: array<Byte>, buffer: array<Byte>) returns (s': State256)
    requires data.Length == buffer.Length == 64
    modifies buffer
    ensures s' == Compress256(m)(s, old(data[..]))
  {
    hide Compress256, Round256, Schedule256, W256, WordsOf;
    ghost var block: Block := data[..];
    ghost var schedule := Schedule256(m, block);
    var r := s;
    var j := 0;
    ghost var n := 0;
    while j < 16
      invariant j == 8 * n && j <= 16
      invariant r == After(m, s, block, j)
      invariant Unread(WordsOf(data[..]), block, j) && Filled(WordsOf(buffer[..]), schedule, j)
    {
      r := EightFirstRounds(m, r, j, data, buffer, block, s);
      j, n := j + 8, n + 1;
    }
    FilledUp(WordsOf(buffer[..]), schedule);
    while j < 64
      invariant j == 8 * n && 16 <= j <= 64
      invariant r == After(m, s, block, j) && Window(WordsOf(buffer[..]), schedule, j)
    {
      r := EightLaterRounds(m, r, j, buffer, block, s);
      j, n := j + 8, n + 1;
    }
    s' := Finish(m, s, r, block);
  }

  method Finish(m: Functions256, s: State256, r: State256, ghost data: Block) returns (s': State256)
    requires r == After(m, s, data, 64)
    ensures s' == Compress256(m)(s, data)
  {
    s' := Add256(s, r);
  }

  // ----- padding as coded

  /** The bytes Final adds. With 55 bytes held back the mark fills the block up to the length's place, and
      a strict comparison sends this case to a block of its own. */
  function ZerosAdded(len: nat): nat {
    if len % 64 < 55 then 55 - len % 64 else 119 - len % 64
  }

  function CodedFilling(len: nat): (s: seq<Byte>)
    ensures (len + |s|) % 64 == 0
  {
    [0x80] + Zeros(ZerosAdded(len)) + Length64(8 * len % RANGE64)
  }

  function CodedPad(msg: seq<Byte>): (s: seq<Byte>)
    ensures |s| % 64 == 0
  {
    msg + CodedFilling(|msg|)
  }

  /** The padding is the standard's, but for one length in 64. */
  lemma PaddingAgrees(msg: seq<Byte>)
    ensures CodedPad(msg) == Pad(msg) <==> |msg| % 64 != 55
  {
    if |msg| % 64 == 55 {
      assert |CodedPad(msg)| == |Pad(msg)| + 64;
    } else {
      assert CodedFilling(|msg|) == Filling(|msg|);
    }
  }

  /** For that length there is a block of zeros before the length. */
  lemma PaddingDiffersBy(msg: seq<Byte>)
    requires |msg| % 64 == 55
    ensures var n := |Pad(msg)| - 8; n >= 0 && CodedPad(msg) == Pad(msg)[..n] + Zeros(64) + Pad(msg)[n..]
  {
    var n := |Pad(msg)| - 8;
    assert Pad(msg)[..n] == msg + [0x80] && Pad(msg)[n..] == Length64(8 * |msg| % RANGE64);
    assert CodedPad(msg) == msg + [0x80] + Zeros(64) + Length64(8 * |msg| % RANGE64);
  }

  lemma ShortEnding(tail: seq<Byte>, len: nat)
    requires |tail| == len % 64 < 55
    ensures tail + CodedFilling(len) == tail + [0x80] + Zeros(55 - |tail|) + Length64(8 * len % RANGE64)
  {
  }

  lemma LongEnding(tail: seq<Byte>, len: nat)
    requires |tail| == len % 64 >= 55
    ensures tail + CodedFilling(len) == (tail + [0x80] + Zeros(63 - |tail|)) + (Zeros(56) + Length64(8 * len % RANGE64))
  {
    assert Zeros(ZerosAdded(len)) == Zeros(63 - |tail|) + Zeros(56);
  }

  lemma TakeMore<T>(base: seq<T>, s: seq<T>, at: nat, n: nat)
    requires at + n <= |s|
    ensures s[at..][..n] == s[at..at + n]
    ensures base + s[..at] + s[at..at + n] == base + s[..at + n]
    ensures s[at..][n..] == s[at + n..]
  {
  }

  lemma EndsOnBlock(tail: seq<Byte>, len: nat)
    requires |tail| == len % 64
    ensures |tail + CodedFilling(len)| % 64 == 0
  {
  }

  function CodedHash(msg: seq<Byte>): seq<Byte> {
    Digest256(Blocks(Compress256(STANDARD256), INITIAL256, CodedPad(msg)))
  }

  lemma HashAgrees(msg: seq<Byte>)
    requires |msg| % 64 != 55
    ensures CodedHash(msg) == Hash256(STANDARD256, msg)
  {
    hide Compress256;
    PaddingAgrees(msg);
  }

  method ComputeBlock(block: seq<Byte>) returns (digest: seq<Byte>)
    ensures digest == CodedHash(block)
  {
    hide Compress256;
    var context := new Context(STANDARD256);
    context.Update(block);
    assert [] + block == block;
    digest := context.Final();
  }

  /** A file is read in pieces; where they are cut does not show. */
  method ComputeFile(pieces: seq<seq<Byte>>) returns (digest: seq<Byte>)
    ensures digest == CodedHash(Flatten(pieces))
  {
    hide Compress256;
    var context := new Context(STANDARD256);
    var i := 0;
    while i < |pieces|
      invariant 0 <= i <= |pieces|
      invariant fresh(context) && fresh(context.buffer)
      invariant context.Valid() && context.m == STANDARD256 && context.msg == Flatten(pieces[..i])
    {
      context.Update(pieces[i]);
      assert pieces[..i + 1][..i] == pieces[..i];
      i := i + 1;
    }
    assert pieces[..|pieces|] == pieces;
    digest := context.Final();
  }

  class Context {
    const m: Functions256
    const buffer: array<Byte>
    var state: State256
    var bitcount: nat
    ghost var msg: seq<Byte>

    ghost predicate Valid()
      reads this, buffer
    {
      buffer.Length == 64
      && Kept(Compress256(m), INITIAL256, msg, state, bitcount, buffer[..])
    }

    constructor (m: Functions256)
      ensures Valid() && msg == [] && this.m == m
      ensures fresh(buffer)
    {
      this.m := m;
      buffer := new Byte[64](_ => 0);
      state := INITIAL256;
      bitcount := 0;
      msg := [];
    }

    /** A block goes into the state; the schedule is left in the buffer. */
    method Absorb(data: array<Byte>)
      requires buffer.Length == 64 == data.Length
      modifies this`state, buffer
      ensures state == Compress256(m)(old(state), old(data[..]))
    {
      hide Compress256;
      state := Transform(m, state, data, buffer);
    }

    method Update(input: seq<Byte>)
      requires Valid()
      modifies this, buffer
      ensures Valid() && msg == old(msg) + input
    {
      hide Compress256;
      var data := input;
      if |data| == 0 {
        return;
      }
      UsedSpace(|msg|);
      var used := bitcount / 8 % 64;
      if used > 0 {
        var free := 64 - used;
        if |data| >= free {
          AddFilling(used, data[..free]);
          data := data[free..];
          assert input == input[..free] + data;
        } else {
          AddHeld(used, data);
          return;
        }
      }
      UpdateBlocks(data);
    }

    /** Whole blocks go past the buffer. */
    method UpdateBlocks(input: seq<Byte>)
      requires Valid() && |msg| % 64 == 0
      modifies this, buffer
      ensures Valid() && msg == old(msg) + input
    {
      hide Compress256;
      var data := input;
      ghost var base, at := msg, 0;
      while |data| >= 64
        invariant Valid() && |msg| % 64 == 0
        invariant at <= |input| && data == input[at..] && msg == base + input[..at]
        decreases |data|
      {
        AddBlock(data[..64]);
        TakeMore(base, input, at, 64);
        data, at := data[64..], at + 64;
      }
      if |data| > 0 {
        TakeMore(base, input, at, |data|);
        AddHeld(0, data);
      }
      assert input[..|input|] == input;
    }

    /** Fills the buffer up and takes it in. */
    method AddFilling(used: nat, piece: seq<Byte>)
      requires Valid() && used == |msg| % 64 && used + |piece| == 64
      modifies this, buffer
      ensures Valid() && msg == old(msg) + piece && |msg| % 64 == 0
    {
      hide Compress256;
      ghost var was, before := state, buffer[..];
      CopyIn(buffer, used, piece);
      ghost var block: Block := buffer[..];
      assert block == before[..used] + piece;
      Absorb(buffer);
      KeptFilled(Compress256(m), INITIAL256, msg, was, bitcount, before, piece, buffer[..], block);
      bitcount := (bitcount + 8 * |piece|) % RANGE64;
      msg := msg + piece;
    }

    method AddBlock(block: Block)
      requires Valid() && |msg| % 64 == 0
      modifies this, buffer
      ensures Valid() && msg == old(msg) + block && |msg| % 64 == 0
    {
      hide Compress256;
      ghost var was, before := state, buffer[..];
      var data := new Byte[64](i requires 0 <= i < 64 => block[i]);
      assert data[..] == block;
      Absorb(data);
      KeptFilled(Compress256(m), INITIAL256, msg, was, bitcount, before, block, buffer[..], block);
      bitcount := (bitcount + 64 * 8) % RANGE64;
      msg := msg + block;
    }

    method AddHeld(used: nat, piece: seq<Byte>)
      requires Valid() && used == |msg| % 64 && used + |piece| < 64
      modifies this, buffer
      ensures Valid() && msg == old(msg) + piece
    {
      hide Compress256;
      ghost var before := buffer[..];
      CopyIn(buffer, used, piece);
      KeptHeld(Compress256(m), INITIAL256, msg, state, bitcount, before, piece, buffer[..]);
      bitcount := (bitcount + 8 * |piece|) % RANGE64;
      msg := msg + piece;
    }

    method Final() returns (digest: seq<Byte>)
      requires Valid()
      modifies this, buffer
      ensures digest == Digest256(Blocks(Compress256(m), INITIAL256, CodedPad(old(msg))))
    {
      hide Compress256;
      ghost var tail, was := Tail(msg), state;
      Finished(Compress256(m), INITIAL256, msg, CodedFilling(|msg|));
      UsedSpace(|msg|);
      var used := bitcount / 8 % 64;
      MakeLastBlocks(used, tail, |msg|);
      digest := Digest256(state);
    }

    method MakeLastBlocks(used0: nat, ghost tail: seq<Byte>, ghost len: nat)
      requires buffer.Length == 64
      requires bitcount == 8 * len % RANGE64 && used0 == len % 64 == |tail| && buffer[..used0] == tail
      modifies this`state, buffer
      ensures |tail + CodedFilling(len)| % 64 == 0
      ensures state == Blocks(Compress256(m), old(state), tail + CodedFilling(len))
    {
      hide Compress256;
      var used := used0;
      EndsOnBlock(tail, len);
      ghost var was, ending := state, tail + CodedFilling(len);
      if used > 0 {
        buffer[used] := 0x80;
        used := used + 1;
        assert buffer[..used] == tail + [0x80];
        if used < 56 {
          ShortEnding(tail, len);
          Clear(buffer, used, 56);
          OneBlock(Compress256(m), was, ending);
          FinishBlock(tail + [0x80] + Zeros(55 - |tail|));
          assert state == Blocks(Compress256(m), was, ending);
        } else {
          LongEnding(tail, len);
          TwoBlocks(Compress256(m), was, tail + [0x80] + Zeros(63 - |tail|), Zeros(56) + Length64(bitcount));
          FillOut(used, tail + [0x80]);
          FinishBlock(Zeros(56));
          assert state == Blocks(Compress256(m), was, ending);
        }
      } else {
        ShortEnding(tail, len);
        OneBlock(Compress256(m), was, ending);
        Clear(buffer, 0, 56);
        buffer[0] := 0x80;
        assert tail + [0x80] + Zeros(55) == [0x80] + Zeros(55);
        FinishBlock([0x80] + Zeros(55));
      }
    }

    /** The second to last block, with no room for the bit count. */
    method FillOut(used: nat, ghost front: seq<Byte>)
      requires buffer.Length == 64
      requires used <= 64 && front == buffer[..used]
      modifies this`state, buffer
      ensures state == Compress256(m)(old(state), front + Zeros(64 - used))
      ensures buffer[..56] == Zeros(56)
    {
      hide Compress256;
      if used < 64 {
        Clear(buffer, used, 64);
      }
      assert buffer[..] == front + Zeros(64 - used);
      Absorb(buffer);
      Clear(buffer, 0, 56);
    }

    /** Sets the bit count and takes the last block in. */
    method FinishBlock(ghost front: seq<Byte>)
      requires buffer.Length == 64 && bitcount < RANGE64
      requires |front| == 56 && buffer[..56] == front
      modifies this`state, buffer
      ensures state == Compress256(m)(old(state), front + Length64(bitcount))
    {
      hide Compress256;
      CopyIn(buffer, 56, Length64(bitcount));
      assert buffer[..] == front + Length64(bitcount);
      Absorb(buffer);
    }
  }
}
