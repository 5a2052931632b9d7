/** The checksums: a byte at a time from a table, against a bit at a time by division. */
module Crc {
  import opened CrcAlgebra
  import opened CrcTables

  // ----- bit by bit

  /** The register after a message: each byte is added in, then divided out bit by bit. */
  function Divide(p: Word, s: Word, data: seq<Byte>): Word {
    if data == [] then s else Eight(p, Xor(Divide(p, s, data[..|data| - 1]), data[|data| - 1]))
  }

  lemma Divide1(p: Word, s: Word, b: Byte)
    ensures Divide(p, s, [b]) == Eight(p, Xor(s, b))
  {
    hide Eight, Xor;
    assert [b][..0] == [];
  }

  lemma {:induction false} DivideConcat(p: Word, s: Word, a: seq<Byte>, b: seq<Byte>)
    ensures Divide(p, s, a + b) == Divide(p, Divide(p, s, a), b)
  {
    hide Eight, Xor;
    if b == [] {
      assert a + b == a;
    } else {
      assert (a + b)[..|a + b| - 1] == a + b[..|b| - 1];
      DivideConcat(p, s, a, b[..|b| - 1]);
    }
  }

  const SEED16: Word := 0xFFFF
  const SEED32: Word := 0xFFFF_FFFF

  function Crc16(data: seq<Byte>): Word { Divide(POLYNOMIAL16, SEED16, data) }
  function Crc32(data: seq<Byte>): Word { Divide(POLYNOMIAL32, SEED32, data) }

  // ----- byte by byte

  function Low(s: Word): Byte { LowBits(s); s & 0xFF }
  function Rest(s: Word): Word { s >> 8 }

  lemma LowBits(s: Word)
    ensures s & 0xFF < 0x100
  {
  }

  lemma RestBits(s: Word)
    ensures s >> 8 < 0x100_0000
    ensures s == ((s >> 8) << 8) ^ (s & 0xFF)
  {
  }

  lemma LowXor(s: Word, b: Byte)
    ensures Xor(Low(s), b) < 0x100
  {
    LowBits(s);
    ByteXorLess(s & 0xFF, b);
  }

  lemma RestAndLow(s: Word)
    ensures Rest(s) < 0x100_0000
    ensures s == Xor(Up(Rest(s)), Low(s))
  {
    RestBits(s);
  }

  function Step(rows: seq<seq<Word>>, s: Word, b: Byte): Word
    requires Shape(rows)
  {
    LowXor(s, b);
    Xor(Rest(s), Entry(rows, Xor(Low(s), b)))
  }

  lemma StepIs(p: Word, rows: seq<seq<Word>>, s: Word, b: Byte)
    requires Right(p, rows) && Shape(rows)
    ensures Step(rows, s, b) == Eight(p, Xor(s, b))
  {
    hide Eight, Right, Entry, Xor, Up, Rest, Low;
    var rest, low := Rest(s), Low(s);
    RestAndLow(s);
    LowXor(s, b);
    EntryIs(p, rows, Xor(low, b));
    XorAssociates(Up(rest), low, b);
    EightOfXor(p, Up(rest), Xor(low, b));
    EightOfUp(p, rest);
  }

  lemma RightShape(p: Word, rows: seq<seq<Word>>)
    requires Right(p, rows)
    ensures Shape(rows)
  {
  }

  method Crc16Calculate(block: seq<Byte>) returns (crc: Word)
    ensures crc == Crc16(block)
  {
    hide Eight, Xor, Right, Step, Shape;
    TablesRight();
    RightShape(POLYNOMIAL16, TABLE16);
    crc := SEED16;
    var i := 0;
    while i < |block|
      invariant 0 <= i <= |block| && crc == Divide(POLYNOMIAL16, SEED16, block[..i])
    {
      StepIs(POLYNOMIAL16, TABLE16, crc, block[i]);
      crc := Step(TABLE16, crc, block[i]);
      assert block[..i + 1][..i] == block[..i];
      i := i + 1;
    }
    assert block[..i] == block;
  }

  method Crc32Calculate(block: seq<Byte>) returns (crc: Word)
    ensures crc == Crc32(block)
  {
    hide Eight, Xor, Right, Step, Shape;
    TablesRight();
    RightShape(POLYNOMIAL32, TABLE32);
    crc := SEED32;
    var i := 0;
    while i < |block|
      invariant 0 <= i <= |block| && crc == Divide(POLYNOMIAL32, SEED32, block[..i])
    {
      StepIs(POLYNOMIAL32, TABLE32, crc, block[i]);
      crc := Step(TABLE32, crc, block[i]);
      assert block[..i + 1][..i] == block[..i];
      i := i + 1;
    }
    assert block[..i] == block;
  }

  // ----- nothing is lost

  ghost predicate Fits(p: Word, x: Word) {
    p == 0xEDB88320 || (p == 0x8408 && x < 0x1_0000)
  }

  lemma FitsShift(p: Word, x: Word)
    requires Fits(p, x)
    ensures Fits(p, Shift(p, x))
  {
    hide Shift;
    if p == 0x8408 {
      ShiftNarrow16(x);
    }
  }

  lemma FitsXor(p: Word, x: Word, y: Word)
    requires Fits(p, x) && y < 0x1_0000
    ensures Fits(p, Xor(x, y))
  {
    XorNarrow16(x, y);
  }

  lemma XorNarrow16(x: Word, y: Word)
    ensures x < 0x1_0000 && y < 0x1_0000 ==> x ^ y < 0x1_0000
  {
  }

  lemma ShiftOneToOne(p: Word, x: Word, y: Word)
    requires Fits(p, x) && Fits(p, y) && Shift(p, x) == Shift(p, y)
    ensures x == y
  {
    hide Shift, Shows;
    if p == 0xEDB88320 {
      Shows32(x);
      Shows32(y);
      ShiftInjective(p, 0x8000_0000, x, y);
    } else {
      Shows16(x);
      Shows16(y);
      ShiftInjective(p, 0x8000, x, y);
    }
  }

  lemma EightOneToOne(p: Word, x: Word, y: Word)
    requires Fits(p, x) && Fits(p, y)
    ensures Fits(p, Eight(p, x))
    ensures Eight(p, x) == Eight(p, y) ==> x == y
  {
    hide Shift, Fits;
    var x1 := Shift(p, x);
    var x2 := Shift(p, x1);
    var x3 := Shift(p, x2);
    var x4 := Shift(p, x3);
    var x5 := Shift(p, x4);
    var x6 := Shift(p, x5);
    var x7 := Shift(p, x6);
    var y1 := Shift(p, y);
    var y2 := Shift(p, y1);
    var y3 := Shift(p, y2);
    var y4 := Shift(p, y3);
    var y5 := Shift(p, y4);
    var y6 := Shift(p, y5);
    var y7 := Shift(p, y6);
    FitsShift(p, x);
    FitsShift(p, x1);
    FitsShift(p, x2);
    FitsShift(p, x3);
    FitsShift(p, x4);
    FitsShift(p, x5);
    FitsShift(p, x6);
    FitsShift(p, x7);
    FitsShift(p, y);
    FitsShift(p, y1);
    FitsShift(p, y2);
    FitsShift(p, y3);
    FitsShift(p, y4);
    FitsShift(p, y5);
    FitsShift(p, y6);
    FitsShift(p, y7);
    if Eight(p, x) == Eight(p, y) {
      ShiftOneToOne(p, x7, y7);
      ShiftOneToOne(p, x6, y6);
      ShiftOneToOne(p, x5, y5);
      ShiftOneToOne(p, x4, y4);
      ShiftOneToOne(p, x3, y3);
      ShiftOneToOne(p, x2, y2);
      ShiftOneToOne(p, x1, y1);
      ShiftOneToOne(p, x, y);
    }
  }

  /** What follows keeps two registers apart. */
  lemma {:induction false} DivideOneToOne(p: Word, s: Word, t: Word, data: seq<Byte>)
    requires Fits(p, s) && Fits(p, t)
    ensures Fits(p, Divide(p, s, data)) && Fits(p, Divide(p, t, data))
    ensures Divide(p, s, data) == Divide(p, t, data) ==> s == t
  {
    hide Eight, Xor, Fits;
    if data != [] {
      var front, b := data[..|data| - 1], data[|data| - 1];
      DivideOneToOne(p, s, t, front);
      var u, v := Divide(p, s, front), Divide(p, t, front);
      FitsXor(p, u, b);
      FitsXor(p, v, b);
      EightOneToOne(p, Xor(u, b), Xor(v, b));
      EightOneToOne(p, Xor(v, b), Xor(u, b));
      XorCancels(u, b);
      XorCancels(v, b);
    }
  }

  // ----- a window as wide as the register

  function Pack2(a: Byte, b: Byte): Word { Xor(a, Up(b)) }

  function Pack4(w: seq<Byte>): Word
    requires |w| == 4
  {
    Xor(Pack2(w[0], w[1]), Up(Up(Pack2(w[2], w[3]))))
  }

  lemma PackBits2(a: Word, b: Word)
    requires a < 0x100 && b < 0x100
    ensures a ^ (b << 8) < 0x1_0000
    ensures (a ^ (b << 8)) & 0xFF == a && (a ^ (b << 8)) >> 8 == b
  {
  }

  lemma Unpack2(a: Byte, b: Byte, c: Byte, d: Byte)
    requires Pack2(a, b) == Pack2(c, d)
    ensures a == c && b == d
  {
    PackBits2(a, b);
    PackBits2(c, d);
  }

  lemma PackBits4(x: Word, y: Word)
    requires x < 0x1_0000 && y < 0x1_0000
    ensures (x ^ ((y << 8) << 8)) & 0xFFFF == x && (x ^ ((y << 8) << 8)) >> 16 == y
  {
  }

  lemma Pack2Narrow(a: Byte, b: Byte)
    ensures Pack2(a, b) < 0x1_0000
  {
    PackBits2(a, b);
  }

  lemma UpNarrow(y: Word)
    requires y < 0x1_0000
    ensures y < 0x100_0000 && y << 8 < 0x100_0000
  {
  }

  lemma UnpackWords(x: Word, y: Word, u: Word, v: Word)
    requires x < 0x1_0000 && y < 0x1_0000 && u < 0x1_0000 && v < 0x1_0000
    requires Xor(x, Up(Up(y))) == Xor(u, Up(Up(v)))
    ensures x == u && y == v
  {
    PackBits4(x, y);
    PackBits4(u, v);
  }

  lemma Divide2(p: Word, s: Word, a: Byte, b: Byte)
    ensures Divide(p, s, [a, b]) == Eight(p, Eight(p, Xor(s, Pack2(a, b))))
  {
    hide Eight, Xor, Up;
    assert [a, b] == [a] + [b];
    DivideConcat(p, s, [a], [b]);
    Divide1(p, s, a);
    Divide1(p, Eight(p, Xor(s, a)), b);
    BelowUp(b);
    EightOfUp(p, b);
    EightOfXor(p, Xor(s, a), Up(b));
    XorAssociates(s, a, Up(b));
  }

  lemma BelowUp(b: Byte)
    ensures b < 0x100_0000
  {
  }

  lemma Divide4(p: Word, s: Word, w: seq<Byte>)
    requires |w| == 4
    ensures Divide(p, s, w) == Eight(p, Eight(p, Eight(p, Eight(p, Xor(s, Pack4(w))))))
  {
    hide Eight, Xor, Up, Pack2;
    assert w == [w[0], w[1]] + [w[2], w[3]];
    DivideConcat(p, s, [w[0], w[1]], [w[2], w[3]]);
    var x, y := Pack2(w[0], w[1]), Pack2(w[2], w[3]);
    Divide2(p, s, w[0], w[1]);
    Divide2(p, Divide(p, s, [w[0], w[1]]), w[2], w[3]);
    Pack2Narrow(w[2], w[3]);
    UpTwice(y);
    EightOfUp(p, y);
    EightOfUp(p, Up(y));
    EightOfXor(p, Xor(s, x), Up(Up(y)));
    EightOfXor(p, Eight(p, Xor(s, x)), Up(y));
    XorAssociates(s, x, Up(Up(y)));
  }

  lemma UpTwice(y: Word)
    requires y < 0x1_0000
    ensures y < 0x100_0000 && Up(y) < 0x100_0000
  {
    UpNarrow(y);
  }

  lemma FromXor(s: Word, x: Word, y: Word)
    requires Xor(s, x) == Xor(s, y)
    ensures x == y
  {
    hide Xor;
    XorCommutes(s, x);
    XorCommutes(s, y);
    XorCancels(x, s);
    XorCancels(y, s);
  }

  lemma Window2(p: Word, s: Word, w: seq<Byte>, v: seq<Byte>)
    requires Fits(p, s) && |w| == |v| == 2 && Divide(p, s, w) == Divide(p, s, v)
    ensures w == v
  {
    hide Eight, Xor, Fits, Pack2;
    assert w == [w[0], w[1]] && v == [v[0], v[1]];
    var x, y := Pack2(w[0], w[1]), Pack2(v[0], v[1]);
    Divide2(p, s, w[0], w[1]);
    Divide2(p, s, v[0], v[1]);
    Pack2Narrow(w[0], w[1]);
    Pack2Narrow(v[0], v[1]);
    FitsXor(p, s, x);
    FitsXor(p, s, y);
    EightOneToOne(p, Xor(s, x), Xor(s, y));
    EightOneToOne(p, Xor(s, y), Xor(s, x));
    EightOneToOne(p, Eight(p, Xor(s, x)), Eight(p, Xor(s, y)));
    FromXor(s, x, y);
    Unpack2(w[0], w[1], v[0], v[1]);
  }

  lemma Window4(s: Word, w: seq<Byte>, v: seq<Byte>)
    requires |w| == |v| == 4 && Divide(0xEDB88320, s, w) == Divide(0xEDB88320, s, v)
    ensures w == v
  {
    hide Eight, Xor, Pack2, Pack4;
    var p := 0xEDB88320;
    var a, b := Xor(s, Pack4(w)), Xor(s, Pack4(v));
    var a1, b1 := Eight(p, a), Eight(p, b);
    var a2, b2 := Eight(p, a1), Eight(p, b1);
    var a3, b3 := Eight(p, a2), Eight(p, b2);
    Divide4(p, s, w);
    Divide4(p, s, v);
    EightOneToOne(p, a3, b3);
    EightOneToOne(p, a2, b2);
    EightOneToOne(p, a1, b1);
    EightOneToOne(p, a, b);
    FromXor(s, Pack4(w), Pack4(v));
    Unpack4(w, v);
  }

  lemma Unpack4(w: seq<Byte>, v: seq<Byte>)
    requires |w| == |v| == 4 && Pack4(w) == Pack4(v)
    ensures w == v
  {
    hide Xor, Up, Pack2;
    Pack2Narrow(w[0], w[1]);
    Pack2Narrow(w[2], w[3]);
    Pack2Narrow(v[0], v[1]);
    Pack2Narrow(v[2], v[3]);
    UnpackWords(Pack2(w[0], w[1]), Pack2(w[2], w[3]), Pack2(v[0], v[1]), Pack2(v[2], v[3]));
    Unpack2(w[0], w[1], v[0], v[1]);
    Unpack2(w[2], w[3], v[2], v[3]);
  }

  /** Changing up to two bytes in a row always changes the 16-bit checksum. */
  lemma Crc16DetectsWindow(before: seq<Byte>, w: seq<Byte>, v: seq<Byte>, after: seq<Byte>)
    requires |w| == |v| <= 2 && w != v
    ensures Crc16(before + w + after) != Crc16(before + v + after)
  {
    hide Divide, Fits;
    var p, s, z := POLYNOMIAL16, Divide(POLYNOMIAL16, SEED16, before), seq(2 - |w|, _ => 0);
    SeedsFit();
    DivideOneToOne(p, SEED16, SEED16, before);
    DivideAround(p, SEED16, before, w, after);
    DivideAround(p, SEED16, before, v, after);
    DivideConcat(p, s, w, z);
    DivideConcat(p, s, v, z);
    DivideOneToOne(p, s, s, w);
    DivideOneToOne(p, s, s, v);
    DivideOneToOne(p, Divide(p, s, w), Divide(p, s, v), after);
    assert (w + z)[..|w|] == w && (v + z)[..|v|] == v;
    if Divide(p, s, w) == Divide(p, s, v) {
      Window2(p, s, w + z, v + z);
    }
  }

  /** Changing up to four bytes in a row always changes the 32-bit checksum. */
  lemma Crc32DetectsWindow(before: seq<Byte>, w: seq<Byte>, v: seq<Byte>, after: seq<Byte>)
    requires |w| == |v| <= 4 && w != v
    ensures Crc32(before + w + after) != Crc32(before + v + after)
  {
    hide Divide, Fits;
    var p, s, z := POLYNOMIAL32, Divide(POLYNOMIAL32, SEED32, before), seq(4 - |w|, _ => 0);
    SeedsFit();
    DivideOneToOne(p, SEED32, SEED32, before);
    DivideAround(p, SEED32, before, w, after);
    DivideAround(p, SEED32, before, v, after);
    DivideConcat(p, s, w, z);
    DivideConcat(p, s, v, z);
    DivideOneToOne(p, s, s, w);
    DivideOneToOne(p, s, s, v);
    DivideOneToOne(p, Divide(p, s, w), Divide(p, s, v), after);
    assert (w + z)[..|w|] == w && (v + z)[..|v|] == v;
    if Divide(p, s, w) == Divide(p, s, v) {
      Window4(s, w + z, v + z);
    }
  }

  lemma SeedsFit()
    ensures Fits(POLYNOMIAL16, SEED16) && Fits(POLYNOMIAL32, SEED32)
  {
  }

  lemma DivideAround(p: Word, s: Word, a: seq<Byte>, w: seq<Byte>, c: seq<Byte>)
    ensures Divide(p, s, a + w + c) == Divide(p, Divide(p, Divide(p, s, a), w), c)
  {
    hide Divide;
    DivideConcat(p, s, a + w, c);
    DivideConcat(p, s, a, w);
  }

  // ----- the checksum after its message

  function Bytes2(s: Word): seq<Byte>
    requires s < 0x1_0000
  {
    Bits2(s);
    [s & 0xFF, s >> 8]
  }

  function Bytes4(s: Word): (r: seq<Byte>)
    ensures |r| == 4
  {
    Bits4(s);
    [s & 0xFF, (s >> 8) & 0xFF, (s >> 16) & 0xFF, s >> 24]
  }

  lemma Bits2(s: Word)
    requires s < 0x1_0000
    ensures s & 0xFF < 0x100 && s >> 8 < 0x100 && (s & 0xFF) ^ ((s >> 8) << 8) == s
  {
  }

  lemma Bits4(s: Word)
    ensures s & 0xFF < 0x100 && (s >> 8) & 0xFF < 0x100 && (s >> 16) & 0xFF < 0x100 && s >> 24 < 0x100
    ensures ((s & 0xFF) ^ (((s >> 8) & 0xFF) << 8)) ^ (((((s >> 16) & 0xFF) ^ ((s >> 24) << 8)) << 8) << 8) == s
  {
  }

  lemma EightOfZero(p: Word)
    ensures Eight(p, 0) == 0
  {
    hide Eight, Xor;
    XorCancels(0, 0);
    EightOfXor(p, 0, 0);
    XorCancels(Eight(p, 0), 0);
  }

  lemma PackBytes2(s: Word)
    requires s < 0x1_0000
    ensures Pack2(Bytes2(s)[0], Bytes2(s)[1]) == s
  {
    Bits2(s);
  }

  lemma PackBytes4(s: Word)
    ensures Pack4(Bytes4(s)) == s
  {
    Bits4(s);
  }

  /** Two bytes behind a message bring the 16-bit register to zero exactly when they are its checksum, low byte
      first. */
  lemma Crc16Residue(msg: seq<Byte>, t: seq<Byte>)
    requires |t| == 2
    ensures Crc16(msg) < 0x1_0000
    ensures Crc16(msg + t) == 0 <==> t == Bytes2(Crc16(msg))
  {
    hide Divide, Bytes2, Pack2, Eight;
    var p, s := POLYNOMIAL16, Crc16(msg);
    SeedsFit();
    DivideOneToOne(p, SEED16, SEED16, msg);
    FitsNarrow(s);
    DivideConcat(p, SEED16, msg, t);
    var own := Bytes2(s);
    OwnBytes2(p, s);
    if Divide(p, s, t) == 0 {
      Window2(p, s, t, own);
    }
  }

  lemma FitsNarrow(s: Word)
    requires Fits(POLYNOMIAL16, s)
    ensures s < 0x1_0000
  {
  }

  lemma OwnBytes2(p: Word, s: Word)
    requires s < 0x1_0000
    ensures |Bytes2(s)| == 2 && Divide(p, s, Bytes2(s)) == 0
  {
    hide Eight, Xor, Pack2;
    var w := Bytes2(s);
    PackBytes2(s);
    Divide2(p, s, w[0], w[1]);
    XorCancels(s, s);
    EightOfZero(p);
  }

  /** Four bytes behind a message bring the 32-bit register to zero exactly when they are its checksum, low byte
      first. */
  lemma Crc32Residue(msg: seq<Byte>, t: seq<Byte>)
    requires |t| == 4
    ensures Crc32(msg + t) == 0 <==> t == Bytes4(Crc32(msg))
  {
    hide Divide, Bytes4, Eight;
    var p, s := POLYNOMIAL32, Crc32(msg);
    DivideConcat(p, SEED32, msg, t);
    OwnBytes4(p, s);
    if Divide(p, s, t) == 0 {
      Window4(s, t, Bytes4(s));
    }
  }

  lemma OwnBytes4(p: Word, s: Word)
    ensures Divide(p, s, Bytes4(s)) == 0
  {
    hide Eight, Xor, Pack4, Bytes4;
    PackBytes4(s);
    Divide4(p, s, Bytes4(s));
    XorCancels(s, s);
    EightOfZero(p);
  }

  // ----- known answers

  const DIGITS: seq<Byte> := [0x31, 0x32, 0x33, 0x34, 0x35, 0x36, 0x37, 0x38, 0x39]

  lemma NothingDivided(p: Word, seed: Word)
    ensures Divide(p, seed, []) == seed
  {
  }

  lemma CheckStep(p: Word, seed: Word, i: nat, s: Word, b: Byte, s': Word)
    requires i < 9 && Divide(p, seed, DIGITS[..i]) == s && DIGITS[i] == b && Eight(p, Xor(s, b)) == s'
    ensures Divide(p, seed, DIGITS[..i + 1]) == s'
  {
    hide Eight, Xor;
    assert DIGITS[..i + 1][..i] == DIGITS[..i];
  }

  lemma Crc16Bytes0()
    ensures Eight(0x8408, Xor(0xffff, 0x31)) == 0x2f8d
    ensures Eight(0x8408, Xor(0x2f8d, 0x32)) == 0x4d53
    ensures Eight(0x8408, Xor(0x4d53, 0x33)) == 0x634b
  {
  }

  lemma Crc16Bytes1()
    ensures Eight(0x8408, Xor(0x634b, 0x34)) == 0x8b13
    ensures Eight(0x8408, Xor(0x8b13, 0x35)) == 0x44bf
    ensures Eight(0x8408, Xor(0x44bf, 0x36)) == 0x198d
  {
  }

  lemma Crc16Bytes2()
    ensures Eight(0x8408, Xor(0x198d, 0x37)) == 0x1ac8
    ensures Eight(0x8408, Xor(0x1ac8, 0x38)) == 0xf795
    ensures Eight(0x8408, Xor(0xf795, 0x39)) == 0x6f91
  {
  }

  /** The check value customary for this polynomial: the checksum of the digits from 1 to 9. */
  lemma Crc16Check()
    ensures Crc16([]) == 0xffff && Crc16(DIGITS) == 0x6f91
  {
    hide Divide, Eight, Xor;
    NothingDivided(0x8408, 0xffff);
    Crc16Bytes0();
    Crc16Bytes1();
    Crc16Bytes2();
    CheckStep(0x8408, 0xffff, 0, 0xffff, 0x31, 0x2f8d);
    CheckStep(0x8408, 0xffff, 1, 0x2f8d, 0x32, 0x4d53);
    CheckStep(0x8408, 0xffff, 2, 0x4d53, 0x33, 0x634b);
    CheckStep(0x8408, 0xffff, 3, 0x634b, 0x34, 0x8b13);
    CheckStep(0x8408, 0xffff, 4, 0x8b13, 0x35, 0x44bf);
    CheckStep(0x8408, 0xffff, 5, 0x44bf, 0x36, 0x198d);
    CheckStep(0x8408, 0xffff, 6, 0x198d, 0x37, 0x1ac8);
    CheckStep(0x8408, 0xffff, 7, 0x1ac8, 0x38, 0xf795);
    CheckStep(0x8408, 0xffff, 8, 0xf795, 0x39, 0x6f91);
    assert DIGITS[..9] == DIGITS && DIGITS[..0] == [];
  }

  lemma Crc32Bytes0()
    ensures Eight(0xEDB88320, Xor(0xffffffff, 0x31)) == 0x7c231048
    ensures Eight(0xEDB88320, Xor(0x7c231048, 0x32)) == 0xb0acbb32
    ensures Eight(0xEDB88320, Xor(0xb0acbb32, 0x33)) == 0x77b79c2d
  {
  }

  lemma Crc32Bytes1()
    ensures Eight(0xEDB88320, Xor(0x77b79c2d, 0x34)) == 0x641c1f5c
    ensures Eight(0xEDB88320, Xor(0x641c1f5c, 0x35)) == 0x340ac5e3
    ensures Eight(0xEDB88320, Xor(0x340ac5e3, 0x36)) == 0xf68d2c9e
  {
  }

  lemma Crc32Bytes2()
    ensures Eight(0xEDB88320, Xor(0xf68d2c9e, 0x37)) == 0xaffc9660
    ensures Eight(0xEDB88320, Xor(0xaffc9660, 0x38)) == 0x651f2550
    ensures Eight(0xEDB88320, Xor(0x651f2550, 0x39)) == 0x340bc6d9
  {
  }

  /** The check value customary for this polynomial: the checksum of the digits from 1 to 9. */
  lemma Crc32Check()
    ensures Crc32([]) == 0xffffffff && Crc32(DIGITS) == 0x340bc6d9
  {
    hide Divide, Eight, Xor;
    NothingDivided(0xEDB88320, 0xffffffff);
    Crc32Bytes0();
    Crc32Bytes1();
    Crc32Bytes2();
    CheckStep(0xEDB88320, 0xffffffff, 0, 0xffffffff, 0x31, 0x7c231048);
    CheckStep(0xEDB88320, 0xffffffff, 1, 0x7c231048, 0x32, 0xb0acbb32);
    CheckStep(0xEDB88320, 0xffffffff, 2, 0xb0acbb32, 0x33, 0x77b79c2d);
    CheckStep(0xEDB88320, 0xffffffff, 3, 0x77b79c2d, 0x34, 0x641c1f5c);
    CheckStep(0xEDB88320, 0xffffffff, 4, 0x641c1f5c, 0x35, 0x340ac5e3);
    CheckStep(0xEDB88320, 0xffffffff, 5, 0x340ac5e3, 0x36, 0xf68d2c9e);
    CheckStep(0xEDB88320, 0xffffffff, 6, 0xf68d2c9e, 0x37, 0xaffc9660);
    CheckStep(0xEDB88320, 0xffffffff, 7, 0xaffc9660, 0x38, 0x651f2550);
    CheckStep(0xEDB88320, 0xffffffff, 8, 0x651f2550, 0x39, 0x340bc6d9);
    assert DIGITS[..9] == DIGITS && DIGITS[..0] == [];
  }
}
