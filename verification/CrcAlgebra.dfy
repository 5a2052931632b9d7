/** Polynomial division over single bits, reflected: the words of a checksum and the laws they obey.
    Words are combined through named functions, so that everything below the laws is reasoning with equations. */
module CrcAlgebra {
  type Word = bv32
  type Byte = w: Word | w < 0x100

  function Xor(a: Word, b: Word): Word { a ^ b }
  function Half(a: Word): Word { a >> 1 }
  predicate Odd(a: Word) { a & 1 == 1 }

  /** One step: the lowest bit leaves, and if it was set the polynomial is subtracted. */
  function Shift(p: Word, s: Word): Word {
    if Odd(s) then Xor(Half(s), p) else Half(s)
  }

  function Eight(p: Word, s: Word): Word {
    Shift(p, Shift(p, Shift(p, Shift(p, Shift(p, Shift(p, Shift(p, Shift(p, s))))))))
  }

  // ----- laws of words

  lemma XorCommutes(a: Word, b: Word)
    ensures Xor(a, b) == Xor(b, a)
  {
  }

  lemma XorAssociates(a: Word, b: Word, c: Word)
    ensures Xor(Xor(a, b), c) == Xor(a, Xor(b, c))
  {
  }

  lemma XorCancels(a: Word, b: Word)
    ensures Xor(a, a) == 0 && Xor(a, 0) == a && Xor(Xor(a, b), b) == a
  {
  }

  lemma HalfOfXor(a: Word, b: Word)
    ensures Half(Xor(a, b)) == Xor(Half(a), Half(b))
  {
  }

  lemma OddOfXor(a: Word, b: Word)
    ensures Odd(Xor(a, b)) <==> Odd(a) != Odd(b)
  {
  }

  // ----- division is linear

  lemma ShiftOfXor(p: Word, a: Word, b: Word)
    ensures Shift(p, Xor(a, b)) == Xor(Shift(p, a), Shift(p, b))
  {
    hide Xor, Half, Odd;
    var x, y := Half(a), Half(b);
    HalfOfXor(a, b);
    OddOfXor(a, b);
    XorAssociates(x, y, p);
    XorAssociates(x, p, y);
    XorCommutes(p, y);
    XorAssociates(Xor(x, p), y, p);
    XorAssociates(x, p, Xor(y, p));
    XorCommutes(p, Xor(y, p));
    XorCancels(y, p);
  }

  lemma EightOfXor(p: Word, a: Word, b: Word)
    ensures Eight(p, Xor(a, b)) == Xor(Eight(p, a), Eight(p, b))
  {
    hide Xor, Shift;
    var a1, b1 := Shift(p, a), Shift(p, b);
    var a2, b2 := Shift(p, a1), Shift(p, b1);
    var a3, b3 := Shift(p, a2), Shift(p, b2);
    var a4, b4 := Shift(p, a3), Shift(p, b3);
    var a5, b5 := Shift(p, a4), Shift(p, b4);
    var a6, b6 := Shift(p, a5), Shift(p, b5);
    var a7, b7 := Shift(p, a6), Shift(p, b6);
    ShiftOfXor(p, a, b);
    ShiftOfXor(p, a1, b1);
    ShiftOfXor(p, a2, b2);
    ShiftOfXor(p, a3, b3);
    ShiftOfXor(p, a4, b4);
    ShiftOfXor(p, a5, b5);
    ShiftOfXor(p, a6, b6);
    ShiftOfXor(p, a7, b7);
  }

  // ----- a word whose low byte is zero is only moved

  function Up(b: Word): Word { b << 8 }

  function Twice(b: Word): Word { b << 1 }

  lemma HalfOfTwice(b: Word)
    requires b < 0x8000_0000
    ensures Half(Twice(b)) == b && !Odd(Twice(b))
  {
  }

  function EightTwices(b: Word): Word {
    Twice(Twice(Twice(Twice(Twice(Twice(Twice(Twice(b))))))))
  }

  lemma EightShifts(b: Word)
    ensures (((((((b << 1) << 1) << 1) << 1) << 1) << 1) << 1) << 1 == b << 8
  {
  }

  lemma UpIs(b: Word)
    ensures Up(b) == EightTwices(b)
  {
    EightShifts(b);
  }

  lemma TwiceBounds(b: Word)
    requires b < 0x100_0000
    ensures b < 0x8000_0000
    ensures Twice(b) < 0x8000_0000
    ensures Twice(Twice(b)) < 0x8000_0000
    ensures Twice(Twice(Twice(b))) < 0x8000_0000
    ensures Twice(Twice(Twice(Twice(b)))) < 0x8000_0000
    ensures Twice(Twice(Twice(Twice(Twice(b))))) < 0x8000_0000
    ensures Twice(Twice(Twice(Twice(Twice(Twice(b)))))) < 0x8000_0000
    ensures Twice(Twice(Twice(Twice(Twice(Twice(Twice(b))))))) < 0x8000_0000
  {
  }

  lemma EightOfUp(p: Word, b: Word)
    requires b < 0x100_0000
    ensures Eight(p, Up(b)) == b
  {
    hide Up, Half, Odd, Xor, Twice;
    UpIs(b);
    TwiceBounds(b);
    HalfOfTwice(b);
    HalfOfTwice(Twice(b));
    HalfOfTwice(Twice(Twice(b)));
    HalfOfTwice(Twice(Twice(Twice(b))));
    HalfOfTwice(Twice(Twice(Twice(Twice(b)))));
    HalfOfTwice(Twice(Twice(Twice(Twice(Twice(b))))));
    HalfOfTwice(Twice(Twice(Twice(Twice(Twice(Twice(b)))))));
    HalfOfTwice(Twice(Twice(Twice(Twice(Twice(Twice(Twice(b))))))));
  }

  lemma ByteXorLess(a: Word, b: Word)
    requires a < 0x100 && b < 0x100
    ensures a ^ b < 0x100
  {
  }

  // ----- division loses nothing when the polynomial's top bit is set

  lemma HalfAndOdd(x: Word, y: Word)
    requires Half(x) == Half(y) && (Odd(x) <==> Odd(y))
    ensures x == y
  {
  }

  ghost predicate High(top: Word, x: Word) { x >= top }

  /** Whether the polynomial was subtracted shows in the top bit. */
  ghost predicate Shows(p: Word, top: Word, x: Word) {
    !High(top, Half(x)) && High(top, Xor(Half(x), p))
  }

  lemma Shows32(x: Word)
    ensures Shows(0xEDB88320, 0x8000_0000, x)
  {
  }

  lemma Shows16(x: Word)
    requires x < 0x1_0000
    ensures Shows(0x8408, 0x8000, x)
  {
  }

  lemma ShiftInjective(p: Word, top: Word, x: Word, y: Word)
    requires Shows(p, top, x) && Shows(p, top, y)
    requires Shift(p, x) == Shift(p, y)
    ensures x == y
  {
    hide Xor, Half, Odd, High;
    XorCancels(Half(x), p);
    XorCancels(Half(y), p);
    if Odd(x) == Odd(y) {
      HalfAndOdd(x, y);
    }
  }

  lemma Narrow16(x: Word)
    requires x < 0x1_0000
    ensures Half(x) < 0x1_0000 && Xor(Half(x), 0x8408) < 0x1_0000
  {
  }

  lemma ShiftNarrow16(x: Word)
    requires x < 0x1_0000
    ensures Shift(0x8408, x) < 0x1_0000
  {
    hide Xor, Half, Odd;
    Narrow16(x);
  }
}
