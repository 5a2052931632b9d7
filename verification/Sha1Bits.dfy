/** SHA-1 on bit vectors: the round and the schedule of section 6.1.2 of FIPS 180-4 with literal rotations, proved to be
    those of Fips180; and the digest of the standard's one-block example, the message "abc". */
module Sha1Bits {
  import opened Fips180
  import opened HashStream
  import opened HashBits
  import Sha1

  datatype Regs = Regs(a: Bits, b: Bits, c: Bits, d: Bits, e: Bits)

  function Words(r: Regs): State160 {
    State160(Val(r.a), Val(r.b), Val(r.c), Val(r.d), Val(r.e))
  }

  // ----- the functions, bit by bit

  function Left1(x: Bits): Bits { (x << 1) | (x >> 31) }
  function Left5(x: Bits): Bits { (x << 5) | (x >> 27) }
  function Left30(x: Bits): Bits { (x << 30) | (x >> 2) }
  function Differ(x: Bits, y: Bits, z: Bits, u: Bits): Bits { (x ^ y) ^ (z ^ u) }

  /** In turn: the bit of y or of z as that of x is 1 or 0, an odd number of ones, at least two ones, an odd number. */
  function Mix(t: nat, x: Bits, y: Bits, z: Bits): Bits {
    if t < 20 then Choose(x, y, z)
    else if 40 <= t < 60 then Vote(x, y, z)
    else x ^ y ^ z
  }

  function Constant(t: nat): Bits {
    if t < 20 then 0x5a827999 else if t < 40 then 0x6ed9eba1 else if t < 60 then 0x8f1bbcdc else 0xca62c1d6
  }

  lemma XorBits(x: Bits, y: Bits, z: Bits, u: Bits)
    ensures x ^ y ^ z ^ u == (x ^ y) ^ (z ^ u)
  {
  }

  lemma MixIsF(t: nat, x: Bits, y: Bits, z: Bits)
    ensures F160(t, x, y, z) == Mix(t, x, y, z)
  {
    hide Ch, Maj, Choose, Vote;
    ChooseIsCh(x, y, z);
    VoteIsMaj(x, y, z);
  }

  lemma Functions(t: nat, x: Bits, y: Bits, z: Bits)
    ensures STANDARD160.f(t, Val(x), Val(y), Val(z)) == Val(Mix(t, x, y, z))
  {
    hide F160, Mix;
    MixIsF(t, x, y, z);
    Back(x);
    Back(y);
    Back(z);
  }

  lemma SameRotations(x: Bits)
    ensures Rotl1(x) == Left1(x) && Rotl5(x) == Left5(x) && Rotl30(x) == Left30(x)
  {
  }

  lemma Rotations(x: Bits)
    ensures STANDARD160.rotl1(Val(x)) == Val(Left1(x))
    ensures STANDARD160.rotl5(Val(x)) == Val(Left5(x))
    ensures STANDARD160.rotl30(Val(x)) == Val(Left30(x))
  {
    hide Rotl1, Rotl5, Rotl30, Left1, Left5, Left30;
    SameRotations(x);
    Back(x);
  }

  lemma Differs(x: Bits, y: Bits, z: Bits, u: Bits)
    ensures STANDARD160.xor4(Val(x), Val(y), Val(z), Val(u)) == Val(Differ(x, y, z, u))
  {
    hide Xor4, Differ;
    XorIsDiffer(x, y, z, u);
    Back(x);
    Back(y);
    Back(z);
    Back(u);
  }

  lemma XorIsDiffer(x: Bits, y: Bits, z: Bits, u: Bits)
    ensures Xor4(x, y, z, u) == Differ(x, y, z, u)
  {
    XorBits(x, y, z, u);
  }

  lemma Constants(t: nat)
    ensures K160(t) == Val(Constant(t))
  {
  }

  // ----- the round

  function NewA(t: nat, r: Regs, w: Bits): Bits {
    Plus(Plus(Plus(Plus(Left5(r.a), Mix(t, r.b, r.c, r.d)), r.e), Constant(t)), w)
  }

  /** Step 3 of section 6.1.2. */
  function Round(t: nat, r: Regs, w: Bits): Regs {
    Regs(NewA(t, r, w), r.a, Left30(r.b), r.c, r.d)
  }

  /** The standard's round is this one. */
  lemma RoundOnBits(t: nat, r: Regs, w: Bits)
    ensures Round160(STANDARD160, Words(r), t, Val(w)) == Words(Round(t, r, w))
  {
    hide Sum, Val, Plus, STANDARD160, K160, Constant, Left1, Left5, Left30, Mix;
    Rotations(r.a);
    Rotations(r.b);
    Functions(t, r.b, r.c, r.d);
    Constants(t);
    var s, f, k := Left5(r.a), Mix(t, r.b, r.c, r.d), Constant(t);
    Small(Val(s));
    AddsOn(Val(s), s, f);
    AddsOn(Val(s) + Val(f), Plus(s, f), r.e);
    AddsOn(Val(s) + Val(f) + Val(r.e), Plus(Plus(s, f), r.e), k);
    AddsOn(Val(s) + Val(f) + Val(r.e) + Val(k), Plus(Plus(Plus(s, f), r.e), k), w);
  }

  // ----- the schedule

  /** A later word of the schedule, from those 3, 8, 14 and 16 places before it. */
  function Later(x3: Bits, x8: Bits, x14: Bits, x16: Bits): Bits {
    Left1(Differ(x3, x8, x14, x16))
  }

  /** The standard's schedule goes on like this. */
  lemma ScheduleOnBits(x3: Bits, x8: Bits, x14: Bits, x16: Bits)
    ensures STANDARD160.rotl1(STANDARD160.xor4(Val(x3), Val(x8), Val(x14), Val(x16))) == Val(Later(x3, x8, x14, x16))
  {
    hide Val, STANDARD160, Left1, Left5, Left30, Differ;
    Differs(x3, x8, x14, x16);
    Rotations(Differ(x3, x8, x14, x16));
  }

  // ----- the message "abc"

  ghost predicate Follows(w: seq<Word>, t: nat)
    requires 16 <= t < |w|
  {
    w[t] == STANDARD160.rotl1(STANDARD160.xor4(w[t - 3], w[t - 8], w[t - 14], w[t - 16]))
  }

  /** The schedule of the example's block. */
  ghost predicate IsAbc(w: seq<Word>) {
    && |w| == 80 && w[0] == 0x61626380 && w[15] == 0x18 && (forall t :: 1 <= t < 15 ==> w[t] == 0)
    && forall t :: 16 <= t < 80 ==> Follows(w, t)
  }

  lemma AbcIs()
    ensures |Pad(ABC)| == 64 && IsAbc(Schedule160(STANDARD160, Pad(ABC)))
  {
    hide WordAt, STANDARD160, Pad;
    AbcBlock();
    var w := Schedule160(STANDARD160, Pad(ABC));
    forall t | 16 <= t < 80
      ensures Follows(w, t)
    {
      Sha1.NextWord(STANDARD160, Pad(ABC), t);
    }
  }

  lemma AbcLater(w: seq<Word>, t: nat, x3: Bits, x8: Bits, x14: Bits, x16: Bits, x: Bits)
    requires IsAbc(w) && 16 <= t < 80 && Later(x3, x8, x14, x16) == x
    requires w[t - 3] == Val(x3) && w[t - 8] == Val(x8) && w[t - 14] == Val(x14) && w[t - 16] == Val(x16)
    ensures w[t] == Val(x)
  {
    hide Later, STANDARD160;
    assert Follows(w, t);
    ScheduleOnBits(x3, x8, x14, x16);
  }

  lemma AbcWords2(w: seq<Word>)
    requires IsAbc(w)
    ensures w[16] == 0xc2c4c700 && w[17] == 0x00000000
    ensures w[18] == 0x00000030 && w[19] == 0x85898e01
    ensures w[20] == 0x00000000 && w[21] == 0x00000060
    ensures w[22] == 0x0b131c03 && w[23] == 0x00000030
  {
    hide STANDARD160;
    AbcLater(w, 16, 0x00000000, 0x00000000, 0x00000000, 0x61626380, 0xc2c4c700);
    AbcLater(w, 17, 0x00000000, 0x00000000, 0x00000000, 0x00000000, 0x00000000);
    AbcLater(w, 18, 0x00000018, 0x00000000, 0x00000000, 0x00000000, 0x00000030);
    AbcLater(w, 19, 0xc2c4c700, 0x00000000, 0x00000000, 0x00000000, 0x85898e01);
    AbcLater(w, 20, 0x00000000, 0x00000000, 0x00000000, 0x00000000, 0x00000000);
    AbcLater(w, 21, 0x00000030, 0x00000000, 0x00000000, 0x00000000, 0x00000060);
    AbcLater(w, 22, 0x85898e01, 0x00000000, 0x00000000, 0x00000000, 0x0b131c03);
    AbcLater(w, 23, 0x00000000, 0x00000018, 0x00000000, 0x00000000, 0x00000030);
  }

  lemma AbcWords3(w: seq<Word>)
    requires IsAbc(w)
    ensures w[24] == 0x85898ec1 && w[25] == 0x16263806
    ensures w[26] == 0x00000000 && w[27] == 0x00000180
    ensures w[28] == 0x2c4c700c && w[29] == 0x000000f0
    ensures w[30] == 0x93afb507 && w[31] == 0x5898e048
  {
    hide STANDARD160;
    AbcWords2(w);
    AbcLater(w, 24, 0x00000060, 0xc2c4c700, 0x00000000, 0x00000000, 0x85898ec1);
    AbcLater(w, 25, 0x0b131c03, 0x00000000, 0x00000000, 0x00000000, 0x16263806);
    AbcLater(w, 26, 0x00000030, 0x00000030, 0x00000000, 0x00000000, 0x00000000);
    AbcLater(w, 27, 0x85898ec1, 0x85898e01, 0x00000000, 0x00000000, 0x00000180);
    AbcLater(w, 28, 0x16263806, 0x00000000, 0x00000000, 0x00000000, 0x2c4c700c);
    AbcLater(w, 29, 0x00000000, 0x00000060, 0x00000018, 0x00000000, 0x000000f0);
    AbcLater(w, 30, 0x00000180, 0x0b131c03, 0xc2c4c700, 0x00000000, 0x93afb507);
    AbcLater(w, 31, 0x2c4c700c, 0x00000030, 0x00000000, 0x00000018, 0x5898e048);
  }

  lemma AbcWords4(w: seq<Word>)
    requires IsAbc(w)
    ensures w[32] == 0x8e9a9202 && w[33] == 0x00000600
    ensures w[34] == 0xb131c0f0 && w[35] == 0x16263bc6
    ensures w[36] == 0x4ebed41e && w[37] == 0x626380a1
    ensures w[38] == 0x16263806 && w[39] == 0x000018c0
  {
    hide STANDARD160;
    AbcWords2(w);
    AbcWords3(w);
    AbcLater(w, 32, 0x000000f0, 0x85898ec1, 0x00000030, 0xc2c4c700, 0x8e9a9202);
    AbcLater(w, 33, 0x93afb507, 0x16263806, 0x85898e01, 0x00000000, 0x00000600);
    AbcLater(w, 34, 0x5898e048, 0x00000000, 0x00000000, 0x00000030, 0xb131c0f0);
    AbcLater(w, 35, 0x8e9a9202, 0x00000180, 0x00000060, 0x85898e01, 0x16263bc6);
    AbcLater(w, 36, 0x00000600, 0x2c4c700c, 0x0b131c03, 0x00000000, 0x4ebed41e);
    AbcLater(w, 37, 0xb131c0f0, 0x000000f0, 0x00000030, 0x00000060, 0x626380a1);
    AbcLater(w, 38, 0x16263bc6, 0x93afb507, 0x85898ec1, 0x0b131c03, 0x16263806);
    AbcLater(w, 39, 0x4ebed41e, 0x5898e048, 0x16263806, 0x00000030, 0x000018c0);
  }

  lemma AbcWords5(w: seq<Word>)
    requires IsAbc(w)
    ensures w[40] == 0xd2e138c4 && w[41] == 0x00000f00
    ensures w[42] == 0x3afb5079 && w[43] == 0x898e04e5
    ensures w[44] == 0xe2ba3c2b && w[45] == 0x000060c0
    ensures w[46] == 0x053a37cd && w[47] == 0x74458547
  {
    hide STANDARD160;
    AbcWords3(w);
    AbcWords4(w);
    AbcLater(w, 40, 0x626380a1, 0x8e9a9202, 0x00000000, 0x85898ec1, 0xd2e138c4);
    AbcLater(w, 41, 0x16263806, 0x00000600, 0x00000180, 0x16263806, 0x00000f00);
    AbcLater(w, 42, 0x000018c0, 0xb131c0f0, 0x2c4c700c, 0x00000000, 0x3afb5079);
    AbcLater(w, 43, 0xd2e138c4, 0x16263bc6, 0x000000f0, 0x00000180, 0x898e04e5);
    AbcLater(w, 44, 0x00000f00, 0x4ebed41e, 0x93afb507, 0x2c4c700c, 0xe2ba3c2b);
    AbcLater(w, 45, 0x3afb5079, 0x626380a1, 0x5898e048, 0x000000f0, 0x000060c0);
    AbcLater(w, 46, 0x898e04e5, 0x16263806, 0x8e9a9202, 0x93afb507, 0x053a37cd);
    AbcLater(w, 47, 0xe2ba3c2b, 0x000018c0, 0x00000600, 0x5898e048, 0x74458547);
  }

  lemma AbcWords6(w: seq<Word>)
    requires IsAbc(w)
    ensures w[48] == 0xda9415ed && w[49] == 0x26380a16
    ensures w[50] == 0x626383a1 && w[51] == 0x4ebf54de
    ensures w[52] == 0x3835b44b && w[53] == 0x0000f600
    ensures w[54] == 0x1e84c7a3 && w[55] == 0x98e04d98
  {
    hide STANDARD160;
    AbcWords4(w);
    AbcWords5(w);
    AbcLater(w, 48, 0x000060c0, 0xd2e138c4, 0xb131c0f0, 0x8e9a9202, 0xda9415ed);
    AbcLater(w, 49, 0x053a37cd, 0x00000f00, 0x16263bc6, 0x00000600, 0x26380a16);
    AbcLater(w, 50, 0x74458547, 0x3afb5079, 0x4ebed41e, 0xb131c0f0, 0x626383a1);
    AbcLater(w, 51, 0xda9415ed, 0x898e04e5, 0x626380a1, 0x16263bc6, 0x4ebf54de);
    AbcLater(w, 52, 0x26380a16, 0xe2ba3c2b, 0x16263806, 0x4ebed41e, 0x3835b44b);
    AbcLater(w, 53, 0x626383a1, 0x000060c0, 0x000018c0, 0x626380a1, 0x0000f600);
    AbcLater(w, 54, 0x4ebf54de, 0x053a37cd, 0xd2e138c4, 0x16263806, 0x1e84c7a3);
    AbcLater(w, 55, 0x3835b44b, 0x74458547, 0x00000f00, 0x000018c0, 0x98e04d98);
  }

  lemma AbcWords7(w: seq<Word>)
    requires IsAbc(w)
    ensures w[56] == 0x651d16a0 && w[57] == 0x62658ca1
    ensures w[58] == 0x458544d6 && w[59] == 0x44584cb7
    ensures w[60] == 0x7ba06619 && w[61] == 0x6380aea2
    ensures w[62] == 0x0ae55269 && w[63] == 0x627b49a1
  {
    hide STANDARD160;
    AbcWords5(w);
    AbcWords6(w);
    AbcLater(w, 56, 0x0000f600, 0xda9415ed, 0x3afb5079, 0xd2e138c4, 0x651d16a0);
    AbcLater(w, 57, 0x1e84c7a3, 0x26380a16, 0x898e04e5, 0x00000f00, 0x62658ca1);
    AbcLater(w, 58, 0x98e04d98, 0x626383a1, 0xe2ba3c2b, 0x3afb5079, 0x458544d6);
    AbcLater(w, 59, 0x651d16a0, 0x4ebf54de, 0x000060c0, 0x898e04e5, 0x44584cb7);
    AbcLater(w, 60, 0x62658ca1, 0x3835b44b, 0x053a37cd, 0xe2ba3c2b, 0x7ba06619);
    AbcLater(w, 61, 0x458544d6, 0x0000f600, 0x74458547, 0x000060c0, 0x6380aea2);
    AbcLater(w, 62, 0x44584cb7, 0x1e84c7a3, 0xda9415ed, 0x053a37cd, 0x0ae55269);
    AbcLater(w, 63, 0x7ba06619, 0x98e04d98, 0x26380a16, 0x74458547, 0x627b49a1);
  }

  lemma AbcWords8(w: seq<Word>)
    requires IsAbc(w)
    ensures w[64] == 0x7cd45c9d && w[65] == 0x000f0000
    ensures w[66] == 0xfb50753a && w[67] == 0xec6765e8
    ensures w[68] == 0xba3c2be2 && w[69] == 0x0060c000
    ensures w[70] == 0x3a37cd05 && w[71] == 0x458546f4
  {
    hide STANDARD160;
    AbcWords6(w);
    AbcWords7(w);
    AbcLater(w, 64, 0x6380aea2, 0x651d16a0, 0x626383a1, 0xda9415ed, 0x7cd45c9d);
    AbcLater(w, 65, 0x0ae55269, 0x62658ca1, 0x4ebf54de, 0x26380a16, 0x000f0000);
    AbcLater(w, 66, 0x627b49a1, 0x458544d6, 0x3835b44b, 0x626383a1, 0xfb50753a);
    AbcLater(w, 67, 0x7cd45c9d, 0x44584cb7, 0x0000f600, 0x4ebf54de, 0xec6765e8);
    AbcLater(w, 68, 0x000f0000, 0x7ba06619, 0x1e84c7a3, 0x3835b44b, 0xba3c2be2);
    AbcLater(w, 69, 0xfb50753a, 0x6380aea2, 0x98e04d98, 0x0000f600, 0x0060c000);
    AbcLater(w, 70, 0xec6765e8, 0x0ae55269, 0x651d16a0, 0x1e84c7a3, 0x3a37cd05);
    AbcLater(w, 71, 0xba3c2be2, 0x627b49a1, 0x62658ca1, 0x98e04d98, 0x458546f4);
  }

  lemma AbcWords9(w: seq<Word>)
    requires IsAbc(w)
    ensures w[72] == 0xb8599dd6 && w[73] == 0x380a1a26
    ensures w[74] == 0x01e02203 && w[75] == 0xe7cc3456
    ensures w[76] == 0xe6e60b69 && w[77] == 0x00f60a00
    ensures w[78] == 0x5795ef4f && w[79] == 0x822e0879
  {
    hide STANDARD160;
    AbcWords7(w);
    AbcWords8(w);
    AbcLater(w, 72, 0x0060c000, 0x7cd45c9d, 0x458544d6, 0x651d16a0, 0xb8599dd6);
    AbcLater(w, 73, 0x3a37cd05, 0x000f0000, 0x44584cb7, 0x62658ca1, 0x380a1a26);
    AbcLater(w, 74, 0x458546f4, 0xfb50753a, 0x7ba06619, 0x458544d6, 0x01e02203);
    AbcLater(w, 75, 0xb8599dd6, 0xec6765e8, 0x6380aea2, 0x44584cb7, 0xe7cc3456);
    AbcLater(w, 76, 0x380a1a26, 0xba3c2be2, 0x0ae55269, 0x7ba06619, 0xe6e60b69);
    AbcLater(w, 77, 0x01e02203, 0x0060c000, 0x627b49a1, 0x6380aea2, 0x00f60a00);
    AbcLater(w, 78, 0xe7cc3456, 0x3a37cd05, 0x7cd45c9d, 0x0ae55269, 0x5795ef4f);
    AbcLater(w, 79, 0xe6e60b69, 0x458546f4, 0x000f0000, 0x627b49a1, 0x822e0879);
  }

  lemma AbcRound(w: seq<Word>, t: nat, r: Regs, x: Bits, r': Regs)
    requires |w| == 80 && t < 80 && Rounds160(STANDARD160, INITIAL160, w, t) == Words(r)
    requires w[t] == Val(x) && Round(t, r, x) == r'
    ensures Rounds160(STANDARD160, INITIAL160, w, t + 1) == Words(r')
  {
    hide Round160, Round, STANDARD160;
    RoundOnBits(t, r, x);
  }

  lemma AbcRounds0(w: seq<Word>)
    requires IsAbc(w)
    ensures Rounds160(STANDARD160, INITIAL160, w, 8)
            == Words(Regs(0x9e8c07d4, 0x993e30c1, 0x0ff1f290, 0xb3f52677, 0xf3763846))
  {
    hide Rounds160, STANDARD160;
    AbcStart(w);
    var r0 := Regs(0x67452301, 0xefcdab89, 0x98badcfe, 0x10325476, 0xc3d2e1f0);
    var r1 := Regs(0x0116fc33, 0x67452301, 0x7bf36ae2, 0x98badcfe, 0x10325476);
    AbcRound(w, 0, r0, 0x61626380, r1);
    var r2 := Regs(0x8990536d, 0x0116fc33, 0x59d148c0, 0x7bf36ae2, 0x98badcfe);
    AbcRound(w, 1, r1, 0x00000000, r2);
    var r3 := Regs(0xa1390f08, 0x8990536d, 0xc045bf0c, 0x59d148c0, 0x7bf36ae2);
    AbcRound(w, 2, r2, 0x00000000, r3);
    var r4 := Regs(0xcdd8e11b, 0xa1390f08, 0x626414db, 0xc045bf0c, 0x59d148c0);
    AbcRound(w, 3, r3, 0x00000000, r4);
    var r5 := Regs(0xcfd499de, 0xcdd8e11b, 0x284e43c2, 0x626414db, 0xc045bf0c);
    AbcRound(w, 4, r4, 0x00000000, r5);
    var r6 := Regs(0x3fc7ca40, 0xcfd499de, 0xf3763846, 0x284e43c2, 0x626414db);
    AbcRound(w, 5, r5, 0x00000000, r6);
    var r7 := Regs(0x993e30c1, 0x3fc7ca40, 0xb3f52677, 0xf3763846, 0x284e43c2);
    AbcRound(w, 6, r6, 0x00000000, r7);
    var r8 := Regs(0x9e8c07d4, 0x993e30c1, 0x0ff1f290, 0xb3f52677, 0xf3763846);
    AbcRound(w, 7, r7, 0x00000000, r8);
  }

  lemma AbcRounds1(w: seq<Word>)
    requires IsAbc(w)
    ensures Rounds160(STANDARD160, INITIAL160, w, 16)
            == Words(Regs(0x20bdd62f, 0x196bee77, 0x644a3da5, 0x1181ed99, 0x18c623f9))
  {
    hide Rounds160, STANDARD160;
    AbcRounds0(w);
    var r0 := Regs(0x9e8c07d4, 0x993e30c1, 0x0ff1f290, 0xb3f52677, 0xf3763846);
    var r1 := Regs(0x4b6ae328, 0x9e8c07d4, 0x664f8c30, 0x0ff1f290, 0xb3f52677);
    AbcRound(w, 8, r0, 0x00000000, r1);
    var r2 := Regs(0x8351f929, 0x4b6ae328, 0x27a301f5, 0x664f8c30, 0x0ff1f290);
    AbcRound(w, 9, r1, 0x00000000, r2);
    var r3 := Regs(0xfbda9e89, 0x8351f929, 0x12dab8ca, 0x27a301f5, 0x664f8c30);
    AbcRound(w, 10, r2, 0x00000000, r3);
    var r4 := Regs(0x63188fe4, 0xfbda9e89, 0x60d47e4a, 0x12dab8ca, 0x27a301f5);
    AbcRound(w, 11, r3, 0x00000000, r4);
    var r5 := Regs(0x4607b664, 0x63188fe4, 0x7ef6a7a2, 0x60d47e4a, 0x12dab8ca);
    AbcRound(w, 12, r4, 0x00000000, r5);
    var r6 := Regs(0x9128f695, 0x4607b664, 0x18c623f9, 0x7ef6a7a2, 0x60d47e4a);
    AbcRound(w, 13, r5, 0x00000000, r6);
    var r7 := Regs(0x196bee77, 0x9128f695, 0x1181ed99, 0x18c623f9, 0x7ef6a7a2);
    AbcRound(w, 14, r6, 0x00000000, r7);
    var r8 := Regs(0x20bdd62f, 0x196bee77, 0x644a3da5, 0x1181ed99, 0x18c623f9);
    AbcRound(w, 15, r7, 0x00000018, r8);
  }

  lemma AbcRounds2(w: seq<Word>)
    requires IsAbc(w)
    ensures Rounds160(STANDARD160, INITIAL160, w, 24)
            == Words(Regs(0xd541f12d, 0x21283486, 0x0ce88eff, 0x868dec32, 0x7f67875f))
  {
    hide Rounds160, STANDARD160;
    AbcWords2(w);
    AbcRounds1(w);
    var r0 := Regs(0x20bdd62f, 0x196bee77, 0x644a3da5, 0x1181ed99, 0x18c623f9);
    var r1 := Regs(0x4e925823, 0x20bdd62f, 0xc65afb9d, 0x644a3da5, 0x1181ed99);
    AbcRound(w, 16, r0, 0xc2c4c700, r1);
    var r2 := Regs(0x82aa6728, 0x4e925823, 0xc82f758b, 0xc65afb9d, 0x644a3da5);
    AbcRound(w, 17, r1, 0x00000000, r2);
    var r3 := Regs(0xdc64901d, 0x82aa6728, 0xd3a49608, 0xc82f758b, 0xc65afb9d);
    AbcRound(w, 18, r2, 0x00000030, r3);
    var r4 := Regs(0xfd9e1d7d, 0xdc64901d, 0x20aa99ca, 0xd3a49608, 0xc82f758b);
    AbcRound(w, 19, r3, 0x85898e01, r4);
    var r5 := Regs(0x1a37b0ca, 0xfd9e1d7d, 0x77192407, 0x20aa99ca, 0xd3a49608);
    AbcRound(w, 20, r4, 0x00000000, r5);
    var r6 := Regs(0x33a23bfc, 0x1a37b0ca, 0x7f67875f, 0x77192407, 0x20aa99ca);
    AbcRound(w, 21, r5, 0x00000060, r6);
    var r7 := Regs(0x21283486, 0x33a23bfc, 0x868dec32, 0x7f67875f, 0x77192407);
    AbcRound(w, 22, r6, 0x0b131c03, r7);
    var r8 := Regs(0xd541f12d, 0x21283486, 0x0ce88eff, 0x868dec32, 0x7f67875f);
    AbcRound(w, 23, r7, 0x00000030, r8);
  }

  lemma AbcRounds3(w: seq<Word>)
    requires IsAbc(w)
    ensures Rounds160(STANDARD160, INITIAL160, w, 32)
            == Words(Regs(0x3b845d33, 0x1267b407, 0x717eebd7, 0xa0dc2d4b, 0xd2aa1365))
  {
    hide Rounds160, STANDARD160;
    AbcWords3(w);
    AbcRounds2(w);
    var r0 := Regs(0xd541f12d, 0x21283486, 0x0ce88eff, 0x868dec32, 0x7f67875f);
    var r1 := Regs(0xc7567dc6, 0xd541f12d, 0x884a0d21, 0x0ce88eff, 0x868dec32);
    AbcRound(w, 24, r0, 0x85898ec1, r1);
    var r2 := Regs(0x48413ba4, 0xc7567dc6, 0x75507c4b, 0x884a0d21, 0x0ce88eff);
    AbcRound(w, 25, r1, 0x16263806, r2);
    var r3 := Regs(0xbe35fbd5, 0x48413ba4, 0xb1d59f71, 0x75507c4b, 0x884a0d21);
    AbcRound(w, 26, r2, 0x00000000, r3);
    var r4 := Regs(0x4aa84d97, 0xbe35fbd5, 0x12104ee9, 0xb1d59f71, 0x75507c4b);
    AbcRound(w, 27, r3, 0x00000180, r4);
    var r5 := Regs(0x8370b52e, 0x4aa84d97, 0x6f8d7ef5, 0x12104ee9, 0xb1d59f71);
    AbcRound(w, 28, r4, 0x2c4c700c, r5);
    var r6 := Regs(0xc5fbaf5d, 0x8370b52e, 0xd2aa1365, 0x6f8d7ef5, 0x12104ee9);
    AbcRound(w, 29, r5, 0x000000f0, r6);
    var r7 := Regs(0x1267b407, 0xc5fbaf5d, 0xa0dc2d4b, 0xd2aa1365, 0x6f8d7ef5);
    AbcRound(w, 30, r6, 0x93afb507, r7);
    var r8 := Regs(0x3b845d33, 0x1267b407, 0x717eebd7, 0xa0dc2d4b, 0xd2aa1365);
    AbcRound(w, 31, r7, 0x5898e048, r8);
  }

  lemma AbcRounds4(w: seq<Word>)
    requires IsAbc(w)
    ensures Rounds160(STANDARD160, INITIAL160, w, 40)
            == Words(Regs(0x32de1cba, 0x4c986405, 0xf718e5cf, 0x03d447f6, 0xf72eec32))
  {
    hide Rounds160, STANDARD160;
    AbcWords4(w);
    AbcRounds3(w);
    var r0 := Regs(0x3b845d33, 0x1267b407, 0x717eebd7, 0xa0dc2d4b, 0xd2aa1365);
    var r1 := Regs(0x046faa0a, 0x3b845d33, 0xc499ed01, 0x717eebd7, 0xa0dc2d4b);
    AbcRound(w, 32, r0, 0x8e9a9202, r1);
    var r2 := Regs(0x2c0ebc11, 0x046faa0a, 0xcee1174c, 0xc499ed01, 0x717eebd7);
    AbcRound(w, 33, r1, 0x00000600, r2);
    var r3 := Regs(0x21796ad4, 0x2c0ebc11, 0x811bea82, 0xcee1174c, 0xc499ed01);
    AbcRound(w, 34, r2, 0xb131c0f0, r3);
    var r4 := Regs(0xdcbbb0cb, 0x21796ad4, 0x4b03af04, 0x811bea82, 0xcee1174c);
    AbcRound(w, 35, r3, 0x16263bc6, r4);
    var r5 := Regs(0x0f511fd8, 0xdcbbb0cb, 0x085e5ab5, 0x4b03af04, 0x811bea82);
    AbcRound(w, 36, r4, 0x4ebed41e, r5);
    var r6 := Regs(0xdc63973f, 0x0f511fd8, 0xf72eec32, 0x085e5ab5, 0x4b03af04);
    AbcRound(w, 37, r5, 0x626380a1, r6);
    var r7 := Regs(0x4c986405, 0xdc63973f, 0x03d447f6, 0xf72eec32, 0x085e5ab5);
    AbcRound(w, 38, r6, 0x16263806, r7);
    var r8 := Regs(0x32de1cba, 0x4c986405, 0xf718e5cf, 0x03d447f6, 0xf72eec32);
    AbcRound(w, 39, r7, 0x000018c0, r8);
  }

  lemma AbcRounds5(w: seq<Word>)
    requires IsAbc(w)
    ensures Rounds160(STANDARD160, INITIAL160, w, 48)
            == Words(Regs(0xbead02ca, 0xa01b846c, 0x8714787c, 0x503ca382, 0xfb86c6ab))
  {
    hide Rounds160, STANDARD160;
    AbcWords5(w);
    AbcRounds4(w);
    var r0 := Regs(0x32de1cba, 0x4c986405, 0xf718e5cf, 0x03d447f6, 0xf72eec32);
    var r1 := Regs(0xfc87dedf, 0x32de1cba, 0x53261901, 0xf718e5cf, 0x03d447f6);
    AbcRound(w, 40, r0, 0xd2e138c4, r1);
    var r2 := Regs(0x970a0d5c, 0xfc87dedf, 0x8cb7872e, 0x53261901, 0xf718e5cf);
    AbcRound(w, 41, r1, 0x00000f00, r2);
    var r3 := Regs(0x7f193dc5, 0x970a0d5c, 0xff21f7b7, 0x8cb7872e, 0x53261901);
    AbcRound(w, 42, r2, 0x3afb5079, r3);
    var r4 := Regs(0xee1b1aaf, 0x7f193dc5, 0x25c28357, 0xff21f7b7, 0x8cb7872e);
    AbcRound(w, 43, r3, 0x898e04e5, r4);
    var r5 := Regs(0x40f28e09, 0xee1b1aaf, 0x5fc64f71, 0x25c28357, 0xff21f7b7);
    AbcRound(w, 44, r4, 0xe2ba3c2b, r5);
    var r6 := Regs(0x1c51e1f2, 0x40f28e09, 0xfb86c6ab, 0x5fc64f71, 0x25c28357);
    AbcRound(w, 45, r5, 0x000060c0, r6);
    var r7 := Regs(0xa01b846c, 0x1c51e1f2, 0x503ca382, 0xfb86c6ab, 0x5fc64f71);
    AbcRound(w, 46, r6, 0x053a37cd, r7);
    var r8 := Regs(0xbead02ca, 0xa01b846c, 0x8714787c, 0x503ca382, 0xfb86c6ab);
    AbcRound(w, 47, r7, 0x74458547, r8);
  }

  lemma AbcRounds6(w: seq<Word>)
    requires IsAbc(w)
    ensures Rounds160(STANDARD160, INITIAL160, w, 56)
            == Words(Regs(0x5e6456af, 0x7b71f76d, 0x09fa7c76, 0x792410db, 0x8e11eb59))
  {
    hide Rounds160, STANDARD160;
    AbcWords6(w);
    AbcRounds5(w);
    var r0 := Regs(0xbead02ca, 0xa01b846c, 0x8714787c, 0x503ca382, 0xfb86c6ab);
    var r1 := Regs(0xbaf39337, 0xbead02ca, 0x2806e11b, 0x8714787c, 0x503ca382);
    AbcRound(w, 48, r0, 0xda9415ed, r1);
    var r2 := Regs(0x120731c5, 0xbaf39337, 0xafab40b2, 0x2806e11b, 0x8714787c);
    AbcRound(w, 49, r1, 0x26380a16, r2);
    var r3 := Regs(0x641db2ce, 0x120731c5, 0xeebce4cd, 0xafab40b2, 0x2806e11b);
    AbcRound(w, 50, r2, 0x626383a1, r3);
    var r4 := Regs(0x3847ad66, 0x641db2ce, 0x4481cc71, 0xeebce4cd, 0xafab40b2);
    AbcRound(w, 51, r3, 0x4ebf54de, r4);
    var r5 := Regs(0xe490436d, 0x3847ad66, 0x99076cb3, 0x4481cc71, 0xeebce4cd);
    AbcRound(w, 52, r4, 0x3835b44b, r5);
    var r6 := Regs(0x27e9f1d8, 0xe490436d, 0x8e11eb59, 0x99076cb3, 0x4481cc71);
    AbcRound(w, 53, r5, 0x0000f600, r6);
    var r7 := Regs(0x7b71f76d, 0x27e9f1d8, 0x792410db, 0x8e11eb59, 0x99076cb3);
    AbcRound(w, 54, r6, 0x1e84c7a3, r7);
    var r8 := Regs(0x5e6456af, 0x7b71f76d, 0x09fa7c76, 0x792410db, 0x8e11eb59);
    AbcRound(w, 55, r7, 0x98e04d98, r8);
  }

  lemma AbcRounds7(w: seq<Word>)
    requires IsAbc(w)
    ensures Rounds160(STANDARD160, INITIAL160, w, 64)
            == Words(Regs(0x6b61c9e1, 0xb66c020b, 0x9523272c, 0xf5d5b051, 0x8fd4b796))
  {
    hide Rounds160, STANDARD160;
    AbcWords7(w);
    AbcRounds6(w);
    var r0 := Regs(0x5e6456af, 0x7b71f76d, 0x09fa7c76, 0x792410db, 0x8e11eb59);
    var r1 := Regs(0xc846093f, 0x5e6456af, 0x5edc7ddb, 0x09fa7c76, 0x792410db);
    AbcRound(w, 56, r0, 0x651d16a0, r1);
    var r2 := Regs(0xd262ff50, 0xc846093f, 0xd79915ab, 0x5edc7ddb, 0x09fa7c76);
    AbcRound(w, 57, r1, 0x62658ca1, r2);
    var r3 := Regs(0x09d785fd, 0xd262ff50, 0xf211824f, 0xd79915ab, 0x5edc7ddb);
    AbcRound(w, 58, r2, 0x458544d6, r3);
    var r4 := Regs(0x3f52de5a, 0x09d785fd, 0x3498bfd4, 0xf211824f, 0xd79915ab);
    AbcRound(w, 59, r3, 0x44584cb7, r4);
    var r5 := Regs(0xd756c147, 0x3f52de5a, 0x4275e17f, 0x3498bfd4, 0xf211824f);
    AbcRound(w, 60, r4, 0x7ba06619, r5);
    var r6 := Regs(0x548c9cb2, 0xd756c147, 0x8fd4b796, 0x4275e17f, 0x3498bfd4);
    AbcRound(w, 61, r5, 0x6380aea2, r6);
    var r7 := Regs(0xb66c020b, 0x548c9cb2, 0xf5d5b051, 0x8fd4b796, 0x4275e17f);
    AbcRound(w, 62, r6, 0x0ae55269, r7);
    var r8 := Regs(0x6b61c9e1, 0xb66c020b, 0x9523272c, 0xf5d5b051, 0x8fd4b796);
    AbcRound(w, 63, r7, 0x627b49a1, r8);
  }

  lemma AbcRounds8(w: seq<Word>)
    requires IsAbc(w)
    ensures Rounds160(STANDARD160, INITIAL160, w, 72)
            == Words(Regs(0x39859de7, 0xc199f8c7, 0x8fc96230, 0x125c24f0, 0xde37534a))
  {
    hide Rounds160, STANDARD160;
    AbcWords8(w);
    AbcRounds7(w);
    var r0 := Regs(0x6b61c9e1, 0xb66c020b, 0x9523272c, 0xf5d5b051, 0x8fd4b796);
    var r1 := Regs(0x19dfa7ac, 0x6b61c9e1, 0xed9b0082, 0x9523272c, 0xf5d5b051);
    AbcRound(w, 64, r0, 0x7cd45c9d, r1);
    var r2 := Regs(0x101655f9, 0x19dfa7ac, 0x5ad87278, 0xed9b0082, 0x9523272c);
    AbcRound(w, 65, r1, 0x000f0000, r2);
    var r3 := Regs(0x0c3df2b4, 0x101655f9, 0x0677e9eb, 0x5ad87278, 0xed9b0082);
    AbcRound(w, 66, r2, 0xfb50753a, r3);
    var r4 := Regs(0x78dd4d2b, 0x0c3df2b4, 0x4405957e, 0x0677e9eb, 0x5ad87278);
    AbcRound(w, 67, r3, 0xec6765e8, r4);
    var r5 := Regs(0x497093c0, 0x78dd4d2b, 0x030f7cad, 0x4405957e, 0x0677e9eb);
    AbcRound(w, 68, r4, 0xba3c2be2, r5);
    var r6 := Regs(0x3f2588c2, 0x497093c0, 0xde37534a, 0x030f7cad, 0x4405957e);
    AbcRound(w, 69, r5, 0x0060c000, r6);
    var r7 := Regs(0xc199f8c7, 0x3f2588c2, 0x125c24f0, 0xde37534a, 0x030f7cad);
    AbcRound(w, 70, r6, 0x3a37cd05, r7);
    var r8 := Regs(0x39859de7, 0xc199f8c7, 0x8fc96230, 0x125c24f0, 0xde37534a);
    AbcRound(w, 71, r7, 0x458546f4, r8);
  }

  lemma AbcRounds9(w: seq<Word>)
    requires IsAbc(w)
    ensures Rounds160(STANDARD160, INITIAL160, w, 80)
            == Words(Regs(0x42541b35, 0x5738d5e1, 0x21834873, 0x681e6df6, 0xd8fdf6ad))
  {
    hide Rounds160, STANDARD160;
    AbcWords9(w);
    AbcRounds8(w);
    var r0 := Regs(0x39859de7, 0xc199f8c7, 0x8fc96230, 0x125c24f0, 0xde37534a);
    var r1 := Regs(0xedb42de4, 0x39859de7, 0xf0667e31, 0x8fc96230, 0x125c24f0);
    AbcRound(w, 72, r0, 0xb8599dd6, r1);
    var r2 := Regs(0x11793f6f, 0xedb42de4, 0xce616779, 0xf0667e31, 0x8fc96230);
    AbcRound(w, 73, r1, 0x380a1a26, r2);
    var r3 := Regs(0x5ee76897, 0x11793f6f, 0x3b6d0b79, 0xce616779, 0xf0667e31);
    AbcRound(w, 74, r2, 0x01e02203, r3);
    var r4 := Regs(0x63f7dab7, 0x5ee76897, 0xc45e4fdb, 0x3b6d0b79, 0xce616779);
    AbcRound(w, 75, r3, 0xe7cc3456, r4);
    var r5 := Regs(0xa079b7d9, 0x63f7dab7, 0xd7b9da25, 0xc45e4fdb, 0x3b6d0b79);
    AbcRound(w, 76, r4, 0xe6e60b69, r5);
    var r6 := Regs(0x860d21cc, 0xa079b7d9, 0xd8fdf6ad, 0xd7b9da25, 0xc45e4fdb);
    AbcRound(w, 77, r5, 0x00f60a00, r6);
    var r7 := Regs(0x5738d5e1, 0x860d21cc, 0x681e6df6, 0xd8fdf6ad, 0xd7b9da25);
    AbcRound(w, 78, r6, 0x5795ef4f, r7);
    var r8 := Regs(0x42541b35, 0x5738d5e1, 0x21834873, 0x681e6df6, 0xd8fdf6ad);
    AbcRound(w, 79, r7, 0x822e0879, r8);
  }

  lemma AbcStart(w: seq<Word>)
    requires |w| == 80
    ensures Rounds160(STANDARD160, INITIAL160, w, 0)
            == Words(Regs(0x67452301, 0xefcdab89, 0x98badcfe, 0x10325476, 0xc3d2e1f0))
  {
  }

  lemma AbcSum(s: State160)
    requires s == State160(0x42541b35, 0x5738d5e1, 0x21834873, 0x681e6df6, 0xd8fdf6ad)
    ensures Add160(INITIAL160, s) == State160(0xa9993e36, 0x4706816a, 0xba3e2571, 0x7850c26c, 0x9cd0d89d)
  {
  }

  lemma AbcBytes0()
    ensures WordBytes(0xa9993e36) == [0xa9, 0x99, 0x3e, 0x36]
  {
  }

  lemma AbcBytes1()
    ensures WordBytes(0x4706816a) == [0x47, 0x06, 0x81, 0x6a]
  {
  }

  lemma AbcBytes2()
    ensures WordBytes(0xba3e2571) == [0xba, 0x3e, 0x25, 0x71]
  {
  }

  lemma AbcBytes3()
    ensures WordBytes(0x7850c26c) == [0x78, 0x50, 0xc2, 0x6c]
  {
  }

  lemma AbcBytes4()
    ensures WordBytes(0x9cd0d89d) == [0x9c, 0xd0, 0xd8, 0x9d]
  {
  }

  lemma AbcBytes()
    ensures Digest160(State160(0xa9993e36, 0x4706816a, 0xba3e2571, 0x7850c26c, 0x9cd0d89d)) == [
      0xa9, 0x99, 0x3e, 0x36, 0x47, 0x06, 0x81, 0x6a, 0xba, 0x3e,
      0x25, 0x71, 0x78, 0x50, 0xc2, 0x6c, 0x9c, 0xd0, 0xd8, 0x9d]
  {
    hide WordBytes;
    AbcBytes0();
    AbcBytes1();
    AbcBytes2();
    AbcBytes3();
    AbcBytes4();
  }

  /** The digest the standard's examples give for "abc". */
  lemma AbcDigest()
    ensures Hash160(STANDARD160, ABC) == [
      0xa9, 0x99, 0x3e, 0x36, 0x47, 0x06, 0x81, 0x6a, 0xba, 0x3e,
      0x25, 0x71, 0x78, 0x50, 0xc2, 0x6c, 0x9c, 0xd0, 0xd8, 0x9d]
  {
    hide Rounds160, Schedule160, STANDARD160, Digest160;
    AbcIs();
    var w := Schedule160(STANDARD160, Pad(ABC));
    AbcRounds9(w);
    var s := State160(0x42541b35, 0x5738d5e1, 0x21834873, 0x681e6df6, 0xd8fdf6ad);
    assert Rounds160(STANDARD160, INITIAL160, w, 80) == s;
    AbcSum(s);
    OneBlock(Compress160(STANDARD160), INITIAL160, Pad(ABC));
    AbcBytes();
  }
}
