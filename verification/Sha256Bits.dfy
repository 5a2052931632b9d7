/** SHA-256 on bit vectors: the round and the schedule of section 6.2.2 of FIPS 180-4 with literal rotations, proved to
    be those of Fips180; and the digest of the standard's one-block example, the message "abc". */
module Sha256Bits {
  import opened Fips180
  import opened HashStream
  import opened HashBits
  import Sha256

  datatype Regs = Regs(a: Bits, b: Bits, c: Bits, d: Bits, e: Bits, f: Bits, g: Bits, h: Bits)

  function Words(r: Regs): State256 {
    State256(Val(r.a), Val(r.b), Val(r.c), Val(r.d), Val(r.e), Val(r.f), Val(r.g), Val(r.h))
  }

  // ----- the functions, bit by bit

  function BigSigma0(x: Bits): Bits { ((x >> 2) | (x << 30)) ^ ((x >> 13) | (x << 19)) ^ ((x >> 22) | (x << 10)) }
  function BigSigma1(x: Bits): Bits { ((x >> 6) | (x << 26)) ^ ((x >> 11) | (x << 21)) ^ ((x >> 25) | (x << 7)) }
  function SmallSigma0(x: Bits): Bits { ((x >> 7) | (x << 25)) ^ ((x >> 18) | (x << 14)) ^ (x >> 3) }
  function SmallSigma1(x: Bits): Bits { ((x >> 17) | (x << 15)) ^ ((x >> 19) | (x << 13)) ^ (x >> 10) }

  lemma SameSigmas(x: Bits)
    ensures UpperSigma0(x) == BigSigma0(x) && UpperSigma1(x) == BigSigma1(x)
    ensures LowerSigma0(x) == SmallSigma0(x) && LowerSigma1(x) == SmallSigma1(x)
  {
  }

  lemma Functions(x: Bits, y: Bits, z: Bits)
    ensures STANDARD256.ch(Val(x), Val(y), Val(z)) == Val(Choose(x, y, z))
    ensures STANDARD256.maj(Val(x), Val(y), Val(z)) == Val(Vote(x, y, z))
  {
    hide Ch, Maj, Choose, Vote;
    ChooseIsCh(x, y, z);
    VoteIsMaj(x, y, z);
    Back(x);
    Back(y);
    Back(z);
  }

  lemma Sigmas(x: Bits)
    ensures STANDARD256.bigSigma0(Val(x)) == Val(BigSigma0(x))
    ensures STANDARD256.bigSigma1(Val(x)) == Val(BigSigma1(x))
    ensures STANDARD256.smallSigma0(Val(x)) == Val(SmallSigma0(x))
    ensures STANDARD256.smallSigma1(Val(x)) == Val(SmallSigma1(x))
  {
    hide UpperSigma0, UpperSigma1, LowerSigma0, LowerSigma1, BigSigma0, BigSigma1, SmallSigma0, SmallSigma1;
    SameSigmas(x);
    Back(x);
  }

  // ----- the round

  function T1(r: Regs, k: Bits, w: Bits): Bits {
    Plus(Plus(Plus(Plus(r.h, BigSigma1(r.e)), Choose(r.e, r.f, r.g)), k), w)
  }

  function T2(r: Regs): Bits {
    Plus(BigSigma0(r.a), Vote(r.a, r.b, r.c))
  }

  /** Step 3 of section 6.2.2. */
  function Round(r: Regs, k: Bits, w: Bits): Regs {
    Regs(Plus(T1(r, k, w), T2(r)), r.a, r.b, r.c, Plus(r.d, T1(r, k, w)), r.e, r.f, r.g)
  }

  /** The standard's round is this one. */
  lemma RoundOnBits(r: Regs, k: Bits, w: Bits)
    ensures Round256(STANDARD256, Words(r), Val(k), Val(w)) == Words(Round(r, k, w))
  {
    hide Sum, Val, Plus, STANDARD256, BigSigma0, BigSigma1, SmallSigma0, SmallSigma1, Choose, Vote;
    Sigmas(r.a);
    Sigmas(r.e);
    Functions(r.e, r.f, r.g);
    Functions(r.a, r.b, r.c);
    var s, c := BigSigma1(r.e), Choose(r.e, r.f, r.g);
    Small(Val(r.h));
    AddsOn(Val(r.h), r.h, s);
    AddsOn(Val(r.h) + Val(s), Plus(r.h, s), c);
    AddsOn(Val(r.h) + Val(s) + Val(c), Plus(Plus(r.h, s), c), k);
    AddsOn(Val(r.h) + Val(s) + Val(c) + Val(k), Plus(Plus(Plus(r.h, s), c), k), w);
    Adds(BigSigma0(r.a), Vote(r.a, r.b, r.c));
    Adds(T1(r, k, w), T2(r));
    Adds(r.d, T1(r, k, w));
  }

  // ----- the schedule

  /** A later word of the schedule, from those 2, 7, 15 and 16 places before it. */
  function Later(x2: Bits, x7: Bits, x15: Bits, x16: Bits): Bits {
    Plus(Plus(Plus(SmallSigma1(x2), x7), SmallSigma0(x15)), x16)
  }

  /** The standard's schedule goes on like this. */
  lemma ScheduleOnBits(x2: Bits, x7: Bits, x15: Bits, x16: Bits)
    ensures Sum(STANDARD256.smallSigma1(Val(x2)) + Val(x7) + STANDARD256.smallSigma0(Val(x15)) + Val(x16))
            == Val(Later(x2, x7, x15, x16))
  {
    hide Sum, Val, Plus, STANDARD256, BigSigma0, BigSigma1, SmallSigma0, SmallSigma1;
    Sigmas(x2);
    Sigmas(x15);
    var s1, s0 := SmallSigma1(x2), SmallSigma0(x15);
    Small(Val(s1));
    AddsOn(Val(s1), s1, x7);
    AddsOn(Val(s1) + Val(x7), Plus(s1, x7), s0);
    AddsOn(Val(s1) + Val(x7) + Val(s0), Plus(Plus(s1, x7), s0), x16);
  }

  // ----- the message "abc"

  ghost predicate Follows(w: seq<Word>, t: nat)
    requires 16 <= t < |w|
  {
    w[t] == Sum(STANDARD256.smallSigma1(w[t - 2]) + w[t - 7] + STANDARD256.smallSigma0(w[t - 15]) + w[t - 16])
  }

  /** The schedule of the example's block. */
  ghost predicate IsAbc(w: seq<Word>) {
    && |w| == 64 && w[0] == 0x61626380 && w[15] == 0x18 && (forall t :: 1 <= t < 15 ==> w[t] == 0)
    && forall t :: 16 <= t < 64 ==> Follows(w, t)
  }

  lemma AbcIs()
    ensures |Pad(ABC)| == 64 && IsAbc(Schedule256(STANDARD256, Pad(ABC)))
  {
    hide WordAt, Sum, STANDARD256, Pad;
    AbcBlock();
    var w := Schedule256(STANDARD256, Pad(ABC));
    forall t | 16 <= t < 64
      ensures Follows(w, t)
    {
      Sha256.ScheduleRule(STANDARD256, Pad(ABC), t);
    }
  }

  lemma AbcLater(w: seq<Word>, t: nat, x2: Bits, x7: Bits, x15: Bits, x16: Bits, x: Bits)
    requires IsAbc(w) && 16 <= t < 64 && Later(x2, x7, x15, x16) == x
    requires w[t - 2] == Val(x2) && w[t - 7] == Val(x7) && w[t - 15] == Val(x15) && w[t - 16] == Val(x16)
    ensures w[t] == Val(x)
  {
    hide Later, Sum, STANDARD256;
    assert Follows(w, t);
    ScheduleOnBits(x2, x7, x15, x16);
  }

  lemma AbcWords2(w: seq<Word>)
    requires IsAbc(w)
    ensures w[16] == 0x61626380 && w[17] == 0x000f0000
    ensures w[18] == 0x7da86405 && w[19] == 0x600003c6
    ensures w[20] == 0x3e9d7b78 && w[21] == 0x0183fc00
    ensures w[22] == 0x12dcbfdb && w[23] == 0xe2e2c38e
  {
    hide STANDARD256;
    AbcLater(w, 16, 0x00000000, 0x00000000, 0x00000000, 0x61626380, 0x61626380);
    AbcLater(w, 17, 0x00000018, 0x00000000, 0x00000000, 0x00000000, 0x000f0000);
    AbcLater(w, 18, 0x61626380, 0x00000000, 0x00000000, 0x00000000, 0x7da86405);
    AbcLater(w, 19, 0x000f0000, 0x00000000, 0x00000000, 0x00000000, 0x600003c6);
    AbcLater(w, 20, 0x7da86405, 0x00000000, 0x00000000, 0x00000000, 0x3e9d7b78);
    AbcLater(w, 21, 0x600003c6, 0x00000000, 0x00000000, 0x00000000, 0x0183fc00);
    AbcLater(w, 22, 0x3e9d7b78, 0x00000018, 0x00000000, 0x00000000, 0x12dcbfdb);
    AbcLater(w, 23, 0x0183fc00, 0x61626380, 0x00000000, 0x00000000, 0xe2e2c38e);
  }

  lemma AbcWords3(w: seq<Word>)
    requires IsAbc(w)
    ensures w[24] == 0xc8215c1a && w[25] == 0xb73679a2
    ensures w[26] == 0xe5bc3909 && w[27] == 0x32663c5b
    ensures w[28] == 0x9d209d67 && w[29] == 0xec8726cb
    ensures w[30] == 0x702138a4 && w[31] == 0xd3b7973b
  {
    hide STANDARD256;
    AbcWords2(w);
    AbcLater(w, 24, 0x12dcbfdb, 0x000f0000, 0x00000000, 0x00000000, 0xc8215c1a);
    AbcLater(w, 25, 0xe2e2c38e, 0x7da86405, 0x00000000, 0x00000000, 0xb73679a2);
    AbcLater(w, 26, 0xc8215c1a, 0x600003c6, 0x00000000, 0x00000000, 0xe5bc3909);
    AbcLater(w, 27, 0xb73679a2, 0x3e9d7b78, 0x00000000, 0x00000000, 0x32663c5b);
    AbcLater(w, 28, 0xe5bc3909, 0x0183fc00, 0x00000000, 0x00000000, 0x9d209d67);
    AbcLater(w, 29, 0x32663c5b, 0x12dcbfdb, 0x00000000, 0x00000000, 0xec8726cb);
    AbcLater(w, 30, 0x9d209d67, 0xe2e2c38e, 0x00000018, 0x00000000, 0x702138a4);
    AbcLater(w, 31, 0xec8726cb, 0xc8215c1a, 0x61626380, 0x00000018, 0xd3b7973b);
  }

  lemma AbcWords4(w: seq<Word>)
    requires IsAbc(w)
    ensures w[32] == 0x93f5997f && w[33] == 0x3b68ba73
    ensures w[34] == 0xaff4ffc1 && w[35] == 0xf10a5c62
    ensures w[36] == 0x0a8b3996 && w[37] == 0x72af830a
    ensures w[38] == 0x9409e33e && w[39] == 0x24641522
  {
    hide STANDARD256;
    AbcWords2(w);
    AbcWords3(w);
    AbcLater(w, 32, 0x702138a4, 0xb73679a2, 0x000f0000, 0x61626380, 0x93f5997f);
    AbcLater(w, 33, 0xd3b7973b, 0xe5bc3909, 0x7da86405, 0x000f0000, 0x3b68ba73);
    AbcLater(w, 34, 0x93f5997f, 0x32663c5b, 0x600003c6, 0x7da86405, 0xaff4ffc1);
    AbcLater(w, 35, 0x3b68ba73, 0x9d209d67, 0x3e9d7b78, 0x600003c6, 0xf10a5c62);
    AbcLater(w, 36, 0xaff4ffc1, 0xec8726cb, 0x0183fc00, 0x3e9d7b78, 0x0a8b3996);
    AbcLater(w, 37, 0xf10a5c62, 0x702138a4, 0x12dcbfdb, 0x0183fc00, 0x72af830a);
    AbcLater(w, 38, 0x0a8b3996, 0xd3b7973b, 0xe2e2c38e, 0x12dcbfdb, 0x9409e33e);
    AbcLater(w, 39, 0x72af830a, 0x93f5997f, 0xc8215c1a, 0xe2e2c38e, 0x24641522);
  }

  lemma AbcWords5(w: seq<Word>)
    requires IsAbc(w)
    ensures w[40] == 0x9f47bf94 && w[41] == 0xf0a64f5a
    ensures w[42] == 0x3e246a79 && w[43] == 0x27333ba3
    ensures w[44] == 0x0c4763f2 && w[45] == 0x840abf27
    ensures w[46] == 0x7a290d5d && w[47] == 0x065c43da
  {
    hide STANDARD256;
    AbcWords3(w);
    AbcWords4(w);
    AbcLater(w, 40, 0x9409e33e, 0x3b68ba73, 0xb73679a2, 0xc8215c1a, 0x9f47bf94);
    AbcLater(w, 41, 0x24641522, 0xaff4ffc1, 0xe5bc3909, 0xb73679a2, 0xf0a64f5a);
    AbcLater(w, 42, 0x9f47bf94, 0xf10a5c62, 0x32663c5b, 0xe5bc3909, 0x3e246a79);
    AbcLater(w, 43, 0xf0a64f5a, 0x0a8b3996, 0x9d209d67, 0x32663c5b, 0x27333ba3);
    AbcLater(w, 44, 0x3e246a79, 0x72af830a, 0xec8726cb, 0x9d209d67, 0x0c4763f2);
    AbcLater(w, 45, 0x27333ba3, 0x9409e33e, 0x702138a4, 0xec8726cb, 0x840abf27);
    AbcLater(w, 46, 0x0c4763f2, 0x24641522, 0xd3b7973b, 0x702138a4, 0x7a290d5d);
    AbcLater(w, 47, 0x840abf27, 0x9f47bf94, 0x93f5997f, 0xd3b7973b, 0x065c43da);
  }

  lemma AbcWords6(w: seq<Word>)
    requires IsAbc(w)
    ensures w[48] == 0xfb3e89cb && w[49] == 0xcc7617db
    ensures w[50] == 0xb9e66c34 && w[51] == 0xa9993667
    ensures w[52] == 0x84badedd && w[53] == 0xc21462bc
    ensures w[54] == 0x1487472c && w[55] == 0xb20f7a99
  {
    hide STANDARD256;
    AbcWords4(w);
    AbcWords5(w);
    AbcLater(w, 48, 0x7a290d5d, 0xf0a64f5a, 0x3b68ba73, 0x93f5997f, 0xfb3e89cb);
    AbcLater(w, 49, 0x065c43da, 0x3e246a79, 0xaff4ffc1, 0x3b68ba73, 0xcc7617db);
    AbcLater(w, 50, 0xfb3e89cb, 0x27333ba3, 0xf10a5c62, 0xaff4ffc1, 0xb9e66c34);
    AbcLater(w, 51, 0xcc7617db, 0x0c4763f2, 0x0a8b3996, 0xf10a5c62, 0xa9993667);
    AbcLater(w, 52, 0xb9e66c34, 0x840abf27, 0x72af830a, 0x0a8b3996, 0x84badedd);
    AbcLater(w, 53, 0xa9993667, 0x7a290d5d, 0x9409e33e, 0x72af830a, 0xc21462bc);
    AbcLater(w, 54, 0x84badedd, 0x065c43da, 0x24641522, 0x9409e33e, 0x1487472c);
    AbcLater(w, 55, 0xc21462bc, 0xfb3e89cb, 0x9f47bf94, 0x24641522, 0xb20f7a99);
  }

  lemma AbcWords7(w: seq<Word>)
    requires IsAbc(w)
    ensures w[56] == 0xef57b9cd && w[57] == 0xebe6b238
    ensures w[58] == 0x9fe3095e && w[59] == 0x78bc8d4b
    ensures w[60] == 0xa43fcf15 && w[61] == 0x668b2ff8
    ensures w[62] == 0xeeaba2cc && w[63] == 0x12b1edeb
  {
    hide STANDARD256;
    AbcWords5(w);
    AbcWords6(w);
    AbcLater(w, 56, 0x1487472c, 0xcc7617db, 0xf0a64f5a, 0x9f47bf94, 0xef57b9cd);
    AbcLater(w, 57, 0xb20f7a99, 0xb9e66c34, 0x3e246a79, 0xf0a64f5a, 0xebe6b238);
    AbcLater(w, 58, 0xef57b9cd, 0xa9993667, 0x27333ba3, 0x3e246a79, 0x9fe3095e);
    AbcLater(w, 59, 0xebe6b238, 0x84badedd, 0x0c4763f2, 0x27333ba3, 0x78bc8d4b);
    AbcLater(w, 60, 0x9fe3095e, 0xc21462bc, 0x840abf27, 0x0c4763f2, 0xa43fcf15);
    AbcLater(w, 61, 0x78bc8d4b, 0x1487472c, 0x7a290d5d, 0x840abf27, 0x668b2ff8);
    AbcLater(w, 62, 0xa43fcf15, 0xb20f7a99, 0x065c43da, 0x7a290d5d, 0xeeaba2cc);
    AbcLater(w, 63, 0x668b2ff8, 0xef57b9cd, 0xfb3e89cb, 0x065c43da, 0x12b1edeb);
  }

  lemma AbcRound(w: seq<Word>, t: nat, r: Regs, k: Bits, x: Bits, r': Regs)
    requires |w| == 64 && t < 64 && Rounds256(STANDARD256, INITIAL256, w, t) == Words(r)
    requires STANDARD256.k(t) == Val(k) && w[t] == Val(x) && Round(r, k, x) == r'
    ensures Rounds256(STANDARD256, INITIAL256, w, t + 1) == Words(r')
  {
    hide Round256, Round, STANDARD256;
    RoundOnBits(r, k, x);
  }

  lemma Constants0()
    ensures STANDARD256.k(0) == 0x428a2f98 && STANDARD256.k(1) == 0x71374491
    ensures STANDARD256.k(2) == 0xb5c0fbcf && STANDARD256.k(3) == 0xe9b5dba5
    ensures STANDARD256.k(4) == 0x3956c25b && STANDARD256.k(5) == 0x59f111f1
    ensures STANDARD256.k(6) == 0x923f82a4 && STANDARD256.k(7) == 0xab1c5ed5
  {
  }

  lemma Constants1()
    ensures STANDARD256.k(8) == 0xd807aa98 && STANDARD256.k(9) == 0x12835b01
    ensures STANDARD256.k(10) == 0x243185be && STANDARD256.k(11) == 0x550c7dc3
    ensures STANDARD256.k(12) == 0x72be5d74 && STANDARD256.k(13) == 0x80deb1fe
    ensures STANDARD256.k(14) == 0x9bdc06a7 && STANDARD256.k(15) == 0xc19bf174
  {
  }

  lemma Constants2()
    ensures STANDARD256.k(16) == 0xe49b69c1 && STANDARD256.k(17) == 0xefbe4786
    ensures STANDARD256.k(18) == 0x0fc19dc6 && STANDARD256.k(19) == 0x240ca1cc
    ensures STANDARD256.k(20) == 0x2de92c6f && STANDARD256.k(21) == 0x4a7484aa
    ensures STANDARD256.k(22) == 0x5cb0a9dc && STANDARD256.k(23) == 0x76f988da
  {
  }

  lemma Constants3()
    ensures STANDARD256.k(24) == 0x983e5152 && STANDARD256.k(25) == 0xa831c66d
    ensures STANDARD256.k(26) == 0xb00327c8 && STANDARD256.k(27) == 0xbf597fc7
    ensures STANDARD256.k(28) == 0xc6e00bf3 && STANDARD256.k(29) == 0xd5a79147
    ensures STANDARD256.k(30) == 0x06ca6351 && STANDARD256.k(31) == 0x14292967
  {
  }

  lemma Constants4()
    ensures STANDARD256.k(32) == 0x27b70a85 && STANDARD256.k(33) == 0x2e1b2138
    ensures STANDARD256.k(34) == 0x4d2c6dfc && STANDARD256.k(35) == 0x53380d13
    ensures STANDARD256.k(36) == 0x650a7354 && STANDARD256.k(37) == 0x766a0abb
    ensures STANDARD256.k(38) == 0x81c2c92e && STANDARD256.k(39) == 0x92722c85
  {
  }

  lemma Constants5()
    ensures STANDARD256.k(40) == 0xa2bfe8a1 && STANDARD256.k(41) == 0xa81a664b
    ensures STANDARD256.k(42) == 0xc24b8b70 && STANDARD256.k(43) == 0xc76c51a3
    ensures STANDARD256.k(44) == 0xd192e819 && STANDARD256.k(45) == 0xd6990624
    ensures STANDARD256.k(46) == 0xf40e3585 && STANDARD256.k(47) == 0x106aa070
  {
  }

  lemma Constants6()
    ensures STANDARD256.k(48) == 0x19a4c116 && STANDARD256.k(49) == 0x1e376c08
    ensures STANDARD256.k(50) == 0x2748774c && STANDARD256.k(51) == 0x34b0bcb5
    ensures STANDARD256.k(52) == 0x391c0cb3 && STANDARD256.k(53) == 0x4ed8aa4a
    ensures STANDARD256.k(54) == 0x5b9cca4f && STANDARD256.k(55) == 0x682e6ff3
  {
  }

  lemma Constants7()
    ensures STANDARD256.k(56) == 0x748f82ee && STANDARD256.k(57) == 0x78a5636f
    ensures STANDARD256.k(58) == 0x84c87814 && STANDARD256.k(59) == 0x8cc70208
    ensures STANDARD256.k(60) == 0x90befffa && STANDARD256.k(61) == 0xa4506ceb
    ensures STANDARD256.k(62) == 0xbef9a3f7 && STANDARD256.k(63) == 0xc67178f2
  {
  }

  lemma AbcRounds0(w: seq<Word>)
    requires IsAbc(w)
    ensures Rounds256(STANDARD256, INITIAL256, w, 8)
            == Words(Regs(0x85a07b5f, 0xe5030380, 0x2b4209f5, 0x04409a6a,
                          0x0c657a79, 0x9b27a401, 0x714260ad, 0x43ada245))
  {
    hide Rounds256, STANDARD256;
    Constants0();
    AbcStart(w);
    var r0 := Regs(0x6a09e667, 0xbb67ae85, 0x3c6ef372, 0xa54ff53a, 0x510e527f, 0x9b05688c, 0x1f83d9ab, 0x5be0cd19);
    var r1 := Regs(0x5d6aebcd, 0x6a09e667, 0xbb67ae85, 0x3c6ef372, 0xfa2a4622, 0x510e527f, 0x9b05688c, 0x1f83d9ab);
    AbcRound(w, 0, r0, 0x428a2f98, 0x61626380, r1);
    var r2 := Regs(0x5a6ad9ad, 0x5d6aebcd, 0x6a09e667, 0xbb67ae85, 0x78ce7989, 0xfa2a4622, 0x510e527f, 0x9b05688c);
    AbcRound(w, 1, r1, 0x71374491, 0x00000000, r2);
    var r3 := Regs(0xc8c347a7, 0x5a6ad9ad, 0x5d6aebcd, 0x6a09e667, 0xf92939eb, 0x78ce7989, 0xfa2a4622, 0x510e527f);
    AbcRound(w, 2, r2, 0xb5c0fbcf, 0x00000000, r3);
    var r4 := Regs(0xd550f666, 0xc8c347a7, 0x5a6ad9ad, 0x5d6aebcd, 0x24e00850, 0xf92939eb, 0x78ce7989, 0xfa2a4622);
    AbcRound(w, 3, r3, 0xe9b5dba5, 0x00000000, r4);
    var r5 := Regs(0x04409a6a, 0xd550f666, 0xc8c347a7, 0x5a6ad9ad, 0x43ada245, 0x24e00850, 0xf92939eb, 0x78ce7989);
    AbcRound(w, 4, r4, 0x3956c25b, 0x00000000, r5);
    var r6 := Regs(0x2b4209f5, 0x04409a6a, 0xd550f666, 0xc8c347a7, 0x714260ad, 0x43ada245, 0x24e00850, 0xf92939eb);
    AbcRound(w, 5, r5, 0x59f111f1, 0x00000000, r6);
    var r7 := Regs(0xe5030380, 0x2b4209f5, 0x04409a6a, 0xd550f666, 0x9b27a401, 0x714260ad, 0x43ada245, 0x24e00850);
    AbcRound(w, 6, r6, 0x923f82a4, 0x00000000, r7);
    var r8 := Regs(0x85a07b5f, 0xe5030380, 0x2b4209f5, 0x04409a6a, 0x0c657a79, 0x9b27a401, 0x714260ad, 0x43ada245);
    AbcRound(w, 7, r7, 0xab1c5ed5, 0x00000000, r8);
  }

  lemma AbcRounds1(w: seq<Word>)
    requires IsAbc(w)
    ensures Rounds256(STANDARD256, INITIAL256, w, 16)
            == Words(Regs(0xb0fa238e, 0xc0645fde, 0xd932eb16, 0x87912990,
                          0x07590dcd, 0x0b92f20c, 0x745a48de, 0x1e578218))
  {
    hide Rounds256, STANDARD256;
    Constants1();
    AbcRounds0(w);
    var r0 := Regs(0x85a07b5f, 0xe5030380, 0x2b4209f5, 0x04409a6a, 0x0c657a79, 0x9b27a401, 0x714260ad, 0x43ada245);
    var r1 := Regs(0x8e04ecb9, 0x85a07b5f, 0xe5030380, 0x2b4209f5, 0x32ca2d8c, 0x0c657a79, 0x9b27a401, 0x714260ad);
    AbcRound(w, 8, r0, 0xd807aa98, 0x00000000, r1);
    var r2 := Regs(0x8c87346b, 0x8e04ecb9, 0x85a07b5f, 0xe5030380, 0x1cc92596, 0x32ca2d8c, 0x0c657a79, 0x9b27a401);
    AbcRound(w, 9, r1, 0x12835b01, 0x00000000, r2);
    var r3 := Regs(0x4798a3f4, 0x8c87346b, 0x8e04ecb9, 0x85a07b5f, 0x436b23e8, 0x1cc92596, 0x32ca2d8c, 0x0c657a79);
    AbcRound(w, 10, r2, 0x243185be, 0x00000000, r3);
    var r4 := Regs(0xf71fc5a9, 0x4798a3f4, 0x8c87346b, 0x8e04ecb9, 0x816fd6e9, 0x436b23e8, 0x1cc92596, 0x32ca2d8c);
    AbcRound(w, 11, r3, 0x550c7dc3, 0x00000000, r4);
    var r5 := Regs(0x87912990, 0xf71fc5a9, 0x4798a3f4, 0x8c87346b, 0x1e578218, 0x816fd6e9, 0x436b23e8, 0x1cc92596);
    AbcRound(w, 12, r4, 0x72be5d74, 0x00000000, r5);
    var r6 := Regs(0xd932eb16, 0x87912990, 0xf71fc5a9, 0x4798a3f4, 0x745a48de, 0x1e578218, 0x816fd6e9, 0x436b23e8);
    AbcRound(w, 13, r5, 0x80deb1fe, 0x00000000, r6);
    var r7 := Regs(0xc0645fde, 0xd932eb16, 0x87912990, 0xf71fc5a9, 0x0b92f20c, 0x745a48de, 0x1e578218, 0x816fd6e9);
    AbcRound(w, 14, r6, 0x9bdc06a7, 0x00000000, r7);
    var r8 := Regs(0xb0fa238e, 0xc0645fde, 0xd932eb16, 0x87912990, 0x07590dcd, 0x0b92f20c, 0x745a48de, 0x1e578218);
    AbcRound(w, 15, r7, 0xc19bf174, 0x00000018, r8);
  }

  lemma AbcRounds2(w: seq<Word>)
    requires IsAbc(w)
    ensures Rounds256(STANDARD256, INITIAL256, w, 24)
            == Words(Regs(0xc5d53d8d, 0xa7a3623f, 0xc2606d6d, 0x9dc68b63,
                          0xaa47c347, 0x49f5114a, 0xe1257970, 0x8ada8930))
  {
    hide Rounds256, STANDARD256;
    Constants2();
    AbcWords2(w);
    AbcRounds1(w);
    var r0 := Regs(0xb0fa238e, 0xc0645fde, 0xd932eb16, 0x87912990, 0x07590dcd, 0x0b92f20c, 0x745a48de, 0x1e578218);
    var r1 := Regs(0x21da9a9b, 0xb0fa238e, 0xc0645fde, 0xd932eb16, 0x8034229c, 0x07590dcd, 0x0b92f20c, 0x745a48de);
    AbcRound(w, 16, r0, 0xe49b69c1, 0x61626380, r1);
    var r2 := Regs(0xc2fbd9d1, 0x21da9a9b, 0xb0fa238e, 0xc0645fde, 0x846ee454, 0x8034229c, 0x07590dcd, 0x0b92f20c);
    AbcRound(w, 17, r1, 0xefbe4786, 0x000f0000, r2);
    var r3 := Regs(0xfe777bbf, 0xc2fbd9d1, 0x21da9a9b, 0xb0fa238e, 0xcc899961, 0x846ee454, 0x8034229c, 0x07590dcd);
    AbcRound(w, 18, r2, 0x0fc19dc6, 0x7da86405, r3);
    var r4 := Regs(0xe1f20c33, 0xfe777bbf, 0xc2fbd9d1, 0x21da9a9b, 0xb0638179, 0xcc899961, 0x846ee454, 0x8034229c);
    AbcRound(w, 19, r3, 0x240ca1cc, 0x600003c6, r4);
    var r5 := Regs(0x9dc68b63, 0xe1f20c33, 0xfe777bbf, 0xc2fbd9d1, 0x8ada8930, 0xb0638179, 0xcc899961, 0x846ee454);
    AbcRound(w, 20, r4, 0x2de92c6f, 0x3e9d7b78, r5);
    var r6 := Regs(0xc2606d6d, 0x9dc68b63, 0xe1f20c33, 0xfe777bbf, 0xe1257970, 0x8ada8930, 0xb0638179, 0xcc899961);
    AbcRound(w, 21, r5, 0x4a7484aa, 0x0183fc00, r6);
    var r7 := Regs(0xa7a3623f, 0xc2606d6d, 0x9dc68b63, 0xe1f20c33, 0x49f5114a, 0xe1257970, 0x8ada8930, 0xb0638179);
    AbcRound(w, 22, r6, 0x5cb0a9dc, 0x12dcbfdb, r7);
    var r8 := Regs(0xc5d53d8d, 0xa7a3623f, 0xc2606d6d, 0x9dc68b63, 0xaa47c347, 0x49f5114a, 0xe1257970, 0x8ada8930);
    AbcRound(w, 23, r7, 0x76f988da, 0xe2e2c38e, r8);
  }

  lemma AbcRounds3(w: seq<Word>)
    requires IsAbc(w)
    ensures Rounds256(STANDARD256, INITIAL256, w, 32)
            == Words(Regs(0x73b33bf5, 0xea992a22, 0xa0060b30, 0x363482c9,
                          0xba591112, 0x0109ab3a, 0xade79437, 0x6112a3b7))
  {
    hide Rounds256, STANDARD256;
    Constants3();
    AbcWords3(w);
    AbcRounds2(w);
    var r0 := Regs(0xc5d53d8d, 0xa7a3623f, 0xc2606d6d, 0x9dc68b63, 0xaa47c347, 0x49f5114a, 0xe1257970, 0x8ada8930);
    var r1 := Regs(0x1c2c2838, 0xc5d53d8d, 0xa7a3623f, 0xc2606d6d, 0x2823ef91, 0xaa47c347, 0x49f5114a, 0xe1257970);
    AbcRound(w, 24, r0, 0x983e5152, 0xc8215c1a, r1);
    var r2 := Regs(0xcde8037d, 0x1c2c2838, 0xc5d53d8d, 0xa7a3623f, 0x14383d8e, 0x2823ef91, 0xaa47c347, 0x49f5114a);
    AbcRound(w, 25, r1, 0xa831c66d, 0xb73679a2, r2);
    var r3 := Regs(0xb62ec4bc, 0xcde8037d, 0x1c2c2838, 0xc5d53d8d, 0xc74c6516, 0x14383d8e, 0x2823ef91, 0xaa47c347);
    AbcRound(w, 26, r2, 0xb00327c8, 0xe5bc3909, r3);
    var r4 := Regs(0x77d37528, 0xb62ec4bc, 0xcde8037d, 0x1c2c2838, 0xedffbff8, 0xc74c6516, 0x14383d8e, 0x2823ef91);
    AbcRound(w, 27, r3, 0xbf597fc7, 0x32663c5b, r4);
    var r5 := Regs(0x363482c9, 0x77d37528, 0xb62ec4bc, 0xcde8037d, 0x6112a3b7, 0xedffbff8, 0xc74c6516, 0x14383d8e);
    AbcRound(w, 28, r4, 0xc6e00bf3, 0x9d209d67, r5);
    var r6 := Regs(0xa0060b30, 0x363482c9, 0x77d37528, 0xb62ec4bc, 0xade79437, 0x6112a3b7, 0xedffbff8, 0xc74c6516);
    AbcRound(w, 29, r5, 0xd5a79147, 0xec8726cb, r6);
    var r7 := Regs(0xea992a22, 0xa0060b30, 0x363482c9, 0x77d37528, 0x0109ab3a, 0xade79437, 0x6112a3b7, 0xedffbff8);
    AbcRound(w, 30, r6, 0x06ca6351, 0x702138a4, r7);
    var r8 := Regs(0x73b33bf5, 0xea992a22, 0xa0060b30, 0x363482c9, 0xba591112, 0x0109ab3a, 0xade79437, 0x6112a3b7);
    AbcRound(w, 31, r7, 0x14292967, 0xd3b7973b, r8);
  }

  lemma AbcRounds4(w: seq<Word>)
    requires IsAbc(w)
    ensures Rounds256(STANDARD256, INITIAL256, w, 40)
            == Words(Regs(0x79ea687a, 0x6dc57a8a, 0x34df1604, 0x41a65cb1,
                          0x1efbc0a0, 0xf0781bc8, 0xa507a53d, 0x0772a26b))
  {
    hide Rounds256, STANDARD256;
    Constants4();
    AbcWords4(w);
    AbcRounds3(w);
    var r0 := Regs(0x73b33bf5, 0xea992a22, 0xa0060b30, 0x363482c9, 0xba591112, 0x0109ab3a, 0xade79437, 0x6112a3b7);
    var r1 := Regs(0x98e12507, 0x73b33bf5, 0xea992a22, 0xa0060b30, 0x9cd9f5f6, 0xba591112, 0x0109ab3a, 0xade79437);
    AbcRound(w, 32, r0, 0x27b70a85, 0x93f5997f, r1);
    var r2 := Regs(0xfe604df5, 0x98e12507, 0x73b33bf5, 0xea992a22, 0x59249dd3, 0x9cd9f5f6, 0xba591112, 0x0109ab3a);
    AbcRound(w, 33, r1, 0x2e1b2138, 0x3b68ba73, r2);
    var r3 := Regs(0xa9a7738c, 0xfe604df5, 0x98e12507, 0x73b33bf5, 0x085f3833, 0x59249dd3, 0x9cd9f5f6, 0xba591112);
    AbcRound(w, 34, r2, 0x4d2c6dfc, 0xaff4ffc1, r3);
    var r4 := Regs(0x65a0cfe4, 0xa9a7738c, 0xfe604df5, 0x98e12507, 0xf4b002d6, 0x085f3833, 0x59249dd3, 0x9cd9f5f6);
    AbcRound(w, 35, r3, 0x53380d13, 0xf10a5c62, r4);
    var r5 := Regs(0x41a65cb1, 0x65a0cfe4, 0xa9a7738c, 0xfe604df5, 0x0772a26b, 0xf4b002d6, 0x085f3833, 0x59249dd3);
    AbcRound(w, 36, r4, 0x650a7354, 0x0a8b3996, r5);
    var r6 := Regs(0x34df1604, 0x41a65cb1, 0x65a0cfe4, 0xa9a7738c, 0xa507a53d, 0x0772a26b, 0xf4b002d6, 0x085f3833);
    AbcRound(w, 37, r5, 0x766a0abb, 0x72af830a, r6);
    var r7 := Regs(0x6dc57a8a, 0x34df1604, 0x41a65cb1, 0x65a0cfe4, 0xf0781bc8, 0xa507a53d, 0x0772a26b, 0xf4b002d6);
    AbcRound(w, 38, r6, 0x81c2c92e, 0x9409e33e, r7);
    var r8 := Regs(0x79ea687a, 0x6dc57a8a, 0x34df1604, 0x41a65cb1, 0x1efbc0a0, 0xf0781bc8, 0xa507a53d, 0x0772a26b);
    AbcRound(w, 39, r7, 0x92722c85, 0x24641522, r8);
  }

  lemma AbcRounds5(w: seq<Word>)
    requires IsAbc(w)
    ensures Rounds256(STANDARD256, INITIAL256, w, 48)
            == Words(Regs(0x4172328d, 0xa14c14b0, 0x72ab4b91, 0x26628815,
                          0xfecf0bc6, 0xd57b94a9, 0xb7755da1, 0xa80f11f0))
  {
    hide Rounds256, STANDARD256;
    Constants5();
    AbcWords5(w);
    AbcRounds4(w);
    var r0 := Regs(0x79ea687a, 0x6dc57a8a, 0x34df1604, 0x41a65cb1, 0x1efbc0a0, 0xf0781bc8, 0xa507a53d, 0x0772a26b);
    var r1 := Regs(0xd6670766, 0x79ea687a, 0x6dc57a8a, 0x34df1604, 0x26352d63, 0x1efbc0a0, 0xf0781bc8, 0xa507a53d);
    AbcRound(w, 40, r0, 0xa2bfe8a1, 0x9f47bf94, r1);
    var r2 := Regs(0xdf46652f, 0xd6670766, 0x79ea687a, 0x6dc57a8a, 0x838b2711, 0x26352d63, 0x1efbc0a0, 0xf0781bc8);
    AbcRound(w, 41, r1, 0xa81a664b, 0xf0a64f5a, r2);
    var r3 := Regs(0x17aa0dfe, 0xdf46652f, 0xd6670766, 0x79ea687a, 0xdecd4715, 0x838b2711, 0x26352d63, 0x1efbc0a0);
    AbcRound(w, 42, r2, 0xc24b8b70, 0x3e246a79, r3);
    var r4 := Regs(0x9d4baf93, 0x17aa0dfe, 0xdf46652f, 0xd6670766, 0xfda24c2e, 0xdecd4715, 0x838b2711, 0x26352d63);
    AbcRound(w, 43, r3, 0xc76c51a3, 0x27333ba3, r4);
    var r5 := Regs(0x26628815, 0x9d4baf93, 0x17aa0dfe, 0xdf46652f, 0xa80f11f0, 0xfda24c2e, 0xdecd4715, 0x838b2711);
    AbcRound(w, 44, r4, 0xd192e819, 0x0c4763f2, r5);
    var r6 := Regs(0x72ab4b91, 0x26628815, 0x9d4baf93, 0x17aa0dfe, 0xb7755da1, 0xa80f11f0, 0xfda24c2e, 0xdecd4715);
    AbcRound(w, 45, r5, 0xd6990624, 0x840abf27, r6);
    var r7 := Regs(0xa14c14b0, 0x72ab4b91, 0x26628815, 0x9d4baf93, 0xd57b94a9, 0xb7755da1, 0xa80f11f0, 0xfda24c2e);
    AbcRound(w, 46, r6, 0xf40e3585, 0x7a290d5d, r7);
    var r8 := Regs(0x4172328d, 0xa14c14b0, 0x72ab4b91, 0x26628815, 0xfecf0bc6, 0xd57b94a9, 0xb7755da1, 0xa80f11f0);
    AbcRound(w, 47, r7, 0x106aa070, 0x065c43da, r8);
  }

  lemma AbcRounds6(w: seq<Word>)
    requires IsAbc(w)
    ensures Rounds256(STANDARD256, INITIAL256, w, 56)
            == Words(Regs(0x38cc9913, 0x3ec45cdb, 0xf5702fdb, 0x101fd28f,
                          0x54cb266b, 0xe50e1b4f, 0x9f4787c3, 0x529e7d00))
  {
    hide Rounds256, STANDARD256;
    Constants6();
    AbcWords6(w);
    AbcRounds5(w);
    var r0 := Regs(0x4172328d, 0xa14c14b0, 0x72ab4b91, 0x26628815, 0xfecf0bc6, 0xd57b94a9, 0xb7755da1, 0xa80f11f0);
    var r1 := Regs(0x05757ceb, 0x4172328d, 0xa14c14b0, 0x72ab4b91, 0xbd714038, 0xfecf0bc6, 0xd57b94a9, 0xb7755da1);
    AbcRound(w, 48, r0, 0x19a4c116, 0xfb3e89cb, r1);
    var r2 := Regs(0xf11bfaa8, 0x05757ceb, 0x4172328d, 0xa14c14b0, 0x6e5c390c, 0xbd714038, 0xfecf0bc6, 0xd57b94a9);
    AbcRound(w, 49, r1, 0x1e376c08, 0xcc7617db, r2);
    var r3 := Regs(0x7a0508a1, 0xf11bfaa8, 0x05757ceb, 0x4172328d, 0x52f1ccf7, 0x6e5c390c, 0xbd714038, 0xfecf0bc6);
    AbcRound(w, 50, r2, 0x2748774c, 0xb9e66c34, r3);
    var r4 := Regs(0x886e7a22, 0x7a0508a1, 0xf11bfaa8, 0x05757ceb, 0x49231c1e, 0x52f1ccf7, 0x6e5c390c, 0xbd714038);
    AbcRound(w, 51, r3, 0x34b0bcb5, 0xa9993667, r4);
    var r5 := Regs(0x101fd28f, 0x886e7a22, 0x7a0508a1, 0xf11bfaa8, 0x529e7d00, 0x49231c1e, 0x52f1ccf7, 0x6e5c390c);
    AbcRound(w, 52, r4, 0x391c0cb3, 0x84badedd, r5);
    var r6 := Regs(0xf5702fdb, 0x101fd28f, 0x886e7a22, 0x7a0508a1, 0x9f4787c3, 0x529e7d00, 0x49231c1e, 0x52f1ccf7);
    AbcRound(w, 53, r5, 0x4ed8aa4a, 0xc21462bc, r6);
    var r7 := Regs(0x3ec45cdb, 0xf5702fdb, 0x101fd28f, 0x886e7a22, 0xe50e1b4f, 0x9f4787c3, 0x529e7d00, 0x49231c1e);
    AbcRound(w, 54, r6, 0x5b9cca4f, 0x1487472c, r7);
    var r8 := Regs(0x38cc9913, 0x3ec45cdb, 0xf5702fdb, 0x101fd28f, 0x54cb266b, 0xe50e1b4f, 0x9f4787c3, 0x529e7d00);
    AbcRound(w, 55, r7, 0x682e6ff3, 0xb20f7a99, r8);
  }

  lemma AbcRounds7(w: seq<Word>)
    requires IsAbc(w)
    ensures Rounds256(STANDARD256, INITIAL256, w, 64)
            == Words(Regs(0x506e3058, 0xd39a2165, 0x04d24d6c, 0xb85e2ce9,
                          0x5ef50f24, 0xfb121210, 0x948d25b6, 0x961f4894))
  {
    hide Rounds256, STANDARD256;
    Constants7();
    AbcWords7(w);
    AbcRounds6(w);
    var r0 := Regs(0x38cc9913, 0x3ec45cdb, 0xf5702fdb, 0x101fd28f, 0x54cb266b, 0xe50e1b4f, 0x9f4787c3, 0x529e7d00);
    var r1 := Regs(0xfcd1887b, 0x38cc9913, 0x3ec45cdb, 0xf5702fdb, 0x9b5e906c, 0x54cb266b, 0xe50e1b4f, 0x9f4787c3);
    AbcRound(w, 56, r0, 0x748f82ee, 0xef57b9cd, r1);
    var r2 := Regs(0xc062d46f, 0xfcd1887b, 0x38cc9913, 0x3ec45cdb, 0x7e44008e, 0x9b5e906c, 0x54cb266b, 0xe50e1b4f);
    AbcRound(w, 57, r1, 0x78a5636f, 0xebe6b238, r2);
    var r3 := Regs(0xffb70472, 0xc062d46f, 0xfcd1887b, 0x38cc9913, 0x6d83bfc6, 0x7e44008e, 0x9b5e906c, 0x54cb266b);
    AbcRound(w, 58, r2, 0x84c87814, 0x9fe3095e, r3);
    var r4 := Regs(0xb6ae8fff, 0xffb70472, 0xc062d46f, 0xfcd1887b, 0xb21bad3d, 0x6d83bfc6, 0x7e44008e, 0x9b5e906c);
    AbcRound(w, 59, r3, 0x8cc70208, 0x78bc8d4b, r4);
    var r5 := Regs(0xb85e2ce9, 0xb6ae8fff, 0xffb70472, 0xc062d46f, 0x961f4894, 0xb21bad3d, 0x6d83bfc6, 0x7e44008e);
    AbcRound(w, 60, r4, 0x90befffa, 0xa43fcf15, r5);
    var r6 := Regs(0x04d24d6c, 0xb85e2ce9, 0xb6ae8fff, 0xffb70472, 0x948d25b6, 0x961f4894, 0xb21bad3d, 0x6d83bfc6);
    AbcRound(w, 61, r5, 0xa4506ceb, 0x668b2ff8, r6);
    var r7 := Regs(0xd39a2165, 0x04d24d6c, 0xb85e2ce9, 0xb6ae8fff, 0xfb121210, 0x948d25b6, 0x961f4894, 0xb21bad3d);
    AbcRound(w, 62, r6, 0xbef9a3f7, 0xeeaba2cc, r7);
    var r8 := Regs(0x506e3058, 0xd39a2165, 0x04d24d6c, 0xb85e2ce9, 0x5ef50f24, 0xfb121210, 0x948d25b6, 0x961f4894);
    AbcRound(w, 63, r7, 0xc67178f2, 0x12b1edeb, r8);
  }

  lemma AbcStart(w: seq<Word>)
    requires |w| == 64
    ensures Rounds256(STANDARD256, INITIAL256, w, 0)
            == Words(Regs(0x6a09e667, 0xbb67ae85, 0x3c6ef372, 0xa54ff53a,
                          0x510e527f, 0x9b05688c, 0x1f83d9ab, 0x5be0cd19))
  {
  }

  /** The digest the standard's examples give for "abc". */
  lemma AbcDigest()
    ensures Hash256(STANDARD256, ABC) == [
      0xba, 0x78, 0x16, 0xbf, 0x8f, 0x01, 0xcf, 0xea, 0x41, 0x41, 0x40, 0xde, 0x5d, 0xae, 0x22, 0x23,
      0xb0, 0x03, 0x61, 0xa3, 0x96, 0x17, 0x7a, 0x9c, 0xb4, 0x10, 0xff, 0x61, 0xf2, 0x00, 0x15, 0xad]
  {
    hide Rounds256, Schedule256, STANDARD256, Digest256;
    AbcIs();
    var w := Schedule256(STANDARD256, Pad(ABC));
    AbcRounds7(w);
    var s := State256(0x506e3058, 0xd39a2165, 0x04d24d6c, 0xb85e2ce9,
                      0x5ef50f24, 0xfb121210, 0x948d25b6, 0x961f4894);
    assert Rounds256(STANDARD256, INITIAL256, w, 64) == s;
    AbcSum(s);
    OneBlock(Compress256(STANDARD256), INITIAL256, Pad(ABC));
    AbcBytes();
  }

  lemma AbcSum(s: State256)
    requires s == State256(0x506e3058, 0xd39a2165, 0x04d24d6c, 0xb85e2ce9,
                           0x5ef50f24, 0xfb121210, 0x948d25b6, 0x961f4894)
    ensures Add256(INITIAL256, s)
            == State256(0xba7816bf, 0x8f01cfea, 0x414140de, 0x5dae2223,
                        0xb00361a3, 0x96177a9c, 0xb410ff61, 0xf20015ad)
  {
  }

  lemma AbcBytes0()
    ensures WordBytes(0xba7816bf) == [0xba, 0x78, 0x16, 0xbf]
  {
  }

  lemma AbcBytes1()
    ensures WordBytes(0x8f01cfea) == [0x8f, 0x01, 0xcf, 0xea]
  {
  }

  lemma AbcBytes2()
    ensures WordBytes(0x414140de) == [0x41, 0x41, 0x40, 0xde]
  {
  }

  lemma AbcBytes3()
    ensures WordBytes(0x5dae2223) == [0x5d, 0xae, 0x22, 0x23]
  {
  }

  lemma AbcBytes4()
    ensures WordBytes(0xb00361a3) == [0xb0, 0x03, 0x61, 0xa3]
  {
  }

  lemma AbcBytes5()
    ensures WordBytes(0x96177a9c) == [0x96, 0x17, 0x7a, 0x9c]
  {
  }

  lemma AbcBytes6()
    ensures WordBytes(0xb410ff61) == [0xb4, 0x10, 0xff, 0x61]
  {
  }

  lemma AbcBytes7()
    ensures WordBytes(0xf20015ad) == [0xf2, 0x00, 0x15, 0xad]
  {
  }

  lemma AbcBytes()
    ensures Digest256(State256(0xba7816bf, 0x8f01cfea, 0x414140de, 0x5dae2223,
                               0xb00361a3, 0x96177a9c, 0xb410ff61, 0xf20015ad)) == [
      0xba, 0x78, 0x16, 0xbf, 0x8f, 0x01, 0xcf, 0xea, 0x41, 0x41, 0x40, 0xde, 0x5d, 0xae, 0x22, 0x23,
      0xb0, 0x03, 0x61, 0xa3, 0x96, 0x17, 0x7a, 0x9c, 0xb4, 0x10, 0xff, 0x61, 0xf2, 0x00, 0x15, 0xad]
  {
    hide WordBytes;
    AbcBytes0();
    AbcBytes1();
    AbcBytes2();
    AbcBytes3();
    AbcBytes4();
    AbcBytes5();
    AbcBytes6();
    AbcBytes7();
  }

  /** And the one the program computes for it. */
  lemma CodedAbcDigest()
    ensures Sha256.CodedHash(ABC) == [
      0xba, 0x78, 0x16, 0xbf, 0x8f, 0x01, 0xcf, 0xea, 0x41, 0x41, 0x40, 0xde, 0x5d, 0xae, 0x22, 0x23,
      0xb0, 0x03, 0x61, 0xa3, 0x96, 0x17, 0x7a, 0x9c, 0xb4, 0x10, 0xff, 0x61, 0xf2, 0x00, 0x15, 0xad]
  {
    hide Hash256, Sha256.CodedHash, STANDARD256;
    Sha256.HashAgrees(ABC);
    AbcDigest();
  }
}
