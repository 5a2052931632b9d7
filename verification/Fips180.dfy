/** The secure hash standard (FIPS 180-4): words, blocks, padding (section 5.1.1) and the block
    computations of SHA-1 (section 6.1.2) and SHA-256 (section 6.2.2). The constants and bitwise functions
    are parameters of both computations; STANDARD160 and STANDARD256 are the standard's own (section 4). */
module Fips180 {

  type Byte = x: nat | x < 0x100
  type Word = x: nat | x < 0x1_0000_0000
  type Block = s: seq<Byte> | |s| == 64 witness seq(64, _ => 0)

  const RANGE32: nat := 0x1_0000_0000
  const RANGE64: nat := 0x1_0000_0000_0000_0000

  // ----- words

  function Sum(x: nat): Word { x % RANGE32 }

  /** Word t of big-endian bytes. */
  function WordAt(data: seq<Byte>, t: nat): Word
    requires 4 * t + 4 <= |data|
  {
    var b0: nat, b1: nat, b2: nat, b3: nat := data[4 * t], data[4 * t + 1], data[4 * t + 2], data[4 * t + 3];
    0x100_0000 * b0 + 0x1_0000 * b1 + 0x100 * b2 + b3
  }

  function WordBytes(x: Word): (s: seq<Byte>)
    ensures |s| == 4 && WordAt(s, 0) == x
  {
    [x / 0x100_0000, x / 0x1_0000 % 0x100, x / 0x100 % 0x100, x % 0x100]
  }

  /** The 64-bit big-endian form of a length. */
  function Length64(n: nat): (s: seq<Byte>)
    requires n < RANGE64
    ensures |s| == 8
  {
    WordBytes(n / RANGE32) + WordBytes(n % RANGE32)
  }

  /** Read as two words, the length is the number of bits again. */
  lemma LengthMeans(n: nat)
    requires n < RANGE64
    ensures RANGE32 * WordAt(Length64(n), 0) + WordAt(Length64(n), 1) == n
  {
    hide WordBytes;
    var high, low := WordBytes(n / RANGE32), WordBytes(n % RANGE32);
    assert Length64(n)[..4] == high && Length64(n)[4..] == low;
    assert WordAt(Length64(n), 0) == WordAt(high, 0) && WordAt(Length64(n), 1) == WordAt(low, 0);
  }

  function Zeros(n: nat): (s: seq<Byte>)
    ensures |s| == n
    ensures forall i :: 0 <= i < n ==> s[i] == 0
  {
    seq(n, _ => 0)
  }

  // ----- padding: a 1 bit, zeros up to 8 bytes before the end of a block, the length in bits

  function ZeroCount(len: nat): nat {
    if len % 64 < 56 then 55 - len % 64 else 119 - len % 64
  }

  function Filling(len: nat): (s: seq<Byte>)
    ensures (len + |s|) % 64 == 0
  {
    ZerosFill(len);
    [0x80] + Zeros(ZeroCount(len)) + Length64(8 * len % RANGE64)
  }

  function Pad(msg: seq<Byte>): (s: seq<Byte>)
    ensures |s| % 64 == 0
  {
    msg + Filling(|msg|)
  }

  lemma ZerosFill(len: nat)
    ensures (len + 1 + ZeroCount(len) + 8) % 64 == 0
  {
    var q := len / 64;
    if len % 64 < 56 {
      assert len + 1 + ZeroCount(len) + 8 == 64 * (q + 1);
    } else {
      assert len + 1 + ZeroCount(len) + 8 == 64 * (q + 2);
    }
  }

  /** The number of zero bytes is the least one that fills up a block. */
  lemma PaddingIsLeast(len: nat, k: nat)
    requires (len + 1 + k + 8) % 64 == 0
    ensures ZeroCount(len) <= k
  {
  }

  // ----- hashing block by block

  function Blocks<S>(compress: (S, Block) -> S, s: S, data: seq<Byte>): S
    requires |data| % 64 == 0
    decreases |data|
  {
    if data == [] then s else Blocks(compress, compress(s, data[..64]), data[64..])
  }

  lemma {:induction false} BlocksConcat<S>(compress: (S, Block) -> S, s: S, a: seq<Byte>, b: seq<Byte>)
    requires |a| % 64 == 0 && |b| % 64 == 0
    ensures Blocks(compress, s, a + b) == Blocks(compress, Blocks(compress, s, a), b)
    decreases |a|
  {
    if a == [] {
      assert a + b == b;
    } else {
      assert (a + b)[..64] == a[..64] && (a + b)[64..] == a[64..] + b;
      BlocksConcat(compress, compress(s, a[..64]), a[64..], b);
    }
  }

  // ----- SHA-256

  datatype Functions256 = Functions256(
    k: nat -> Word, ch: (Word, Word, Word) -> Word, maj: (Word, Word, Word) -> Word,
    bigSigma0: Word -> Word, bigSigma1: Word -> Word, smallSigma0: Word -> Word, smallSigma1: Word -> Word)

  datatype State256 = State256(a: Word, b: Word, c: Word, d: Word, e: Word, f: Word, g: Word, h: Word)

  const INITIAL256 := State256(
    0x6a09e667, 0xbb67ae85, 0x3c6ef372, 0xa54ff53a, 0x510e527f, 0x9b05688c, 0x1f83d9ab, 0x5be0cd19)

  /** The message schedule, 64 words. */
  function W256(m: Functions256, block: Block, t: nat): Word {
    if t < 16 then WordAt(block, t)
    else Sum(m.smallSigma1(W256(m, block, t - 2)) + W256(m, block, t - 7)
             + m.smallSigma0(W256(m, block, t - 15)) + W256(m, block, t - 16))
  }

  function Round256(m: Functions256, r: State256, k: Word, w: Word): State256 {
    var t1 := Sum(r.h + m.bigSigma1(r.e) + m.ch(r.e, r.f, r.g) + k + w);
    var t2 := Sum(m.bigSigma0(r.a) + m.maj(r.a, r.b, r.c));
    State256(Sum(t1 + t2), r.a, r.b, r.c, Sum(r.d + t1), r.e, r.f, r.g)
  }

  function Schedule256(m: Functions256, block: Block): (w: seq<Word>)
    ensures |w| == 64
  {
    seq(64, t requires 0 <= t < 64 => W256(m, block, t))
  }

  function Rounds256(m: Functions256, s: State256, w: seq<Word>, t: nat): State256
    requires t <= 64 == |w|
  {
    if t == 0 then s else Round256(m, Rounds256(m, s, w, t - 1), m.k(t - 1), w[t - 1])
  }

  function Add256(s: State256, r: State256): State256 {
    State256(Sum(s.a + r.a), Sum(s.b + r.b), Sum(s.c + r.c), Sum(s.d + r.d),
             Sum(s.e + r.e), Sum(s.f + r.f), Sum(s.g + r.g), Sum(s.h + r.h))
  }

  function Compress256(m: Functions256): (State256, Block) -> State256 {
    (s: State256, block: Block) => Add256(s, Rounds256(m, s, Schedule256(m, block), 64))
  }

  function Digest256(s: State256): seq<Byte> {
    WordBytes(s.a) + WordBytes(s.b) + WordBytes(s.c) + WordBytes(s.d) +
    WordBytes(s.e) + WordBytes(s.f) + WordBytes(s.g) + WordBytes(s.h)
  }

  function Hash256(m: Functions256, msg: seq<Byte>): seq<Byte> {
    Digest256(Blocks(Compress256(m), INITIAL256, Pad(msg)))
  }

  // ----- SHA-1

  /** f depends on the round; the rotations are to the left. */
  datatype Functions160 = Functions160(
    f: (nat, Word, Word, Word) -> Word,
    rotl1: Word -> Word, rotl5: Word -> Word, rotl30: Word -> Word, xor4: (Word, Word, Word, Word) -> Word)

  datatype State160 = State160(a: Word, b: Word, c: Word, d: Word, e: Word)

  const INITIAL160 := State160(0x67452301, 0xefcdab89, 0x98badcfe, 0x10325476, 0xc3d2e1f0)

  function K160(t: nat): Word {
    if t < 20 then 0x5a827999 else if t < 40 then 0x6ed9eba1 else if t < 60 then 0x8f1bbcdc else 0xca62c1d6
  }

  /** The message schedule, 80 words. */
  function W160(m: Functions160, block: Block, t: nat): Word {
    if t < 16 then WordAt(block, t)
    else m.rotl1(m.xor4(W160(m, block, t - 3), W160(m, block, t - 8), W160(m, block, t - 14), W160(m, block, t - 16)))
  }

  function Round160(m: Functions160, r: State160, t: nat, w: Word): State160 {
    State160(Sum(m.rotl5(r.a) + m.f(t, r.b, r.c, r.d) + r.e + K160(t) + w), r.a, m.rotl30(r.b), r.c, r.d)
  }

  function Schedule160(m: Functions160, block: Block): (w: seq<Word>)
    ensures |w| == 80
  {
    seq(80, t requires 0 <= t < 80 => W160(m, block, t))
  }

  function Rounds160(m: Functions160, s: State160, w: seq<Word>, t: nat): State160
    requires t <= 80 == |w|
  {
    if t == 0 then s else Round160(m, Rounds160(m, s, w, t - 1), t - 1, w[t - 1])
  }

  function Add160(s: State160, r: State160): State160 {
    State160(Sum(s.a + r.a), Sum(s.b + r.b), Sum(s.c + r.c), Sum(s.d + r.d), Sum(s.e + r.e))
  }

  function Compress160(m: Functions160): (State160, Block) -> State160 {
    (s: State160, block: Block) => Add160(s, Rounds160(m, s, Schedule160(m, block), 80))
  }

  function Digest160(s: State160): seq<Byte> {
    WordBytes(s.a) + WordBytes(s.b) + WordBytes(s.c) + WordBytes(s.d) + WordBytes(s.e)
  }

  function Hash160(m: Functions160, msg: seq<Byte>): seq<Byte> {
    Digest160(Blocks(Compress160(m), INITIAL160, Pad(msg)))
  }

  // ----- the bitwise functions (section 4)

  type Bits = bv32

  function Rotl1(x: Bits): Bits { (x << 1) | (x >> 31) }
  function Rotl5(x: Bits): Bits { (x << 5) | (x >> 27) }
  function Rotl30(x: Bits): Bits { (x << 30) | (x >> 2) }
  function Xor4(x: Bits, y: Bits, z: Bits, u: Bits): Bits { x ^ y ^ z ^ u }
  function Ch(x: Bits, y: Bits, z: Bits): Bits { (x & y) ^ (!x & z) }
  function UpperSigma0(x: Bits): Bits { ((x >> 2) | (x << 30)) ^ ((x >> 13) | (x << 19)) ^ ((x >> 22) | (x << 10)) }
  function UpperSigma1(x: Bits): Bits { ((x >> 6) | (x << 26)) ^ ((x >> 11) | (x << 21)) ^ ((x >> 25) | (x << 7)) }
  function LowerSigma0(x: Bits): Bits { ((x >> 7) | (x << 25)) ^ ((x >> 18) | (x << 14)) ^ (x >> 3) }
  function LowerSigma1(x: Bits): Bits { ((x >> 17) | (x << 15)) ^ ((x >> 19) | (x << 13)) ^ (x >> 10) }
  function Parity(x: Bits, y: Bits, z: Bits): Bits { x ^ y ^ z }
  function Maj(x: Bits, y: Bits, z: Bits): Bits { (x & y) ^ (x & z) ^ (y & z) }

  const K256: seq<seq<Word>> := [
    [0x428a2f98, 0x71374491, 0xb5c0fbcf, 0xe9b5dba5, 0x3956c25b, 0x59f111f1, 0x923f82a4, 0xab1c5ed5],
    [0xd807aa98, 0x12835b01, 0x243185be, 0x550c7dc3, 0x72be5d74, 0x80deb1fe, 0x9bdc06a7, 0xc19bf174],
    [0xe49b69c1, 0xefbe4786, 0x0fc19dc6, 0x240ca1cc, 0x2de92c6f, 0x4a7484aa, 0x5cb0a9dc, 0x76f988da],
    [0x983e5152, 0xa831c66d, 0xb00327c8, 0xbf597fc7, 0xc6e00bf3, 0xd5a79147, 0x06ca6351, 0x14292967],
    [0x27b70a85, 0x2e1b2138, 0x4d2c6dfc, 0x53380d13, 0x650a7354, 0x766a0abb, 0x81c2c92e, 0x92722c85],
    [0xa2bfe8a1, 0xa81a664b, 0xc24b8b70, 0xc76c51a3, 0xd192e819, 0xd6990624, 0xf40e3585, 0x106aa070],
    [0x19a4c116, 0x1e376c08, 0x2748774c, 0x34b0bcb5, 0x391c0cb3, 0x4ed8aa4a, 0x5b9cca4f, 0x682e6ff3],
    [0x748f82ee, 0x78a5636f, 0x84c87814, 0x8cc70208, 0x90befffa, 0xa4506ceb, 0xbef9a3f7, 0xc67178f2] ]

  const STANDARD256 := Functions256(
    (t: nat) => if t < 64 then K256[t / 8][t % 8] else 0,
    (x: Word, y: Word, z: Word) => Ch(x as Bits, y as Bits, z as Bits) as Word,
    (x: Word, y: Word, z: Word) => Maj(x as Bits, y as Bits, z as Bits) as Word,
    (x: Word) => UpperSigma0(x as Bits) as Word,
    (x: Word) => UpperSigma1(x as Bits) as Word,
    (x: Word) => LowerSigma0(x as Bits) as Word,
    (x: Word) => LowerSigma1(x as Bits) as Word)

  function F160(t: nat, x: Bits, y: Bits, z: Bits): Bits {
    if t < 20 then Ch(x, y, z) else if t < 40 then Parity(x, y, z) else if t < 60 then Maj(x, y, z) else Parity(x, y, z)
  }

  const STANDARD160 := Functions160(
    (t: nat, x: Word, y: Word, z: Word) => F160(t, x as Bits, y as Bits, z as Bits) as Word,
    (x: Word) => Rotl1(x as Bits) as Word,
    (x: Word) => Rotl5(x as Bits) as Word,
    (x: Word) => Rotl30(x as Bits) as Word,
    (x: Word, y: Word, z: Word, u: Word) => Xor4(x as Bits, y as Bits, z as Bits, u as Bits) as Word)
}
