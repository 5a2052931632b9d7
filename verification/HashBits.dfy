/** Words as bit vectors, and the one-block message of the examples published with the standard. */
module HashBits {
  import opened Fips180

  // ----- words as bit vectors

  function Val(x: Bits): Word {
    x as Word
  }

  function Plus(x: Bits, y: Bits): Bits {
    x + y
  }

  lemma Back(x: Bits)
    ensures Val(x) as Bits == x
  {
  }

  /** The sum with its carry. */
  function Wide(x: Bits, y: Bits): bv33 {
    x as bv33 + y as bv33
  }

  function Num(c: bv33): int {
    c as int
  }

  predicate Sums(x: Bits, y: Bits, c: bv33, s: Bits) {
    c == x as bv33 + y as bv33 && s == x + y
  }

  /** s is c without its carry. */
  predicate Truncates(c: bv33, s: Bits) {
    s == (c & 0xFFFF_FFFF) as Bits
  }

  lemma SumsAre(x: Bits, y: Bits)
    ensures Sums(x, y, Wide(x, y), Plus(x, y))
  {
  }

  lemma CutSum(x: Bits, y: Bits, c: bv33, s: Bits)
    requires Sums(x, y, c, s)
    ensures Truncates(c, s)
  {
  }

  lemma WideSum(x: Bits, y: Bits)
    ensures Num(Wide(x, y)) == Val(x) + Val(y)
  {
  }

  lemma Cut(c: bv33, s: Bits)
    requires Truncates(c, s)
    ensures Num(c) == Val(s) || Num(c) == Val(s) + RANGE32
  {
  }

  /** Addition modulo 2^32 is addition of bit vectors. */
  lemma Adds(x: Bits, y: Bits)
    ensures Sum(Val(x) + Val(y)) == Val(Plus(x, y))
  {
    hide Val, Num, Plus, Wide, Sums, Truncates;
    SumsAre(x, y);
    CutSum(x, y, Wide(x, y), Plus(x, y));
    WideSum(x, y);
    Cut(Wide(x, y), Plus(x, y));
  }

  lemma AddsOn(n: nat, x: Bits, y: Bits)
    requires Sum(n) == Val(x)
    ensures Sum(n + Val(y)) == Val(Plus(x, y))
  {
    hide Val, Plus;
    Adds(x, y);
    SameSum(n + Val(y), Val(x) + Val(y), n / RANGE32);
  }

  lemma SameSum(m: nat, n: nat, q: nat)
    requires m == RANGE32 * q + n
    ensures Sum(m) == Sum(n)
  {
  }

  lemma Small(x: Word)
    ensures Sum(x) == x
  {
  }

  // ----- the functions both hashes use, bit by bit

  /** The bit of y where that of x is 1, and of z elsewhere. */
  function Choose(x: Bits, y: Bits, z: Bits): Bits { (x & y) | (!x & z) }

  /** 1 where at least two of the three are. */
  function Vote(x: Bits, y: Bits, z: Bits): Bits { (x & y) | (x & z) | (y & z) }

  lemma ChooseBits(x: Bits, y: Bits, z: Bits)
    ensures (x & y) ^ (!x & z) == (x & y) | (!x & z)
  {
  }

  lemma VoteBits(x: Bits, y: Bits, z: Bits)
    ensures (x & y) ^ (x & z) ^ (y & z) == (x & y) | (x & z) | (y & z)
  {
  }

  lemma ChooseIsCh(x: Bits, y: Bits, z: Bits)
    ensures Ch(x, y, z) == Choose(x, y, z)
  {
    ChooseBits(x, y, z);
  }

  lemma VoteIsMaj(x: Bits, y: Bits, z: Bits)
    ensures Maj(x, y, z) == Vote(x, y, z)
  {
    VoteBits(x, y, z);
  }

  // ----- the message "abc"

  const ABC: seq<Byte> := [0x61, 0x62, 0x63]

  /** Its one block: the message, a 1 bit, zeros, and its length of 24 bits. */
  lemma AbcBlock()
    ensures |Pad(ABC)| == 64 && WordAt(Pad(ABC), 0) == 0x61626380 && WordAt(Pad(ABC), 15) == 0x18
    ensures forall t :: 1 <= t < 15 ==> WordAt(Pad(ABC), t) == 0
  {
    var block := Pad(ABC);
    assert block == ABC + ([0x80] + Zeros(52) + Length64(24));
    assert Length64(24) == [0, 0, 0, 0, 0, 0, 0, 24];
    assert forall i :: 4 <= i < 63 ==> block[i] == 0;
  }
}
