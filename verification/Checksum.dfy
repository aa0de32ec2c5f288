/** The Internet checksum of an IPv4 header: from scratch (RFC 1071), and updated for the
    length alone (section 3 of RFC 1624) with the 64-bit end-around borrow and the fold
    that the fixup uses. Words are taken in the little-endian order of the host. */
module Checksum {
  import opened Bytes

  /** The host's view of the 16-bit word at offset `i`. */
  function Word(b: seq<byte>, i: nat): u16
    requires i + 2 <= |b|
  {
    b[i] as int + 256 * (b[i + 1] as int)
  }

  /** Sum of the words of `b`; a trailing odd byte is ignored. */
  function WordSum(b: seq<byte>): nat
  {
    if |b| < 2 then 0 else WordSum(b[..|b| - 2]) + Word(b, |b| - 2)
  }

  /** One's-complement value of a sum: carries out of 16 bits are added back in. */
  function OnesComplement(sum: nat): u16
  {
    if sum < 0x1_0000 then sum else OnesComplement(sum / 0x1_0000 + sum % 0x1_0000)
  }

  /** ip4_header_checksum_is_valid: the sum over the header, checksum included, is all ones. */
  predicate Valid(header: seq<byte>)
  {
    OnesComplement(WordSum(header)) == 0xFFFF
  }

  /** ip4_header_checksum of a 20-byte header: the checksum field counts as zero. */
  function HeaderChecksum(header: seq<byte>): u16
    requires |header| == 20
  {
    0xFFFF - OnesComplement(WordSum(header[10 := 0][11 := 0]))
  }

  const WRAP: nat := 0x1_0000_0000_0000_0000

  /** ip_csum_add_even on the complemented sum: subtract, with the borrow carried around. */
  function AddEven(c: nat, x: u16): (d: nat)
    requires c < WRAP
    ensures d < WRAP
  {
    if x <= c then c - x else 0x1_0000_0000_0000_0000 + c - x - 1
  }

  /** ip_csum_fold: 64 bits to 16. */
  function Fold(c: nat): u16
    requires c < WRAP
  {
    var c1 := c % 0x1_0000_0000 + c / 0x1_0000_0000;
    var c2 := c1 % 0x1_0000 + c1 / 0x1_0000;
    var c3 := c2 % 0x1_0000 + c2 / 0x1_0000;
    c3 % 0x1_0000 + c3 / 0x1_0000
  }

  /** The fixup's checksum: the cached length-zero checksum, adjusted for the length word.
      Removing the old length, zero, changes nothing. */
  function Incremental(cached: u16, length: u16): u16
  {
    Fold(AddEven(cached, length))
  }

  // ----- the arithmetic behind it ---------------------------------------------

  lemma CarryKeepsResidue(sum: nat, q: nat, r: nat)
    requires sum == 0x1_0000 * q + r
    ensures sum % 0xFFFF == (q + r) % 0xFFFF
  {
    var a, b := sum / 0xFFFF, (q + r) / 0xFFFF;
    var x, y := sum % 0xFFFF, (q + r) % 0xFFFF;
    assert sum == 0xFFFF * a + x && q + r == 0xFFFF * b + y;
    assert 0xFFFF * (a - q - b) == y - x;
  }

  /** A one's-complement value is the residue modulo 65535, with 65535 for a nonzero
      multiple. */
  lemma {:induction false} OnesComplementResidue(sum: nat)
    ensures OnesComplement(sum) % 0xFFFF == sum % 0xFFFF
    ensures OnesComplement(sum) == 0 <==> sum == 0
  {
    if sum >= 0x1_0000 {
      var next := sum / 0x1_0000 + sum % 0x1_0000;
      OnesComplementResidue(next);
      CarryKeepsResidue(sum, sum / 0x1_0000, sum % 0x1_0000);
    }
  }

  lemma SameValue(x: u16, y: u16)
    requires x % 0xFFFF == y % 0xFFFF && (x == 0 <==> y == 0)
    ensures x == y
  {}

  lemma ModAdd(a: nat, b: nat, w: nat)
    requires a % 0xFFFF == b % 0xFFFF
    ensures (a + w) % 0xFFFF == (b + w) % 0xFFFF
  {
    var q, q' := a / 0xFFFF, b / 0xFFFF;
    assert a + w == b + w + 0xFFFF * (q - q');
  }

  /** Adding one word to a sum adds it to the one's-complement value. */
  lemma OnesComplementAdd(sum: nat, w: u16)
    ensures OnesComplement(sum + w) == OnesComplement(OnesComplement(sum) + w)
  {
    var v := OnesComplement(sum);
    OnesComplementResidue(sum);
    ModAdd(sum, v, w);
    OnesComplementResidue(sum + w);
    OnesComplementResidue(v + w);
    SameValue(OnesComplement(sum + w), OnesComplement(v + w));
  }

  /** Folding 2^64 - 1 - k, the result of a borrow, gives the complement of k. */
  lemma FoldBorrow(k: nat)
    requires 1 <= k <= 0xFFFF
    ensures Fold(0xFFFF_FFFF_FFFF_FFFF - k) == if k == 0xFFFF then 0xFFFF else 0xFFFF - k
  {
    var c := 0xFFFF_FFFF_FFFF_FFFF - k;
    assert c == 0xFFFF_FFFF * 0x1_0000_0000 + (0xFFFF_FFFF - k);
    assert c / 0x1_0000_0000 == 0xFFFF_FFFF && c % 0x1_0000_0000 == 0xFFFF_FFFF - k;
    var c1 := 0x1_FFFF_FFFE - k;
    if k == 0xFFFF {
      assert c1 / 0x1_0000 == 0x1_FFFE && c1 % 0x1_0000 == 0xFFFF;
    } else {
      assert c1 == 0x1_FFFF * 0x1_0000 + (0xFFFE - k);
      assert c1 / 0x1_0000 == 0x1_FFFF && c1 % 0x1_0000 == 0xFFFE - k;
    }
  }

  lemma FoldSmall(c: u16)
    ensures Fold(c) == c
  {
    assert c / 0x1_0000_0000 == 0 && c % 0x1_0000_0000 == c;
    assert c / 0x1_0000 == 0 && c % 0x1_0000 == c;
  }

  /** A header is valid exactly if its words sum to a nonzero multiple of 65535; the version
      octet alone makes the sum nonzero. */
  lemma ValidIff(header: seq<byte>)
    requires |header| == 20 && header[0] != 0
    ensures Valid(header) <==> WordSum(header) % 0xFFFF == 0
  {
    hide WordSum;
    OnesComplementResidue(WordSum(header));
    HeaderSum(header);
  }

  /** What the incremental update computes, case by case. */
  lemma IncrementalValue(cached: u16, length: u16)
    ensures length <= cached ==> Incremental(cached, length) == cached - length
    ensures length > cached ==>
      Incremental(cached, length) == if length - cached == 0xFFFF then 0xFFFF else 0xFFFF - (length - cached)
  {
    if length > cached {
      FoldBorrow(length - cached);
      assert AddEven(cached, length) == 0xFFFF_FFFF_FFFF_FFFF - (length - cached);
    } else {
      FoldSmall(cached - length);
    }
  }

  /** What recomputing computes, from the checksum of the same header with length zero. */
  lemma RecomputedValue(sum0: nat, length: u16)
    requires sum0 > 0
    ensures var cached := 0xFFFF - OnesComplement(sum0);
      0xFFFF - OnesComplement(sum0 + length) == if length <= cached then cached - length
                                                 else 0xFFFF - (length - cached)
  {
    OnesComplementResidue(sum0);
    OnesComplementAdd(sum0, length);
    var v := OnesComplement(sum0) + length;
    if v >= 0x1_0000 {
      assert OnesComplement(v) == v / 0x1_0000 + v % 0x1_0000;
    }
  }

  /** For every nonzero header sum and every length, the incremental checksum is the one
      recomputed from scratch, except in the double-zero corner. */
  lemma IncrementalIsRecomputation(sum0: nat, length: u16)
    requires sum0 > 0
    ensures var cached := 0xFFFF - OnesComplement(sum0);
      Incremental(cached, length) == 0xFFFF - OnesComplement(sum0 + length)
      <==> !(cached == 0 && length == 0xFFFF)
  {
    IncrementalValue(0xFFFF - OnesComplement(sum0), length);
    RecomputedValue(sum0, length);
  }

  /** Corner included, a header carrying the incremental checksum verifies. */
  lemma IncrementalVerifies(sum0: nat, length: u16)
    requires sum0 > 0
    ensures OnesComplement(sum0 + length + Incremental(0xFFFF - OnesComplement(sum0), length)) == 0xFFFF
  {
    var cached := 0xFFFF - OnesComplement(sum0);
    var update: int := Incremental(cached, length);
    var value: int := OnesComplement(sum0 + length);
    IncrementalValue(cached, length);
    RecomputedValue(sum0, length);
    assert value + update == 0xFFFF || (value == 0xFFFF && update == 0xFFFF);
    OnesComplementAdd(sum0 + length, update);
    assert OnesComplement(0x1_FFFE) == OnesComplement(0xFFFF);
  }

  // ----- sums over headers ----------------------------------------------------

  lemma OneWord(h: seq<byte>, i: nat)
    requires i + 2 <= |h|
    ensures WordSum(h[..i + 2]) == WordSum(h[..i]) + Word(h, i)
  {
    assert h[..i + 2][..i] == h[..i];
  }

  /** The sum of a 20-byte header is the sum of its ten words. */
  lemma HeaderSum(h: seq<byte>)
    requires |h| == 20
    ensures WordSum(h) == Word(h, 0) + Word(h, 2) + Word(h, 4) + Word(h, 6) + Word(h, 8)
                          + Word(h, 10) + Word(h, 12) + Word(h, 14) + Word(h, 16) + Word(h, 18)
  {
    assert WordSum(h[..0]) == 0;
    hide WordSum, Word;
    OneWord(h, 0);
    OneWord(h, 2);
    OneWord(h, 4);
    OneWord(h, 6);
    OneWord(h, 8);
    OneWord(h, 10);
    OneWord(h, 12);
    OneWord(h, 14);
    OneWord(h, 16);
    OneWord(h, 18);
    assert h[..20] == h;
  }
}
