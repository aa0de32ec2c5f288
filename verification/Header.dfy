/** The L2TPv2 header parser, the decap key and the session hash (l2tvpp.h). */
module Header {
  import opened Bytes
  import Bits

  const UDP_PORT: u16 := 1701

  // Flag bits of section 3.1 of RFC 2661
  predicate HasT(f: u16) { f / 0x8000 % 2 == 1 }
  predicate HasL(f: u16) { f / 0x4000 % 2 == 1 }
  predicate HasS(f: u16) { f / 0x0800 % 2 == 1 }
  predicate HasO(f: u16) { f / 0x0200 % 2 == 1 }
  function Version(f: u16): nat { f % 16 }

  datatype Hdr =
    | Data(flags: u16, tid: u16, sid: u16, off: nat)
    | TooShort
    | NotV2
    | Control

  /** l2tvpp_parse_hdr: version, T bit and optional Length, then tunnel and session id.
      `off` is where the parse stops, right behind the session id. No byte past the end
      of `b` is read, whatever its length. */
  function ParseHdr(b: seq<byte>): (h: Hdr)
    ensures h.Data? ==> 6 <= h.off <= |b| && h.flags == ReadU16(b, 0)
    ensures h.Data? ==> h.tid == ReadU16(b, h.off - 4) && h.sid == ReadU16(b, h.off - 2)
    ensures h.Data? <==> |b| >= 6 && var f := ReadU16(b, 0);
      Version(f) == 2 && !HasT(f) && (HasL(f) ==> |b| >= 8)
    ensures h.Data? ==> (h.off == 8 <==> HasL(h.flags)) && (h.off == 6 <==> !HasL(h.flags))
  {
    if |b| < 6 then TooShort
    else
      var f := ReadU16(b, 0);
      if Version(f) != 2 then NotV2
      else if HasT(f) then Control
      else if HasL(f) then
        if |b| < 8 then TooShort
        else Data(f, ReadU16(b, 4), ReadU16(b, 6), 8)
      else Data(f, ReadU16(b, 2), ReadU16(b, 4), 6)
  }

  // ----- session key ----------------------------------------------------------

  datatype SessionId = SessionId(tid: u16, sid: u16)

  /** l2tvpp_session_key: the 64-bit word looked up in the session table. */
  function SessionKey(tid: u16, sid: u16): (k: u32)
  {
    tid * 0x1_0000 + sid
  }

  /** The packed key identifies the pair, so a table keyed by the word is a table
      keyed by the pair. */
  lemma SessionKeyIdentifiesPair(a: SessionId, b: SessionId)
    ensures SessionKey(a.tid, a.sid) == SessionKey(b.tid, b.sid) <==> a == b
    ensures SessionKey(a.tid, a.sid) / 0x1_0000 == a.tid && SessionKey(a.tid, a.sid) % 0x1_0000 == a.sid
  {}

  // ----- session hash ---------------------------------------------------------

  const WORDS: nat := 0x1_0000_0000

  function Multiply(k: u32): u32 { k * 0x9E37_79B1 % 0x1_0000_0000 }

  /** h ^= h >> 16 */
  function MixDown(h: u32): (m: u32)
  {
    MixInvolution(h);
    Bits.Xor(h, h / 0x1_0000)
  }

  function SessionHash(k: u32): u32 { MixDown(Multiply(k)) }

  /** Undoes the hash: the xor-shift is its own inverse, and the multiplier is odd. */
  function SessionUnhash(h: u32): u32 { MixDown(h) * 0x0E8B_2F51 % 0x1_0000_0000 }

  lemma Pow2Of32()
    ensures Bits.Pow2(32) == WORDS
  {
    assert Bits.Pow2(4) == 16 && Bits.Pow2(8) == 0x100;
    assert Bits.Pow2(12) == 0x1000 && Bits.Pow2(16) == 0x1_0000;
    assert Bits.Pow2(20) == 0x10_0000 && Bits.Pow2(24) == 0x100_0000;
    assert Bits.Pow2(28) == 0x1000_0000;
  }

  lemma Shr16(h: nat)
    ensures Bits.Shr(h, 16) == h / 0x1_0000
  {
    Bits.ShrShr(h, 4, 4);
    Bits.ShrShr(h, 8, 8);
    forall a: nat ensures Bits.Shr(a, 4) == a / 16 {}
    forall a: nat ensures Bits.Shr(a, 8) == a / 256 { Bits.ShrShr(a, 4, 4); }
  }

  lemma MixInvolution(h: u32)
    ensures Bits.Xor(h, h / 0x1_0000) < WORDS
    ensures var m := Bits.Xor(h, h / 0x1_0000); Bits.Xor(m, m / 0x1_0000) == h
  {
    Pow2Of32();
    var x := h / 0x1_0000;
    var m := Bits.Xor(h, x);
    Shr16(h);
    Shr16(m);
    Bits.XorBound(h, x, 32);
    Bits.XorShr(h, x, 16);
    Bits.ShrShr(h, 16, 16);
    Bits.ShrVanishes(h, 32);
    Bits.XorZero(x);
    Bits.XorCancel(h, x);
  }

  /** 0x9E3779B1 * 0x0E8B2F51 == 150801925 * 2^32 + 1, so a factor and then the other
      restore `k` up to a multiple of 2^32. */
  lemma FactorsCancel(k: int, q: int, r: int)
    ensures k * 0x9E37_79B1 == 0x1_0000_0000 * q + r ==>
      r * 0x0E8B_2F51 == 0x1_0000_0000 * (150801925 * k - q * 0x0E8B_2F51) + k
    ensures k * 0x0E8B_2F51 == 0x1_0000_0000 * q + r ==>
      r * 0x9E37_79B1 == 0x1_0000_0000 * (150801925 * k - q * 0x9E37_79B1) + k
  {}

  lemma LowWord(x: int, t: int, k: u32)
    requires x == 0x1_0000_0000 * t + k
    ensures x % 0x1_0000_0000 == k
  {}

  lemma HighAndLow(x: int)
    ensures x == 0x1_0000_0000 * (x / 0x1_0000_0000) + x % 0x1_0000_0000
  {}

  /** The two multipliers are inverse modulo 2^32. */
  lemma MultiplyInvertible(k: u32)
    ensures Multiply(k) * 0x0E8B_2F51 % 0x1_0000_0000 == k
  {
    var x: int := k * 0x9E37_79B1;
    var q: int, r: int := x / 0x1_0000_0000, Multiply(k);
    HighAndLow(x);
    FactorsCancel(k, q, r);
    LowWord(r * 0x0E8B_2F51, 150801925 * k - q * 0x0E8B_2F51, k);
  }

  lemma MultiplySurjective(k: u32)
    ensures Multiply(k * 0x0E8B_2F51 % 0x1_0000_0000) == k
  {
    var x: int := k * 0x0E8B_2F51;
    var q: int, r: int := x / 0x1_0000_0000, x % 0x1_0000_0000;
    HighAndLow(x);
    FactorsCancel(k, q, r);
    LowWord(r * 0x9E37_79B1, 150801925 * k - q * 0x9E37_79B1, k);
  }

  /** The session hash is a bijection on 32-bit words: no two sessions collide before
      the reduction modulo the worker count, and every word is some session's hash. */
  lemma SessionHashBijective(k: u32)
    ensures SessionUnhash(SessionHash(k)) == k
    ensures SessionHash(SessionUnhash(k)) == k
  {
    MixInvolution(Multiply(k));
    MultiplyInvertible(k);
    MixInvolution(k);
    MultiplySurjective(MixDown(k));
  }

  /** Bit `i` of a word. */
  function Bit(x: nat, i: nat): nat { Bits.Shr(x, i) % 2 }

  lemma MixBits(h: u32, i: nat)
    ensures Bit(MixDown(h), i) == (Bit(h, i) + Bit(h, i + 16)) % 2
  {
    hide Bits.Xor;
    hide Bits.Shr;
    MixInvolution(h);
    Shr16(h);
    Bits.XorShr(h, h / 0x1_0000, i);
    Bits.XorParts(Bits.Shr(h, i), Bits.Shr(h / 0x1_0000, i));
    Bits.ShrShr(h, 16, i);
  }

  /** The hash, bit by bit: the low 32 bits of k * 0x9E3779B1, each combined with the bit 16
      places above it. */
  lemma SessionHashBits(k: u32, i: nat)
    ensures var m := k * 0x9E37_79B1 % 0x1_0000_0000; Bit(SessionHash(k), i) == (Bit(m, i) + Bit(m, i + 16)) % 2
  {
    hide MixDown, Bit;
    MixBits(Multiply(k), i);
  }

  // ----- worker choice --------------------------------------------------------

  function Slot(h: u32, n: u32): u16
    requires n > 0
  {
    (1 + h % n) % 0x1_0000
  }

  /** l2tvpp_handoff_worker, including the truncation of the result to 16 bits. */
  function HandoffWorker(tid: u16, sid: u16, nWorkers: u32): u16
    requires nWorkers > 0
  {
    Slot(SessionHash(SessionKey(tid, sid)), nWorkers)
  }

  lemma SlotFits(h: u32, n: u32)
    requires 0 < n < 0x1_0000
    ensures 1 <= Slot(h, n) <= n && Slot(h, n) == 1 + h % n
  {}

  /** Every choice is a worker thread 1..n, as long as thread numbers fit in 16 bits. */
  lemma HandoffWorkerInRange(tid: u16, sid: u16, nWorkers: u32)
    requires 0 < nWorkers < 0x1_0000
    ensures 1 <= HandoffWorker(tid, sid, nWorkers) <= nWorkers
    ensures HandoffWorker(tid, sid, nWorkers) == 1 + SessionHash(SessionKey(tid, sid)) % nWorkers
  {
    SlotFits(SessionHash(SessionKey(tid, sid)), nWorkers);
  }

  /** The words below 2^32 that `hash` sends to residue `r`. */
  ghost function Share(hash: int -> int, n: nat, r: nat): set<int>
    requires n > 0
  {
    set k: int | 0 <= k < WORDS && hash(k) % n == r
  }

  ghost predicate Inverses(hash: int -> int, unhash: int -> int)
  {
    && (forall k: int :: 0 <= k < WORDS ==> 0 <= hash(k) < WORDS && unhash(hash(k)) == k)
    && (forall k: int :: 0 <= k < WORDS ==> 0 <= unhash(k) < WORDS && hash(unhash(k)) == k)
  }

  /** A bijective hash matches each share with one residue class. */
  lemma ShareSize(hash: int -> int, unhash: int -> int, n: nat, r: nat)
    requires r < n && Inverses(hash, unhash)
    ensures |Share(hash, n, r)| == |Bits.Residues(0, WORDS, n, r)|
  {
    var share, residues := Share(hash, n, r), Bits.Residues(0, WORDS, n, r);
    forall k | k in share ensures hash(k) in residues && unhash(hash(k)) == k {}
    forall h | h in residues ensures unhash(h) in share && hash(unhash(h)) == h {}
    Bits.MatchedSize(share, residues, hash, unhash);
  }

  const HASH_WORD: int -> int := (k: int) => if 0 <= k < 0x1_0000_0000 then SessionHash(k) else k
  const UNHASH_WORD: int -> int := (k: int) => if 0 <= k < 0x1_0000_0000 then SessionUnhash(k) else k

  /** Over the whole id space the workers' shares differ by at most one session:
      `Share(HASH_WORD, n, w - 1)` holds exactly the keys that worker `w` serves. */
  lemma SessionLoadsBalanced(w: u16, nWorkers: u32)
    requires 0 < nWorkers < 0x1_0000 && 1 <= w <= nWorkers
    ensures WORDS / nWorkers <= |Share(HASH_WORD, nWorkers, w - 1)| <= WORDS / nWorkers + 1
    ensures forall tid: u16, sid: u16 ::
      SessionKey(tid, sid) in Share(HASH_WORD, nWorkers, w - 1) <==> HandoffWorker(tid, sid, nWorkers) == w
  {
    hide HandoffWorker, SessionHash, SessionUnhash;
    forall k: int | 0 <= k < WORDS
      ensures UNHASH_WORD(HASH_WORD(k)) == k && HASH_WORD(UNHASH_WORD(k)) == k
    {
      SessionHashBijective(k);
    }
    ShareSize(HASH_WORD, UNHASH_WORD, nWorkers, w - 1);
    Bits.ResidueCount(0, WORDS, nWorkers, w - 1);
    forall tid: u16, sid: u16
      ensures SessionKey(tid, sid) in Share(HASH_WORD, nWorkers, w - 1) <==> HandoffWorker(tid, sid, nWorkers) == w
    {
      HandoffWorkerInRange(tid, sid, nWorkers);
    }
  }
}
