/** Encapsulation (l2tvpp.c): the precomputed rewrite and the per-packet fixup. */
module Encap {
  import opened Bytes
  import opened Header
  import opened Input
  import opened Objects
  import opened Classify
  import Checksum

  datatype Link = LinkIp4 | LinkIp6 | LinkOther

  function LinkProtocol(link: Link): Option<u16>
  {
    match link
    case LinkIp4 => Some(PPP_IP4)
    case LinkIp6 => Some(PPP_IP6)
    case LinkOther => None
  }

  /** The octet at offset `i` of the template: IPv4 at 0, UDP at 20, L2TP at 28, PPP at 34. */
  function TemplateByte(t: Tunnel, s: Session, proto: u16, i: nat): byte
  {
    if i == 0 then 0x45                                  // version 4, 20-byte header
    else if i == 8 then 64                               // TTL
    else if i == 9 then PROTO_UDP
    else if 12 <= i < 16 then t.localIp[i - 12]
    else if 16 <= i < 20 then t.peerIp[i - 16]
    else if 20 <= i < 22 then PutU16(t.localPort)[i - 20]
    else if 22 <= i < 24 then PutU16(t.peerPort)[i - 22]
    else if 28 <= i < 30 then PutU16(2)[i - 28]          // version 2, no L, S or O
    else if 30 <= i < 32 then PutU16(t.peerTid)[i - 30]
    else if 32 <= i < 34 then PutU16(s.peerSid)[i - 32]
    else if i == 34 then 0xff
    else if i == 35 then 0x03
    else if 36 <= i < 38 then PutU16(proto)[i - 36]
    else 0                                               // tos, ids, lengths, checksums
  }

  /** Outer IPv4, UDP, L2TP and PPP headers with both lengths and the checksum still zero. */
  function Rewrite(t: Tunnel, s: Session, proto: u16): (rw: seq<byte>)
    ensures |rw| == 38
  {
    seq(38, i requires 0 <= i < 38 => TemplateByte(t, s, proto, i))
  }

  /** encap_ip_csum0: the checksum of the outer header while its length is zero. */
  function CachedChecksum(t: Tunnel, s: Session, proto: u16): u16
  {
    Checksum.HeaderChecksum(Rewrite(t, s, proto)[..20])
  }

  /** A session keeps one such checksum for both links: the outer IP header is the same. */
  lemma LinksShareChecksum(t: Tunnel, s: Session, proto: u16, qroto: u16)
    ensures CachedChecksum(t, s, proto) == CachedChecksum(t, s, qroto)
  {
    assert Rewrite(t, s, proto)[..20] == Rewrite(t, s, qroto)[..20];
  }

  /** The length field: 16 bits of the true length. */
  function Length16(n: nat): (len: u16)
    ensures len <= n
  {
    n % 0x1_0000
  }

  function SwapBytes(x: u16): u16 { x / 256 + 256 * (x % 256) }

  /** Total length, checksum (host order) and UDP length, written over the template's zeros. */
  function Patch(pkt: seq<byte>, len: u16, csum: u16, udpLen: u16): (r: seq<byte>)
    requires |pkt| >= 28
    ensures |r| == |pkt|
  {
    pkt[2 := len / 256][3 := len % 256]
       [10 := csum % 256][11 := csum / 256]
       [24 := udpLen / 256][25 := udpLen % 256]
  }

  /** l2tvpp_fixup on a packet that starts with the rewrite. */
  function Fixup(pkt: seq<byte>, csum0: u16): (r: seq<byte>)
    requires |pkt| >= 28
    ensures |r| == |pkt|
  {
    var len := Length16(|pkt|);
    Patch(pkt, len, Checksum.Incremental(csum0, SwapBytes(len)), UdpLength(len))
  }

  /** The UDP length, 20 less than the total length, in 16 bits. */
  function UdpLength(len: u16): (r: u16)
    ensures (r + 20) % 0x1_0000 == len
  {
    (len + 0x1_0000 - 20) % 0x1_0000
  }

  /** What leaves for the LAC when `inner` is routed to the session interface. */
  function Encapsulate(t: Tunnel, s: Session, proto: u16, inner: seq<byte>): (pkt: seq<byte>)
    ensures |pkt| == 38 + |inner|
  {
    Fixup(Rewrite(t, s, proto) + inner, CachedChecksum(t, s, proto))
  }

  // ----- the in-place forms ---------------------------------------------------

  /** l2tvpp_build_rewrite_i: fill the template field by field; the checksum is taken when
      the IP header is complete, before the rest is written. */
  method BuildRewrite(t: Tunnel, s: Session, link: Link)
    returns (rw: array<byte>, csum0: u16, built: bool)
    ensures fresh(rw)
    ensures built <==> link != LinkOther
    ensures built ==> rw[..] == Rewrite(t, s, LinkProtocol(link).value)
                      && csum0 == CachedChecksum(t, s, LinkProtocol(link).value)
  {
    rw, csum0, built := new byte[38](_ => 0), 0, link != LinkOther;
    if built {
      var proto := LinkProtocol(link).value;
      FillIp(rw, t, s, proto);
      assert rw[..20] == Rewrite(t, s, proto)[..20];
      csum0 := Checksum.HeaderChecksum(rw[..20]);
      FillRest(rw, t, s, proto);
      assert rw[..] == Rewrite(t, s, proto);
    }
  }

  method Store16(a: array<byte>, at: nat, x: u16)
    requires at + 2 <= a.Length
    modifies a
    ensures a[at] == x / 256 && a[at + 1] == x % 256
    ensures forall i :: 0 <= i < a.Length && i != at && i != at + 1 ==> a[i] == old(a[i])
  {
    a[at], a[at + 1] := x / 256, x % 256;
  }

  method StoreIp4(a: array<byte>, at: nat, ip: Ip4)
    requires at + 4 <= a.Length
    modifies a
    ensures a[at..at + 4] == ip
    ensures forall i :: 0 <= i < a.Length && !(at <= i < at + 4) ==> a[i] == old(a[i])
  {
    a[at], a[at + 1], a[at + 2], a[at + 3] := ip[0], ip[1], ip[2], ip[3];
  }

  method FillIp(rw: array<byte>, t: Tunnel, ghost s: Session, ghost proto: u16)
    requires rw.Length == 38 && forall i :: 0 <= i < 38 ==> rw[i] == 0
    modifies rw
    ensures forall i :: 0 <= i < 20 ==> rw[i] == TemplateByte(t, s, proto, i)
    ensures forall i :: 20 <= i < 38 ==> rw[i] == 0
  {
    rw[0], rw[8], rw[9] := 0x45, 64, PROTO_UDP;
    StoreIp4(rw, 12, t.localIp);
    assert forall i :: 12 <= i < 16 ==> rw[i] == rw[12..16][i - 12];
    StoreIp4(rw, 16, t.peerIp);
    assert forall i :: 16 <= i < 20 ==> rw[i] == rw[16..20][i - 16];
  }

  method FillRest(rw: array<byte>, t: Tunnel, s: Session, proto: u16)
    requires rw.Length == 38
    requires forall i :: 0 <= i < 20 ==> rw[i] == TemplateByte(t, s, proto, i)
    requires forall i :: 20 <= i < 38 ==> rw[i] == 0
    modifies rw
    ensures forall i :: 0 <= i < 38 ==> rw[i] == TemplateByte(t, s, proto, i)
  {
    Store16(rw, 20, t.localPort);
    Store16(rw, 22, t.peerPort);
    Store16(rw, 28, 2);
    Store16(rw, 30, t.peerTid);
    Store16(rw, 32, s.peerSid);
    rw[34], rw[35] := 0xff, 0x03;
    Store16(rw, 36, proto);
  }

  method PatchInPlace(a: array<byte>, len: u16, csum: u16, udpLen: u16)
    requires a.Length >= 28
    modifies a
    ensures a[..] == Patch(old(a[..]), len, csum, udpLen)
  {
    a[2], a[3] := len / 256, len % 256;
    a[10], a[11] := csum % 256, csum / 256;
    a[24], a[25] := udpLen / 256, udpLen % 256;
  }

  method FixupInPlace(a: array<byte>, csum0: u16)
    requires a.Length >= 28
    modifies a
    ensures a[..] == Fixup(old(a[..]), csum0)
  {
    var len := Length16(a.Length);
    var csum := Checksum.Incremental(csum0, SwapBytes(len));
    PatchInPlace(a, len, csum, UdpLength(len));
  }

  // ----- the outer checksum ---------------------------------------------------

  /** A word with the same two octets. */
  lemma SameWord(h: seq<byte>, r: seq<byte>, i: nat)
    requires i + 2 <= |h| == |r| && h[i] == r[i] && h[i + 1] == r[i + 1]
    ensures Checksum.Word(h, i) == Checksum.Word(r, i)
  {}

  /** Two headers that agree outside length and checksum. */
  lemma SumsDiffer(h: seq<byte>, r: seq<byte>)
    requires |h| == |r| == 20 && forall i :: 0 <= i < 20 && i !in {2, 3, 10, 11} ==> h[i] == r[i]
    ensures Checksum.WordSum(h) - Checksum.Word(h, 2) - Checksum.Word(h, 10)
            == Checksum.WordSum(r) - Checksum.Word(r, 2) - Checksum.Word(r, 10)
  {
    hide Checksum.Word;
    hide Checksum.WordSum;
    Checksum.HeaderSum(h);
    Checksum.HeaderSum(r);
    SameWord(h, r, 0);
    SameWord(h, r, 4);
    SameWord(h, r, 6);
    SameWord(h, r, 8);
    SameWord(h, r, 12);
    SameWord(h, r, 14);
    SameWord(h, r, 16);
    SameWord(h, r, 18);
  }

  /** The header words of a patched packet: those of the template, plus length and checksum. */
  lemma PatchedSum(rw: seq<byte>, inner: seq<byte>, len: u16, csum: u16, udpLen: u16)
    requires |rw| == 38 && rw[2] == rw[3] == rw[10] == rw[11] == 0
    ensures var h := Patch(rw + inner, len, csum, udpLen)[..20];
      && Checksum.WordSum(h) == Checksum.WordSum(rw[..20]) + SwapBytes(len) + csum
      && Checksum.WordSum(h[10 := 0][11 := 0]) == Checksum.WordSum(rw[..20]) + SwapBytes(len)
      && Checksum.Word(h, 10) == csum
  {
    hide Checksum.WordSum;
    var h, r := Patch(rw + inner, len, csum, udpLen)[..20], rw[..20];
    var z := h[10 := 0][11 := 0];
    assert forall i :: 0 <= i < 20 && i !in {2, 3, 10, 11} ==> h[i] == r[i];
    SumsDiffer(h, r);
    SumsDiffer(z, r);
    assert h[2] == len / 256 && h[3] == len % 256 && h[10] == csum % 256 && h[11] == csum / 256;
    assert Checksum.Word(h, 2) == SwapBytes(len) == Checksum.Word(z, 2);
    assert Checksum.Word(h, 10) == csum && Checksum.Word(z, 10) == 0;
    assert Checksum.Word(r, 2) == 0 && Checksum.Word(r, 10) == 0;
  }

  /** The word sum of the template's IP header. */
  ghost function TemplateSum(t: Tunnel, s: Session, proto: u16): nat
  {
    Checksum.WordSum(Rewrite(t, s, proto)[..20])
  }

  lemma TemplateFacts(t: Tunnel, s: Session, proto: u16)
    ensures TemplateSum(t, s, proto) > 0
    ensures CachedChecksum(t, s, proto) == 0xFFFF - Checksum.OnesComplement(TemplateSum(t, s, proto))
  {
    var h := Rewrite(t, s, proto)[..20];
    Checksum.HeaderSum(h);
    assert Checksum.Word(h, 0) == 0x45;
    assert h[10 := 0][11 := 0] == h;
  }

  /** Every encapsulated packet carries an outer header that verifies. */
  lemma EncapChecksumVerifies(t: Tunnel, s: Session, proto: u16, inner: seq<byte>)
    ensures Checksum.Valid(Encapsulate(t, s, proto, inner)[..20])
  {
    var len, csum0 := Length16(38 + |inner|), CachedChecksum(t, s, proto);
    TemplateFacts(t, s, proto);
    PatchedVerifies(Rewrite(t, s, proto), inner, csum0, len, UdpLength(len));
  }

  lemma PatchedVerifies(rw: seq<byte>, inner: seq<byte>, csum0: u16, len: u16, udpLen: u16)
    requires |rw| == 38 && rw[2] == rw[3] == rw[10] == rw[11] == 0
    requires Checksum.WordSum(rw[..20]) > 0
    requires csum0 == 0xFFFF - Checksum.OnesComplement(Checksum.WordSum(rw[..20]))
    ensures Checksum.Valid(Patch(rw + inner, len, Checksum.Incremental(csum0, SwapBytes(len)), udpLen)[..20])
  {
    PatchedSum(rw, inner, len, Checksum.Incremental(csum0, SwapBytes(len)), udpLen);
    Checksum.IncrementalVerifies(Checksum.WordSum(rw[..20]), SwapBytes(len));
  }

  /** The checksum in the packet is the one recomputed from the whole header, unless the
      cached checksum is zero and the length is 65535. */
  lemma EncapChecksumIsRecomputed(t: Tunnel, s: Session, proto: u16, inner: seq<byte>)
    ensures var pkt := Encapsulate(t, s, proto, inner);
      Checksum.Word(pkt[..20], 10) == Checksum.HeaderChecksum(pkt[..20])
      <==> !(CachedChecksum(t, s, proto) == 0 && Length16(|pkt|) == 0xFFFF)
  {
    var len, csum0 := Length16(38 + |inner|), CachedChecksum(t, s, proto);
    var csum := Checksum.Incremental(csum0, SwapBytes(len));
    TemplateFacts(t, s, proto);
    PatchedSum(Rewrite(t, s, proto), inner, len, csum, UdpLength(len));
    assert Checksum.HeaderChecksum(Encapsulate(t, s, proto, inner)[..20])
        == 0xFFFF - Checksum.OnesComplement(TemplateSum(t, s, proto) + SwapBytes(len));
    RecomputedIff(TemplateSum(t, s, proto), csum0, len);
  }

  lemma RecomputedIff(sum0: nat, csum0: u16, len: u16)
    requires sum0 > 0 && csum0 == 0xFFFF - Checksum.OnesComplement(sum0)
    ensures Checksum.Incremental(csum0, SwapBytes(len)) == 0xFFFF - Checksum.OnesComplement(sum0 + SwapBytes(len))
            <==> !(csum0 == 0 && len == 0xFFFF)
  {
    hide SwapBytes;
    hide Checksum.Incremental;
    hide Checksum.OnesComplement;
    AllOnes(len);
    Checksum.IncrementalIsRecomputation(sum0, SwapBytes(len));
  }

  lemma AllOnes(x: u16)
    ensures SwapBytes(x) == 0xFFFF <==> x == 0xFFFF
  {}

  /** The corner exists: from 64.0.0.0 to 58.238.0.0 the cached checksum is zero, and a
      packet of total length 65535 carries 0xFFFF where recomputation gives 0. */
  lemma DoubleZeroCorner(t: Tunnel, s: Session, inner: seq<byte>)
    requires t.localIp == [0x40, 0, 0, 0] && t.peerIp == [0x3a, 0xee, 0, 0] && |inner| == 0xFFFF - 38
    ensures CachedChecksum(t, s, PPP_IP4) == 0
    ensures var h := Encapsulate(t, s, PPP_IP4, inner)[..20]; Checksum.Word(h, 10) != Checksum.HeaderChecksum(h)
  {
    hide Encapsulate, CachedChecksum;
    hide Checksum.HeaderChecksum;
    CornerIsCachedZero(t, s);
    EncapChecksumIsRecomputed(t, s, PPP_IP4, inner);
  }

  lemma CornerIsCachedZero(t: Tunnel, s: Session)
    requires t.localIp == [0x40, 0, 0, 0] && t.peerIp == [0x3a, 0xee, 0, 0]
    ensures CachedChecksum(t, s, PPP_IP4) == 0
  {
    var h := Rewrite(t, s, PPP_IP4)[..20];
    TemplateFacts(t, s, PPP_IP4);
    Checksum.HeaderSum(h);
    assert h[0] == 0x45 && h[8] == 64 && h[9] == 17 && h[12] == 0x40 && h[16] == 0x3a && h[17] == 0xee;
    assert Checksum.WordSum(h) == 0x45 + 0x40 + 0x1100 + 0x40 + 0x3a + 0xee00;
  }

  // ----- the round trip -------------------------------------------------------

  /** The bytes after the UDP header are the template's and the inner packet. */
  lemma TailUnpatched(t: Tunnel, s: Session, proto: u16, inner: seq<byte>)
    ensures Encapsulate(t, s, proto, inner)[28..]
            == [0, 2, t.peerTid / 256, t.peerTid % 256, s.peerSid / 256, s.peerSid % 256,
                0xff, 0x03, proto / 256, proto % 256] + inner
  {
    var rw := Rewrite(t, s, proto);
    assert (rw + inner)[28..] == rw[28..] + inner;
    assert rw[28..] == [0, 2, t.peerTid / 256, t.peerTid % 256, s.peerSid / 256, s.peerSid % 256,
                        0xff, 0x03, proto / 256, proto % 256];
    var len := Length16(38 + |inner|);
    PatchTail(rw + inner, len, Checksum.Incremental(CachedChecksum(t, s, proto), SwapBytes(len)), UdpLength(len));
  }

  lemma PatchTail(pkt: seq<byte>, len: u16, csum: u16, udpLen: u16)
    requires |pkt| >= 28
    ensures Patch(pkt, len, csum, udpLen)[28..] == pkt[28..]
  {}

  lemma PlainHeader(tid: u16, sid: u16, proto: u16, inner: seq<byte>, known: map<SessionId, nat>)
    requires proto in {PPP_IP4, PPP_IP6} && SessionId(tid, sid) in known
    ensures var b := [0, 2, tid / 256, tid % 256, sid / 256, sid % 256, 0xff, 0x03, proto / 256, proto % 256] + inner;
      && ParseHdr(b) == Data(2, tid, sid, 6)
      && Walk(b, known) == Deliver(SessionId(tid, sid), proto, 10, Decap)
      && b[10..] == inner
  {
    var b := [0, 2, tid / 256, tid % 256, sid / 256, sid % 256, 0xff, 0x03, proto / 256, proto % 256] + inner;
    assert b[0] == 0 && b[1] == 2 && b[2] == tid / 256 && b[3] == tid % 256;
    assert b[4] == sid / 256 && b[5] == sid % 256;
    assert ReadU16(b, 0) == 2 && ReadU16(b, 2) == tid && ReadU16(b, 4) == sid;
    assert b[6] == 0xff && b[7] == 0x03 && b[8] == 0 && b[9] == proto;
  }

  /** l2tvpp-input at the far end: the walk over the encapsulated packet finds the peer's
      ids, the link's protocol and exactly the inner bytes. */
  lemma EncapRoundTrip(t: Tunnel, s: Session, link: Link, inner: seq<byte>, known: map<SessionId, nat>)
    requires link != LinkOther && SessionId(t.peerTid, s.peerSid) in known
    ensures var proto := LinkProtocol(link).value; var pkt := Encapsulate(t, s, proto, inner);
      && Walk(pkt[28..], known) == Deliver(SessionId(t.peerTid, s.peerSid), proto, 10, Decap)
      && pkt[28..][10..] == inner
  {
    var proto := LinkProtocol(link).value;
    TailUnpatched(t, s, proto, inner);
    PlainHeader(t.peerTid, s.peerSid, proto, inner, known);
  }

  /** An untagged Ethernet frame around `pkt`; `macs` are the two addresses. */
  function Frame(macs: seq<byte>, pkt: seq<byte>): (f: seq<byte>)
    requires |macs| == 12
  {
    macs + [0x08, 0x00] + pkt
  }

  /** The outer headers, field by field: addresses and ports of the tunnel, no fragment
      bits, consistent lengths, no UDP checksum. */
  lemma OuterFields(t: Tunnel, s: Session, proto: u16, inner: seq<byte>)
    ensures var pkt := Encapsulate(t, s, proto, inner);
      && pkt[0] == 0x45 && pkt[1] == 0 && ReadU16(pkt, 4) == 0 && ReadU16(pkt, 6) == 0
      && pkt[8] == 64 && pkt[9] == 17
      && ReadU16(pkt, 2) == |pkt| % 0x1_0000
      && pkt[12..16] == t.localIp && pkt[16..20] == t.peerIp
      && ReadU16(pkt, 20) == t.localPort && ReadU16(pkt, 22) == t.peerPort
      && (ReadU16(pkt, 24) + 20) % 0x1_0000 == ReadU16(pkt, 2) && ReadU16(pkt, 26) == 0
  {
    hide Patch, Rewrite, CachedChecksum, SwapBytes, UdpLength;
    hide Checksum.Incremental;
    var len := Length16(38 + |inner|);
    PatchFields(t, s, proto, inner, len, Checksum.Incremental(CachedChecksum(t, s, proto), SwapBytes(len)),
                UdpLength(len));
  }

  lemma PatchFields(t: Tunnel, s: Session, proto: u16, inner: seq<byte>, len: u16, csum: u16, udpLen: u16)
    ensures var pkt := Patch(Rewrite(t, s, proto) + inner, len, csum, udpLen);
      && pkt[0] == 0x45 && pkt[1] == 0 && ReadU16(pkt, 4) == 0 && ReadU16(pkt, 6) == 0
      && pkt[8] == 64 && pkt[9] == 17
      && ReadU16(pkt, 2) == len && pkt[12..16] == t.localIp && pkt[16..20] == t.peerIp
      && ReadU16(pkt, 20) == t.localPort && ReadU16(pkt, 22) == t.peerPort
      && ReadU16(pkt, 24) == udpLen && ReadU16(pkt, 26) == 0
  {
    assert TemplateByte(t, s, proto, 1) == TemplateByte(t, s, proto, 4) == TemplateByte(t, s, proto, 5) == 0;
    hide TemplateByte;
    var pkt := Patch(Rewrite(t, s, proto) + inner, len, csum, udpLen);
    TemplateAddresses(t, s, proto);
    assert forall i :: 12 <= i < 24 ==> pkt[i] == TemplateByte(t, s, proto, i);
  }

  /** The template, octet by octet. */
  lemma TemplateAddresses(t: Tunnel, s: Session, proto: u16)
    ensures forall i :: 12 <= i < 16 ==> TemplateByte(t, s, proto, i) == t.localIp[i - 12]
    ensures forall i :: 16 <= i < 20 ==> TemplateByte(t, s, proto, i) == t.peerIp[i - 16]
    ensures TemplateByte(t, s, proto, 0) == 0x45 && TemplateByte(t, s, proto, 8) == 64
    ensures TemplateByte(t, s, proto, 9) == PROTO_UDP
    ensures TemplateByte(t, s, proto, 6) == 0 && TemplateByte(t, s, proto, 7) == 0
    ensures TemplateByte(t, s, proto, 20) == t.localPort / 256 && TemplateByte(t, s, proto, 21) == t.localPort % 256
    ensures TemplateByte(t, s, proto, 22) == t.peerPort / 256 && TemplateByte(t, s, proto, 23) == t.peerPort % 256
    ensures TemplateByte(t, s, proto, 26) == 0 && TemplateByte(t, s, proto, 27) == 0
  {}

  predicate PacketChecks(pkt: seq<byte>, localIps: seq<Ip4>)
    requires |pkt| >= 34
  {
    && pkt[0] == 0x45 && pkt[9] == PROTO_UDP && ReadU16(pkt, 6) % 0x2000 == 0
    && ReadU16(pkt, 6) / 0x2000 % 2 == 0 && Checksum.Valid(pkt[..20])
    && 34 <= ReadU16(pkt, 2) <= |pkt| && pkt[16..20] in localIps
    && ReadU16(pkt, 22) == UDP_PORT && ParseHdr(pkt[28..]).Data?
  }

  /** The fast-path checks on a framed packet, as checks on the packet. */
  lemma FramedChecks(macs: seq<byte>, pkt: seq<byte>, localIps: seq<Ip4>)
    requires |macs| == 12 && |pkt| >= 34
    ensures OuterChecks(Frame(macs, pkt), localIps) <==> PacketChecks(pkt, localIps)
  {
    var f := Frame(macs, pkt);
    assert f[30..34] == pkt[16..20] && f[14..34] == pkt[..20] && f[42..] == pkt[28..];
    assert forall i :: 0 <= i < |pkt| ==> f[14 + i] == pkt[i];
    assert ReadU16(f, 12) == ETHERTYPE_IP4 && ReadU16(f, 16) == ReadU16(pkt, 2);
    assert ReadU16(f, 20) == ReadU16(pkt, 6) && ReadU16(f, 36) == ReadU16(pkt, 22);
  }

  /** Back to back: what this encapsulation emits passes every fast-path check of a node
      that owns the peer address exactly when it is sent to port 1701 and its 16-bit total
      length did not wrap below 34. */
  lemma BackToBackFast(t: Tunnel, s: Session, link: Link, inner: seq<byte>, macs: seq<byte>, localIps: seq<Ip4>)
    requires link != LinkOther && |macs| == 12 && t.peerIp in localIps
    ensures var proto := LinkProtocol(link).value;
      OuterChecks(Frame(macs, Encapsulate(t, s, proto, inner)), localIps)
      <==> t.peerPort == UDP_PORT && Length16(38 + |inner|) >= 34
  {
    EncapPasses(t, s, link, inner, localIps);
    FramedChecks(macs, Encapsulate(t, s, LinkProtocol(link).value, inner), localIps);
  }

  lemma EncapPasses(t: Tunnel, s: Session, link: Link, inner: seq<byte>, localIps: seq<Ip4>)
    requires link != LinkOther && t.peerIp in localIps
    ensures PacketChecks(Encapsulate(t, s, LinkProtocol(link).value, inner), localIps)
            <==> t.peerPort == UDP_PORT && Length16(38 + |inner|) >= 34
  {
    EncapFields(t, s, link, inner);
    PassesIff(Encapsulate(t, s, LinkProtocol(link).value, inner), t, Length16(38 + |inner|), localIps);
  }

  predicate Fields(pkt: seq<byte>, t: Tunnel, len: u16)
  {
    && |pkt| >= 38 && len <= |pkt|
    && pkt[0] == 0x45 && pkt[9] == PROTO_UDP && ReadU16(pkt, 6) == 0
    && ReadU16(pkt, 2) == len && pkt[16..20] == t.peerIp && ReadU16(pkt, 22) == t.peerPort
    && Checksum.Valid(pkt[..20]) && ParseHdr(pkt[28..]).Data?
  }

  lemma EncapFields(t: Tunnel, s: Session, link: Link, inner: seq<byte>)
    requires link != LinkOther
    ensures Fields(Encapsulate(t, s, LinkProtocol(link).value, inner), t, Length16(38 + |inner|))
  {
    var proto := LinkProtocol(link).value;
    EncapChecksumVerifies(t, s, proto, inner);
    EncapIsData(t, s, link, inner);
    OuterFields(t, s, proto, inner);
  }

  lemma EncapIsData(t: Tunnel, s: Session, link: Link, inner: seq<byte>)
    requires link != LinkOther
    ensures ParseHdr(Encapsulate(t, s, LinkProtocol(link).value, inner)[28..]).Data?
  {
    TailUnpatched(t, s, LinkProtocol(link).value, inner);
    PlainHeader(t.peerTid, s.peerSid, LinkProtocol(link).value, inner, map[SessionId(t.peerTid, s.peerSid) := 0]);
  }

  lemma PassesIff(pkt: seq<byte>, t: Tunnel, len: u16, localIps: seq<Ip4>)
    requires Fields(pkt, t, len) && t.peerIp in localIps
    ensures PacketChecks(pkt, localIps) <==> t.peerPort == UDP_PORT && len >= 34
  {}

  /** Back to back, end to end: with or without the shortcut, on whatever settings, the
      receiving node delivers exactly the inner packet, on the session's interface. */
  lemma BackToBackDelivers(b: Buffer, t: Tunnel, s: Session, link: Link, inner: seq<byte>, macs: seq<byte>,
                           localIps: seq<Ip4>, fastpath: bool, wantHash: bool,
                           known: map<SessionId, nat>, noChecksum: bool)
    requires link != LinkOther && |macs| == 12 && t.peerIp in localIps
    requires t.peerPort == UDP_PORT && Length16(38 + |inner|) >= 34
    requires SessionId(t.peerTid, s.peerSid) in known
    requires Current(b) == Frame(macs, Encapsulate(t, s, LinkProtocol(link).value, inner))
    ensures var o := HandoffPath(b, localIps, fastpath, wantHash, known, noChecksum);
      && o.Handled? && o.v.tag == Decap
      && o.v.next == (if link == LinkIp6 then Ip6Input else if noChecksum then Ip4InputNoChecksum else Ip4Input)
      && Current(o.v.buffer) == inner
      && o.v.buffer.rxIf == known[SessionId(t.peerTid, s.peerSid)]
  {
    hide Encapsulate, Frame, OuterChecks, ClassifyFrame, EthernetInput, Walk, InputStep, HandoffPath;
    var pkt := Encapsulate(t, s, LinkProtocol(link).value, inner);
    BackToBackFast(t, s, link, inner, macs, localIps);
    FlowHandoffTransparent(b, localIps, fastpath, wantHash, known, noChecksum);
    LongPathDelivers(b, localIps);
    EncapRoundTrip(t, s, link, inner, known);
    DeliveredPayload(b, macs, pkt, known, noChecksum);
  }

  lemma DeliveredPayload(b: Buffer, macs: seq<byte>, pkt: seq<byte>, known: map<SessionId, nat>, noChecksum: bool)
    requires |macs| == 12 && |pkt| >= 38 && Current(b) == Frame(macs, pkt)
    requires var w := Walk(pkt[28..], known); w.Deliver? && w.payload == 10
    ensures var a := Advance(b.(l2 := b.pos, l3 := b.pos + 14, l4 := b.pos + 34), 42);
      var v := InputStep(a, known, noChecksum); var w := Walk(pkt[28..], known);
      && v.tag == w.tag && v.buffer.rxIf == known[w.id] && Current(v.buffer) == pkt[28..][10..]
      && v.next == (if w.proto == PPP_IP6 then Ip6Input else if noChecksum then Ip4InputNoChecksum else Ip4Input)
  {
    var m := b.(l2 := b.pos, l3 := b.pos + 14, l4 := b.pos + 34);
    CurrentAfterAdvance(m, 42);
    assert Current(m) == Current(b) && Current(b)[42..] == pkt[28..];
    CurrentAfterAdvance(Advance(m, 42), 10);
  }
}
