/** The flow-handoff classifier (flow_handoff.c), and the path it shortcuts. */
module Classify {
  import opened Bytes
  import opened Header
  import opened Input
  import Checksum

  const ETHERTYPE_IP4: u16 := 0x0800
  const ETHERTYPE_IP6: u16 := 0x86DD
  const ETHERTYPE_VLAN: u16 := 0x8100
  const PROTO_TCP: byte := 6
  const PROTO_UDP: byte := 17

  // IPv4 header fields of the header at offset `p`
  function HeaderBytes(f: seq<byte>, p: nat): nat requires p + 20 <= |f| { f[p] % 16 * 4 }
  function TotalLength(f: seq<byte>, p: nat): u16 requires p + 20 <= |f| { ReadU16(f, p + 2) }
  function FragmentOffset(f: seq<byte>, p: nat): nat requires p + 20 <= |f| { ReadU16(f, p + 6) % 0x2000 }
  predicate MoreFragments(f: seq<byte>, p: nat) requires p + 20 <= |f| { ReadU16(f, p + 6) / 0x2000 % 2 == 1 }

  // ----- flow key -------------------------------------------------------------

  function Zeros(n: nat): (z: seq<byte>)
    ensures |z| == n
  {
    seq(n, _ => 0)
  }

  /** The key struct: two 16-octet addresses, ports, protocol, padding. */
  function KeyBytes(src: seq<byte>, dst: seq<byte>, ports: seq<byte>, proto: byte): (k: seq<byte>)
    requires |src| == |dst| == 16 && |ports| == 4
    ensures |k| == 40
  {
    src + dst + ports + [proto] + Zeros(3)
  }

  /** An IPv4 address in the 16-octet field of the key struct. */
  function Widen(ip: seq<byte>): (a: seq<byte>)
    requires |ip| == 4
    ensures |a| == 16
  {
    ip + Zeros(12)
  }

  /** l2tvpp_hash_ip up to the crc32c: the 40-byte key of the IP header at `p`. None if the
      bytes are not an IPv4 or IPv6 header, or are cut short. */
  function FlowKey(f: seq<byte>, p: nat): (k: Option<seq<byte>>)
    requires p <= |f|
    ensures k.Some? ==> |k.value| == 40
  {
    if p + 1 > |f| then None
    else if f[p] / 16 == 4 then
      if p + 20 > |f| then None
      else
        // behind a nonzero fragment offset there is no port to read
        var l4 := if FragmentOffset(f, p) != 0 then |f| else p + HeaderBytes(f, p);
        Some(KeyBytes(Widen(f[p + 12..p + 16]), Widen(f[p + 16..p + 20]), Ports(f, f[p + 9], l4), f[p + 9]))
    else if f[p] / 16 == 6 then
      if p + 40 > |f| then None
      else
        Some(KeyBytes(f[p + 8..p + 24], f[p + 24..p + 40], Ports(f, f[p + 6], p + 40), f[p + 6]))
    else None
  }

  /** The four port bytes at `l4`, or zeros when there are none. */
  function Ports(f: seq<byte>, proto: byte, l4: nat): (s: seq<byte>)
    ensures |s| == 4
  {
    if (proto == PROTO_UDP || proto == PROTO_TCP) && l4 + 4 <= |f| then f[l4..l4 + 4] else Zeros(4)
  }

  // ----- what a flow key tells apart ------------------------------------------

  /** An IP packet's flow: addresses, protocol, and the ports of a TCP or UDP packet. */
  datatype Flow =
    | Flow4(src: Ip4, dst: Ip4, proto: byte, ports: (u16, u16))
    | Flow6(src6: seq<byte>, dst6: seq<byte>, proto: byte, ports: (u16, u16))

  /** The flow of a packet; later fragments, other protocols and packets that end before the
      ports count as ports (0, 0). None if there is no complete IP header. */
  function FlowOf(f: seq<byte>): Option<Flow>
  {
    if |f| >= 20 && f[0] / 16 == 4 then
      var first := ReadU16(f, 6) % 0x2000 == 0;
      Some(Flow4(f[12..16], f[16..20], f[9], if first then PortsAt(f, f[9], f[0] % 16 * 4) else (0, 0)))
    else if |f| >= 40 && f[0] / 16 == 6 then
      Some(Flow6(f[8..24], f[24..40], f[6], PortsAt(f, f[6], 40)))
    else None
  }

  function PortsAt(f: seq<byte>, proto: byte, at: nat): (u16, u16)
  {
    if proto in {PROTO_TCP, PROTO_UDP} && at + 4 <= |f| then (ReadU16(f, at), ReadU16(f, at + 2)) else (0, 0)
  }

  lemma KeyParts(a: seq<byte>, b: seq<byte>, c: seq<byte>, d: byte,
                 a': seq<byte>, b': seq<byte>, c': seq<byte>, d': byte)
    requires |a| == |b| == |a'| == |b'| == 16 && |c| == |c'| == 4
    ensures KeyBytes(a, b, c, d) == KeyBytes(a', b', c', d') <==> a == a' && b == b' && c == c' && d == d'
  {
    var k, k' := KeyBytes(a, b, c, d), KeyBytes(a', b', c', d');
    assert k[..16] == a && k[16..32] == b && k[32..36] == c && k[36] == d;
    assert k'[..16] == a' && k'[16..32] == b' && k'[32..36] == c' && k'[36] == d';
  }

  lemma WidenInjective(x: Ip4, y: Ip4)
    ensures Widen(x) == Widen(y) <==> x == y
  {
    assert Widen(x)[..4] == x && Widen(y)[..4] == y;
  }

  function PortBytes(ports: (u16, u16)): (s: seq<byte>)
    ensures |s| == 4
  {
    PutU16(ports.0) + PutU16(ports.1)
  }

  lemma PortBytesInjective(x: (u16, u16), y: (u16, u16))
    ensures PortBytes(x) == PortBytes(y) <==> x == y
  {
    assert PortBytes(x)[..2] == PutU16(x.0) && PortBytes(x)[2..] == PutU16(x.1);
    assert PortBytes(y)[..2] == PutU16(y.0) && PortBytes(y)[2..] == PutU16(y.1);
  }

  lemma PortsAgree(f: seq<byte>, proto: byte, at: nat)
    ensures Ports(f, proto, at) == PortBytes(PortsAt(f, proto, at))
  {}

  /** The key as a function of the flow. */
  function KeyOfFlow(w: Flow): seq<byte>
    requires w.Flow6? ==> |w.src6| == |w.dst6| == 16
  {
    match w
    case Flow4(src, dst, proto, ports) => KeyBytes(Widen(src), Widen(dst), PortBytes(ports), proto)
    case Flow6(src, dst, proto, ports) => KeyBytes(src, dst, PortBytes(ports), proto)
  }

  /** A packet has a key exactly when it has a flow, and then the key depends on the flow
      alone: options, later fields and payload do not matter. */
  lemma KeyIsOfFlow(f: seq<byte>)
    ensures FlowKey(f, 0).Some? <==> FlowOf(f).Some?
    ensures FlowOf(f).Some? ==> (FlowOf(f).value.Flow6? ==> |FlowOf(f).value.src6| == |FlowOf(f).value.dst6| == 16)
                                && FlowKey(f, 0) == Some(KeyOfFlow(FlowOf(f).value))
  {
    hide KeyBytes, Widen, Ports, PortsAt, PortBytes;
    if |f| >= 20 && f[0] / 16 == 4 {
      PortsAgree(f, f[9], f[0] % 16 * 4);
      PortsAgree(f, f[9], |f|);
      NoPorts(f, f[9]);
    } else if |f| >= 40 && f[0] / 16 == 6 {
      PortsAgree(f, f[6], 40);
    }
  }

  lemma NoPorts(f: seq<byte>, proto: byte)
    ensures PortsAt(f, proto, |f|) == (0, 0)
  {}

  /** Two IP packets of the same version have the same key exactly when they belong to the
      same flow, whatever their options and lengths. Across versions keys collide only for
      IPv6 addresses that end in twelve zero octets. */
  lemma KeyIdentifiesFlow(f: seq<byte>, g: seq<byte>)
    requires FlowOf(f).Some? && FlowOf(g).Some?
    ensures FlowOf(f).value.Flow4? == FlowOf(g).value.Flow4? ==>
      (FlowKey(f, 0) == FlowKey(g, 0) <==> FlowOf(f) == FlowOf(g))
    ensures FlowOf(f).value.Flow4? && FlowOf(g).value.Flow6? && FlowKey(f, 0) == FlowKey(g, 0) ==>
      FlowOf(g).value.src6 == Widen(FlowOf(f).value.src) && FlowOf(g).value.dst6 == Widen(FlowOf(f).value.dst)
  {
    hide KeyBytes, Widen, PortBytes, FlowOf, FlowKey;
    KeyIsOfFlow(f);
    KeyIsOfFlow(g);
    var v, w := FlowOf(f).value, FlowOf(g).value;
    PortBytesInjective(v.ports, w.ports);
    var a, b := if v.Flow4? then Widen(v.src) else v.src6, if v.Flow4? then Widen(v.dst) else v.dst6;
    var c, d := if w.Flow4? then Widen(w.src) else w.src6, if w.Flow4? then Widen(w.dst) else w.dst6;
    KeyParts(a, b, PortBytes(v.ports), v.proto, c, d, PortBytes(w.ports), w.proto);
    if v.Flow4? && w.Flow4? {
      WidenInjective(v.src, w.src);
      WidenInjective(v.dst, w.dst);
    }
  }

  // ----- the walk into the PPP payload ----------------------------------------

  /** The classifier's own walk from the L2TP header at `l2tp` to the PPP header, which must
      have four bytes to look at. */
  function PppAt(f: seq<byte>, l2tp: nat, h: Hdr): (at: Option<nat>)
    requires h.Data? && l2tp <= |f|
    ensures at.Some? ==> at.value + 4 <= |f|
  {
    var c0 := if HasS(h.flags) then l2tp + h.off + 4 else l2tp + h.off;
    if HasO(h.flags) && c0 + 2 > |f| then None
    else
      var c1 := if HasO(h.flags) then c0 + 2 + ReadU16(f, c0) else c0;
      if c1 + 4 > |f| then None else Some(c1)
  }

  /** Its walk over the PPP header at `c`: IPv4 and IPv6 only. */
  function IpBehind(f: seq<byte>, c: nat): (at: Option<nat>)
    requires c + 4 <= |f|
    ensures at.Some? ==> at.value <= |f|
  {
    var c2 := if f[c] == 0xff && f[c + 1] == 0x03 then c + 2 else c;
    if f[c2] % 2 == 1 then
      if f[c2] != 0x21 && f[c2] != 0x57 then None else Some(c2 + 1)
    else
      if ReadU16(f, c2) != PPP_IP4 && ReadU16(f, c2) != PPP_IP6 then None else Some(c2 + 2)
  }

  /** Both: the inner IP header. None: it gives up and hashes the outer header instead. */
  function InnerOffset(f: seq<byte>, l2tp: nat, h: Hdr): (at: Option<nat>)
    requires h.Data? && l2tp <= |f|
    ensures at.Some? ==> at.value <= |f|
  {
    match PppAt(f, l2tp, h)
    case None => None
    case Some(c) => IpBehind(f, c)
  }

  // ----- the classifier -------------------------------------------------------

  datatype Kind = Local | Outer | Inner | Fast

  /** `eligible` is set when the outer header passed every fast-path check; the L2TP
      header is then at `l2tp`, and the header offsets were recorded in the buffer. `key`
      is what the flow hash is taken of; without one the hash is zero. */
  datatype Class = Class(kind: Kind, key: Option<seq<byte>>, eligible: bool, l2tp: nat)

  predicate FastChecks(f: seq<byte>, p: nat, tagged: bool, localIps: seq<Ip4>)
    requires p + 20 <= |f|
  {
    && !tagged
    && f[p] == 0x45
    && TotalLength(f, p) <= |f| - p
    && TotalLength(f, p) >= 20 + 8 + 6
    && Checksum.Valid(f[p..p + 20])
    && ReadIp4(f, p + 16) in localIps
  }

  function ClassifyOuter(f: seq<byte>, p: nat, wantHash: bool,
                         eligible: bool, l2tp: nat): Class
    requires p <= |f|
  {
    if !wantHash then Class(Outer, None, eligible, l2tp)
    else
      match FlowKey(f, p)
      case Some(k) => Class(Outer, Some(k), eligible, l2tp)
      case None => Class(Local, None, eligible, l2tp)
  }

  /** l2tvpp_flow_classify, from the Ethernet header. */
  function ClassifyFrame(f: seq<byte>, localIps: seq<Ip4>, fastpath: bool, wantHash: bool): (c: Class)
  {
    if |f| < 14 then Class(Local, None, false, 0)
    else
      var tagged := ReadU16(f, 12) == ETHERTYPE_VLAN;
      if tagged && |f| < 18 then Class(Local, None, false, 0)
      else
        var ethertype := if tagged then ReadU16(f, 16) else ReadU16(f, 12);
        var p := if tagged then 18 else 14;
        if ethertype == ETHERTYPE_IP6 then
          if !wantHash then Class(Outer, None, false, 0)
          else
            match FlowKey(f, p)
            case Some(k) => Class(Outer, Some(k), false, 0)
            case None => Class(Local, None, false, 0)
        else if ethertype != ETHERTYPE_IP4 then Class(Local, None, false, 0)
        else ClassifyIp4(f, p, tagged, localIps, fastpath, wantHash)
  }

  function ClassifyIp4(f: seq<byte>, p: nat, tagged: bool, localIps: seq<Ip4>, fastpath: bool,
                       wantHash: bool): Class
    requires p <= |f|
  {
    if p + 20 > |f| then Class(Local, None, false, 0)
    else if f[p + 9] != PROTO_UDP || FragmentOffset(f, p) != 0 || MoreFragments(f, p) then
      ClassifyOuter(f, p, wantHash, false, 0)
    else
      var udp := p + HeaderBytes(f, p);
      if udp + 8 > |f| || ReadU16(f, udp + 2) != UDP_PORT || udp + 8 + 6 > |f| then
        ClassifyOuter(f, p, wantHash, false, 0)
      else
        var l2tp := udp + 8;
        var h := ParseHdr(f[l2tp..]);
        match h
        case TooShort => ClassifyOuter(f, p, wantHash, false, 0)
        case NotV2 => Class(Local, None, false, 0)
        case Control => Class(Local, None, false, 0)
        case Data(_, _, _, _) =>
          ClassifyData(f, p, l2tp, h, fastpath && FastChecks(f, p, tagged, localIps), wantHash)
  }

  /** L2TPv2 data with its header `h` at `l2tp`: by the inner flow if there is one. */
  function ClassifyData(f: seq<byte>, p: nat, l2tp: nat, h: Hdr, fast: bool, wantHash: bool): Class
    requires p <= |f| && l2tp <= |f| && h.Data?
  {
    if !wantHash then Class(if fast then Fast else Inner, None, fast, l2tp)
    else
      match InnerOffset(f, l2tp, h)
      case None => ClassifyOuter(f, p, wantHash, fast, l2tp)
      case Some(at) =>
        match FlowKey(f, at)
        case Some(k) => Class(if fast then Fast else Inner, Some(k), fast, l2tp)
        case None =>
          if fast then Class(Fast, None, fast, l2tp)
          else ClassifyOuter(f, p, wantHash, fast, l2tp)
  }

  /** The header offsets the classifier leaves in the buffer of an eligible frame. */
  function Mark(b: Buffer, c: Class): Buffer
  {
    if c.eligible then b.(l2 := b.pos, l3 := b.pos + 14, l4 := b.pos + 34) else b
  }

  // ----- the path a frame takes without the shortcut --------------------------

  datatype Arrival =
    | AtL2tvppInput(buffer: Buffer)
    | Elsewhere(buffer: Buffer)

  /** ethernet-input: record the L2 and L3 offsets, strip the header (and one tag). */
  function EthernetInput(b: Buffer, localIps: seq<Ip4>): Arrival
  {
    var f := Current(b);
    if |f| < 14 then Elsewhere(b)
    else if ReadU16(f, 12) == ETHERTYPE_IP4 then
      Ip4InputPath(Advance(b.(l2 := b.pos, l3 := b.pos + 14), 14), localIps)
    else if ReadU16(f, 12) == ETHERTYPE_VLAN && |f| >= 18 && ReadU16(f, 16) == ETHERTYPE_IP4 then
      Ip4InputPath(Advance(b.(l2 := b.pos, l3 := b.pos + 18), 18), localIps)
    else Elsewhere(b)
  }

  /** ip4-input and ip4-lookup: a well-formed header with a valid checksum over all of it,
      options included, addressed to a tunnel endpoint of ours. */
  function Ip4InputPath(b: Buffer, localIps: seq<Ip4>): Arrival
  {
    var f := Current(b);
    if |f| < 20 || f[0] / 16 != 4 || HeaderBytes(f, 0) < 20 || HeaderBytes(f, 0) > |f| then Elsewhere(b)
    else if TotalLength(f, 0) > |f| || TotalLength(f, 0) < 20 then Elsewhere(b)
    else if !Checksum.Valid(f[..HeaderBytes(f, 0)]) then Elsewhere(b)
    else if ReadIp4(f, 16) !in localIps then Elsewhere(b)
    else Ip4Receive(b)
  }

  /** ip4-receive: fragments go to reassembly, UDP to udp-local. */
  function Ip4Receive(b: Buffer): Arrival
    requires b.len >= 20 && 20 <= HeaderBytes(Current(b), 0) <= b.len
  {
    var f := Current(b);
    if FragmentOffset(f, 0) != 0 || MoreFragments(f, 0) || f[9] != PROTO_UDP then Elsewhere(b)
    else UdpLocal(Advance(b.(l4 := b.pos + HeaderBytes(f, 0)), HeaderBytes(f, 0)))
  }

  /** udp-local: port 1701 goes to l2tvpp-input, at the L2TP header. */
  function UdpLocal(b: Buffer): Arrival
  {
    if b.len < 8 || ReadU16(Current(b), 2) != UDP_PORT then Elsewhere(b)
    else AtL2tvppInput(Advance(b, 8))
  }

  // ----- the two meet ---------------------------------------------------------

  lemma CurrentAfterAdvance(b: Buffer, n: nat)
    requires n <= b.len
    ensures Current(Advance(b, n)) == Current(b)[n..]
  {}

  /** Everything in flow_handoff.c:54-62, stated on the frame. */
  predicate OuterChecks(f: seq<byte>, localIps: seq<Ip4>)
  {
    && |f| >= 14 + 20 + 8 + 6
    && ReadU16(f, 12) == ETHERTYPE_IP4
    && f[14] == 0x45
    && f[23] == PROTO_UDP
    && FragmentOffset(f, 14) == 0 && !MoreFragments(f, 14)
    && Checksum.Valid(f[14..34])
    && 34 <= TotalLength(f, 14) <= |f| - 14
    && ReadIp4(f, 30) in localIps
    && ReadU16(f, 36) == UDP_PORT
    && ParseHdr(f[42..]).Data?
  }

  /** The classifier's view of an outer IPv4 header at `p` that leads to L2TPv2 data. */
  predicate LeadsToData(f: seq<byte>, p: nat)
  {
    && p + 20 <= |f|
    && f[p + 9] == PROTO_UDP && FragmentOffset(f, p) == 0 && !MoreFragments(f, p)
    && var udp := p + HeaderBytes(f, p);
    && udp + 14 <= |f| && ReadU16(f, udp + 2) == UDP_PORT && ParseHdr(f[udp + 8..]).Data?
  }

  lemma Ip4Eligible(f: seq<byte>, p: nat, tagged: bool, localIps: seq<Ip4>, fastpath: bool,
                    wantHash: bool)
    requires p <= |f|
    ensures var c := ClassifyIp4(f, p, tagged, localIps, fastpath, wantHash);
      && (c.eligible <==> fastpath && LeadsToData(f, p) && FastChecks(f, p, tagged, localIps))
      && (c.eligible ==> c.l2tp == p + 28)
      && (c.kind == Fast <==> c.eligible && (wantHash ==> InnerOffset(f, p + 28, ParseHdr(f[p + 28..])).Some?))
  {}

  lemma ChecksAt14(f: seq<byte>, localIps: seq<Ip4>)
    requires |f| >= 14 && ReadU16(f, 12) != ETHERTYPE_VLAN
    ensures OuterChecks(f, localIps) <==>
            ReadU16(f, 12) == ETHERTYPE_IP4 && LeadsToData(f, 14) && FastChecks(f, 14, false, localIps)
  {}

  /** A frame is eligible for the fast path exactly when it passes every listed check. */
  lemma EligibleIffOuterChecks(f: seq<byte>, localIps: seq<Ip4>, fastpath: bool, wantHash: bool)
    ensures var c := ClassifyFrame(f, localIps, fastpath, wantHash);
      && (c.eligible <==> fastpath && OuterChecks(f, localIps))
      && (c.eligible ==> c.l2tp == 42)
      && (c.kind == Fast ==> c.eligible)
  {
    FastIff(f, localIps, fastpath, wantHash);
  }

  /** KIND_FAST: the listed checks, and, when a hash is wanted, a PPP payload that is IP.
      A non-IP payload takes the long path when a hash is wanted and the short one when
      it is not. */
  lemma FastIff(f: seq<byte>, localIps: seq<Ip4>, fastpath: bool, wantHash: bool)
    ensures ClassifyFrame(f, localIps, fastpath, wantHash).kind == Fast <==>
            fastpath && OuterChecks(f, localIps)
            && (wantHash ==> InnerOffset(f, 42, ParseHdr(f[42..])).Some?)
    ensures var c := ClassifyFrame(f, localIps, fastpath, wantHash);
      (c.eligible <==> fastpath && OuterChecks(f, localIps)) && (c.eligible ==> c.l2tp == 42)
  {
    if |f| >= 14 {
      var tagged := ReadU16(f, 12) == ETHERTYPE_VLAN;
      if tagged {
        if |f| >= 18 { Ip4Eligible(f, 18, true, localIps, fastpath, wantHash); }
      } else {
        Ip4Eligible(f, 14, false, localIps, fastpath, wantHash);
        ChecksAt14(f, localIps);
      }
    }
  }

  lemma Ip4PathDelivers(ip: Buffer, localIps: seq<Ip4>)
    requires var g := Current(ip);
      && |g| >= 34 && g[0] == 0x45 && g[9] == PROTO_UDP
      && FragmentOffset(g, 0) == 0 && !MoreFragments(g, 0)
      && Checksum.Valid(g[..20]) && 34 <= TotalLength(g, 0) <= |g|
      && ReadIp4(g, 16) in localIps && ReadU16(g, 22) == UDP_PORT
    ensures Ip4InputPath(ip, localIps) == AtL2tvppInput(Advance(ip.(l4 := ip.pos + 20), 28))
  {
    CurrentAfterAdvance(ip.(l4 := ip.pos + 20), 20);
  }

  /** An eligible buffer, advanced to its L2TP header, is the very buffer that the long
      path delivers: same position, same length, same recorded offsets. */
  lemma LongPathDelivers(b: Buffer, localIps: seq<Ip4>)
    requires OuterChecks(Current(b), localIps)
    ensures EthernetInput(b, localIps)
            == AtL2tvppInput(Advance(b.(l2 := b.pos, l3 := b.pos + 14, l4 := b.pos + 34), 42))
  {
    hide Ip4InputPath, OuterChecks, FragmentOffset, MoreFragments, TotalLength;
    hide Checksum.Valid;
    var f := Current(b);
    ChecksBehindEthernet(f, localIps);
    var ip := Advance(b.(l2 := b.pos, l3 := b.pos + 14), 14);
    CurrentAfterAdvance(b.(l2 := b.pos, l3 := b.pos + 14), 14);
    Ip4PathDelivers(ip, localIps);
  }

  /** The outer checks, on the IP packet. */
  lemma ChecksBehindEthernet(f: seq<byte>, localIps: seq<Ip4>)
    requires OuterChecks(f, localIps)
    ensures |f| >= 48 && ReadU16(f, 12) == ETHERTYPE_IP4
    ensures var g := f[14..];
      && g[0] == 0x45 && g[9] == PROTO_UDP
      && FragmentOffset(g, 0) == 0 && !MoreFragments(g, 0)
      && Checksum.Valid(g[..20]) && 34 <= TotalLength(g, 0) <= |g|
      && ReadIp4(g, 16) in localIps && ReadU16(g, 22) == UDP_PORT
  {
    hide ParseHdr;
    hide Checksum.Valid;
    var g := f[14..];
    assert g[..20] == f[14..34] && ReadIp4(g, 16) == ReadIp4(f, 30);
    assert forall i :: 0 <= i < |g| ==> g[i] == f[14 + i];
  }

  /** What a frame finally meets: l2tvpp-input's verdict, or some other node's input. */
  datatype Outcome = Handled(v: Verdict) | Other(buffer: Buffer)

  lemma EthernetInputRewindable(b: Buffer, localIps: seq<Ip4>)
    ensures var a := EthernetInput(b, localIps); a.AtL2tvppInput? ==> Rewindable(a.buffer)
  {}

  function LongPath(b: Buffer, localIps: seq<Ip4>, known: map<SessionId, nat>, noChecksum: bool): Outcome
  {
    EthernetInputRewindable(b, localIps);
    match EthernetInput(b, localIps)
    case AtL2tvppInput(a) => Handled(InputStep(a, known, noChecksum))
    case Elsewhere(a) => Other(a)
  }

  /** A KIND_FAST buffer as it is handed to l2tvpp-input. */
  function FastBuffer(b: Buffer, c: Class): Buffer
    requires c.l2tp <= b.len
  {
    Advance(Mark(b, c), c.l2tp).(txIf := NO_INTERFACE)
  }

  /** An outcome, apart from the transmit interface noted in the buffer. */
  function WithoutTx(o: Outcome): Outcome
  {
    match o
    case Handled(v) => Handled(v.(buffer := v.buffer.(txIf := NO_INTERFACE)))
    case Other(b) => Other(b.(txIf := NO_INTERFACE))
  }

  /** The frame with flow handoff in front, on whatever thread it lands. */
  function HandoffPath(b: Buffer, localIps: seq<Ip4>, fastpath: bool, wantHash: bool,
                       known: map<SessionId, nat>, noChecksum: bool): Outcome
  {
    var c := ClassifyFrame(Current(b), localIps, fastpath, wantHash);
    EligibleIffOuterChecks(Current(b), localIps, fastpath, wantHash);
    if c.kind == Fast then Handled(InputStep(FastBuffer(b, c), known, noChecksum))
    else LongPath(Mark(b, c), localIps, known, noChecksum)
  }

  /** Flow handoff is transparent: for every frame, setting, tunnel set and session table,
      the packet meets the same verdict, label and session, and leaves as the same buffer,
      as without it. Only the noted transmit interface of a punted or dropped packet may
      differ, and not if the driver had cleared it. */
  lemma FlowHandoffTransparent(b: Buffer, localIps: seq<Ip4>, fastpath: bool, wantHash: bool,
                               known: map<SessionId, nat>, noChecksum: bool)
    ensures WithoutTx(HandoffPath(b, localIps, fastpath, wantHash, known, noChecksum))
            == WithoutTx(LongPath(b, localIps, known, noChecksum))
    ensures b.txIf == NO_INTERFACE ==>
      HandoffPath(b, localIps, fastpath, wantHash, known, noChecksum) == LongPath(b, localIps, known, noChecksum)
  {
    hide ClassifyFrame, EthernetInput, OuterChecks, Walk;
    var c := ClassifyFrame(Current(b), localIps, fastpath, wantHash);
    EligibleIffOuterChecks(Current(b), localIps, fastpath, wantHash);
    if c.eligible {
      LongPathDelivers(b, localIps);
      assert Current(Mark(b, c)) == Current(b);
      LongPathDelivers(Mark(b, c), localIps);
    }
  }

  // ----- the two walks --------------------------------------------------------

  /** The key hashed in place is the key of the delivered payload taken by itself. */
  lemma FlowKeyAt(f: seq<byte>, p: nat)
    requires p <= |f|
    ensures FlowKey(f, p) == FlowKey(f[p..], 0)
  {
    var g := f[p..];
    if p + 20 <= |f| && f[p] / 16 == 4 {
      var l4 := if FragmentOffset(f, p) != 0 then |f| else p + HeaderBytes(f, p);
      assert FragmentOffset(g, 0) == FragmentOffset(f, p);
      assert l4 + 4 <= |f| ==> f[l4..l4 + 4] == g[l4 - p..l4 - p + 4];
      assert f[p + 12..p + 16] == g[12..16] && f[p + 16..p + 20] == g[16..20];
    } else if p + 40 <= |f| && f[p] / 16 == 6 {
      assert f[p + 8..p + 24] == g[8..24] && f[p + 24..p + 40] == g[24..40];
      assert p + 44 <= |f| ==> f[p + 40..p + 44] == g[40..44];
    }
  }

  lemma PppAgrees(f: seq<byte>, l2tp: nat, h: Hdr)
    requires l2tp <= |f| && h.Data?
    ensures var cur := SkipOptions(f[l2tp..], h);
      PppAt(f, l2tp, h) == if cur.Some? then Some(l2tp + cur.value) else None
  {
    var c0 := if HasS(h.flags) then h.off + 4 else h.off;
    if HasO(h.flags) && c0 + 2 <= |f| - l2tp {
      assert ReadU16(f, l2tp + c0) == ReadU16(f[l2tp..], c0);
    }
  }

  lemma IpAgrees(f: seq<byte>, l2tp: nat, cur: nat)
    requires l2tp + cur + 4 <= |f|
    ensures var p := ParsePpp(f[l2tp..], cur);
      IpBehind(f, l2tp + cur) == if p.proto in {PPP_IP4, PPP_IP6} then Some(l2tp + p.payload) else None
  {
    var b := f[l2tp..];
    assert b[cur] == f[l2tp + cur] && b[cur + 1] == f[l2tp + cur + 1];
    var c := if b[cur] == 0xff && b[cur + 1] == 0x03 then cur + 2 else cur;
    assert b[c] == f[l2tp + c] && ReadU16(b, c) == ReadU16(f, l2tp + c);
  }

  lemma OffsetsAgree(f: seq<byte>, l2tp: nat, known: map<SessionId, nat>)
    requires l2tp <= |f|
    requires var h := ParseHdr(f[l2tp..]); h.Data? && SessionId(h.tid, h.sid) in known
    ensures var h := ParseHdr(f[l2tp..]); var w := Walk(f[l2tp..], known);
      InnerOffset(f, l2tp, h) == if w.Deliver? then Some(l2tp + w.payload) else None
  {
    hide ParseHdr, SkipOptions, ParsePpp, PppAt, IpBehind;
    var h := ParseHdr(f[l2tp..]);
    PppAgrees(f, l2tp, h);
    var cur := SkipOptions(f[l2tp..], h);
    if cur.Some? { IpAgrees(f, l2tp, cur.value); }
  }

  /** Where a frame's outer IPv4 header starts: behind Ethernet and at most one tag. */
  function OuterIp4(f: seq<byte>): Option<nat>
  {
    if |f| >= 14 && ReadU16(f, 12) == ETHERTYPE_IP4 then Some(14)
    else if |f| >= 18 && ReadU16(f, 12) == ETHERTYPE_VLAN && ReadU16(f, 16) == ETHERTYPE_IP4 then Some(18)
    else None
  }

  /** Where a frame's L2TPv2 data header starts, if it has one. */
  function DataAt(f: seq<byte>): (at: Option<nat>)
    ensures at.Some? ==> at.value + 6 <= |f| && ParseHdr(f[at.value..]).Data?
  {
    match OuterIp4(f)
    case None => None
    case Some(p) => if LeadsToData(f, p) then Some(p + HeaderBytes(f, p) + 8) else None
  }

  /** The flow key of the packet that l2tvpp-input would deliver. */
  function PayloadKey(b: seq<byte>, known: map<SessionId, nat>): Option<seq<byte>>
  {
    match Walk(b, known)
    case Deliver(_, _, payload, _) => FlowKey(b[payload..], 0)
    case _ => None
  }

  /** The session a frame's L2TPv2 data belongs to. */
  function SessionAt(f: seq<byte>): SessionId
    requires DataAt(f).Some?
  {
    var h := ParseHdr(f[DataAt(f).value..]);
    SessionId(h.tid, h.sid)
  }

  /** The classifier and l2tvpp-input agree on every frame: a frame is classified by an inner
      flow key exactly when it carries L2TPv2 data that l2tvpp-input would deliver (its
      session being known) and the delivered packet has a flow key; and that is the key. */
  lemma WalksAgree(f: seq<byte>, localIps: seq<Ip4>, fastpath: bool, known: map<SessionId, nat>)
    requires DataAt(f).Some? ==> SessionAt(f) in known
    ensures var c := ClassifyFrame(f, localIps, fastpath, true);
      var inner := if DataAt(f).Some? then PayloadKey(f[DataAt(f).value..], known) else None;
      && (c.kind in {Inner, Fast} && c.key.Some? <==> inner.Some?)
      && (inner.Some? ==> c.key == inner)
  {
    hide ClassifyFrame, ClassifyData, PayloadKey, ParseHdr, LeadsToData;
    var fast := ClassifiedData(f, localIps, fastpath, true);
    if DataAt(f).Some? {
      var at := DataAt(f).value;
      DataByPayload(f, OuterIp4(f).value, at, fast, known);
    }
  }

  /** With its L2TPv2 data header at `at`, a frame is classified by the payload's key. */
  lemma DataByPayload(f: seq<byte>, p: nat, at: nat, fast: bool, known: map<SessionId, nat>)
    requires p <= |f| && at <= |f|
    requires var h := ParseHdr(f[at..]); h.Data? && SessionId(h.tid, h.sid) in known
    ensures var c := ClassifyData(f, p, at, ParseHdr(f[at..]), fast, true); var inner := PayloadKey(f[at..], known);
      && (c.kind in {Inner, Fast} && c.key.Some? <==> inner.Some?)
      && (inner.Some? ==> c.key == inner)
  {
    hide FlowKey, Walk, InnerOffset, ParseHdr;
    OffsetsAgree(f, at, known);
    var w := Walk(f[at..], known);
    if w.Deliver? {
      FlowKeyAt(f, at + w.payload);
      assert f[at..][w.payload..] == f[at + w.payload..];
    }
  }

  /** Exactly the frames with an L2TPv2 data header are classified as such. */
  lemma ClassifiedData(f: seq<byte>, localIps: seq<Ip4>, fastpath: bool, wantHash: bool) returns (fast: bool)
    ensures var c := ClassifyFrame(f, localIps, fastpath, wantHash);
      match DataAt(f)
      case Some(at) => c == ClassifyData(f, OuterIp4(f).value, at, ParseHdr(f[at..]), fast, wantHash)
      case None => c.kind in {Outer, Local}
  {
    hide FlowKey, FastChecks, ClassifyData, ClassifyIp4, LeadsToData;
    fast := false;
    if OuterIp4(f).Some? {
      fast := ClassifiedIp4(f, OuterIp4(f).value, OuterIp4(f).value == 18, localIps, fastpath, wantHash);
    }
  }

  lemma ClassifiedIp4(f: seq<byte>, p: nat, tagged: bool, localIps: seq<Ip4>, fastpath: bool, wantHash: bool)
    returns (fast: bool)
    requires p <= |f|
    ensures var c := ClassifyIp4(f, p, tagged, localIps, fastpath, wantHash);
      if LeadsToData(f, p) then
        var at := p + HeaderBytes(f, p) + 8;
        c == ClassifyData(f, p, at, ParseHdr(f[at..]), fast, wantHash)
      else c.kind in {Outer, Local}
  {
    hide FlowKey, FastChecks, ClassifyData, ParseHdr;
    fast := fastpath && LeadsToData(f, p) && FastChecks(f, p, tagged, localIps);
  }

  /** Without a hash, too, L2TPv2 data is never kept local. */
  lemma DataIsNeverLocal(f: seq<byte>, localIps: seq<Ip4>, fastpath: bool)
    ensures ClassifyFrame(f, localIps, fastpath, false).kind in {Inner, Fast} <==> DataAt(f).Some?
  {
    var fast := ClassifiedData(f, localIps, fastpath, false);
  }
}
