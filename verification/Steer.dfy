/** l2tp_steer (l2tp_steer.bpf.c): an independent second parser that steers L2TPv2 data to
    CPUs by the same session hash as the plugin's worker handoff. */
module Steer {
  import opened Bytes
  import opened Header
  import opened Input
  import opened Classify

  const ETHERTYPE_QINQ: u16 := 0x88A8
  const MAX_CPUS: nat := 256

  predicate IsVlan(ethertype: u16) { ethertype == ETHERTYPE_VLAN || ethertype == ETHERTYPE_QINQ }

  datatype Cursor = Cursor(at: nat, proto: u16)

  /** Skip up to `rounds` VLAN tags; None if a tag is cut short. */
  function SkipVlans(f: seq<byte>, c: Cursor, rounds: nat): (r: Option<Cursor>)
    requires c.at <= |f|
    ensures r.Some? ==> c.at <= r.value.at <= |f|
    decreases rounds
  {
    if rounds == 0 then Some(c)
    else if !IsVlan(c.proto) then SkipVlans(f, c, rounds - 1)
    else if c.at + 4 > |f| then None
    else SkipVlans(f, Cursor(c.at + 4, ReadU16(f, c.at + 2)), rounds - 1)
  }

  /** Offset behind the outer IP header if UDP follows it directly: not in a later fragment,
      and not behind an IPv6 extension header. */
  function UdpAt(f: seq<byte>, c: Cursor): Option<nat>
    requires c.at <= |f|
  {
    if c.proto == ETHERTYPE_IP4 then
      if c.at + 20 > |f| || f[c.at] % 16 < 5 || FragmentOffset(f, c.at) != 0 || f[c.at + 9] != PROTO_UDP then None
      else Some(c.at + HeaderBytes(f, c.at))
    else if c.proto == ETHERTYPE_IP6 then
      if c.at + 40 > |f| || f[c.at + 6] != PROTO_UDP then None else Some(c.at + 40)
    else None
  }

  /** Offset of the UDP payload when it is addressed to port 1701. */
  function L2tpAt(f: seq<byte>): (at: Option<nat>)
    ensures at.Some? ==> at.value <= |f|
  {
    if |f| < 14 then None
    else
      match SkipVlans(f, Cursor(14, ReadU16(f, 12)), 2)
      case None => None
      case Some(c) =>
        match UdpAt(f, c)
        case None => None
        case Some(udp) =>
          if udp + 8 > |f| || ReadU16(f, udp + 2) != UDP_PORT then None else Some(udp + 8)
  }

  datatype SteerHdr = Ids(tid: u16, sid: u16) | ControlMessage | NotData

  /** The steering program's own L2TPv2 header parse: it needs only the flag word to
      recognise control messages, and checks the ids' bounds last. */
  function SteerParse(b: seq<byte>): SteerHdr
  {
    if |b| < 2 then NotData
    else
      var flags := ReadU16(b, 0);
      if Version(flags) != 2 then NotData
      else if HasT(flags) then ControlMessage
      else
        var ids := if HasL(flags) then 4 else 2;
        if ids + 4 > |b| then NotData else Ids(ReadU16(b, ids), ReadU16(b, ids + 2))
  }

  /** The dense list of usable CPUs and the number of entries in use. */
  datatype CpuMaps = CpuMaps(count: u32, available: seq<u32>)

  datatype Outcome = PassOther | PassControl | RedirectFail | Redirect(cpu: u32)

  /** What becomes of a frame; `redirects` says for which CPUs the redirect helper succeeds. */
  function SteerFrame(f: seq<byte>, maps: CpuMaps, redirects: u32 -> bool): Outcome
  {
    match L2tpAt(f)
    case None => PassOther
    case Some(at) =>
      match SteerParse(f[at..])
      case NotData => PassOther
      case ControlMessage => PassControl
      case Ids(tid, sid) => SteerSession(tid, sid, maps, redirects)
  }

  function SteerSession(tid: u16, sid: u16, maps: CpuMaps, redirects: u32 -> bool): Outcome
  {
    if maps.count == 0 then RedirectFail
    else
      var idx := SessionHash(SessionKey(tid, sid)) % maps.count;
      if idx >= |maps.available| || !redirects(maps.available[idx]) then RedirectFail
      else Redirect(maps.available[idx])
  }

  function Stat(o: Outcome): nat
  {
    match o
    case PassOther => 0
    case PassControl => 1
    case Redirect(_) => 2
    case RedirectFail => 3
  }

  /** The program: a moving cursor with a bound check before every read, and exactly one
      statistics slot incremented per frame. */
  method L2tpSteer(f: seq<byte>, maps: CpuMaps, redirects: u32 -> bool, stats: array<nat>)
    returns (o: Outcome)
    requires stats.Length == 4
    modifies stats
    ensures o == SteerFrame(f, maps, redirects)
    ensures stats[0] == old(stats[0]) + if o.PassOther? then 1 else 0
    ensures stats[1] == old(stats[1]) + if o.PassControl? then 1 else 0
    ensures stats[2] == old(stats[2]) + if o.Redirect? then 1 else 0
    ensures stats[3] == old(stats[3]) + if o.RedirectFail? then 1 else 0
  {
    o := Decide(f, maps, redirects);
    stats[Stat(o)] := stats[Stat(o)] + 1;
  }

  method Decide(f: seq<byte>, maps: CpuMaps, redirects: u32 -> bool) returns (o: Outcome)
    ensures o == SteerFrame(f, maps, redirects)
  {
    if |f| < 14 { return PassOther; }
    var proto, cur := ReadU16(f, 12), 14;
    for i := 0 to 2
      invariant 14 <= cur <= |f|
      invariant SkipVlans(f, Cursor(14, ReadU16(f, 12)), 2) == SkipVlans(f, Cursor(cur, proto), 2 - i)
    {
      if IsVlan(proto) {
        if cur + 4 > |f| { return PassOther; }
        proto := ReadU16(f, cur + 2);
        cur := cur + 4;
      }
    }
    var l4: byte;
    if proto == ETHERTYPE_IP4 {
      if cur + 20 > |f| || f[cur] % 16 < 5 || FragmentOffset(f, cur) != 0 { return PassOther; }
      l4 := f[cur + 9];
      cur := cur + HeaderBytes(f, cur);
    } else if proto == ETHERTYPE_IP6 {
      if cur + 40 > |f| { return PassOther; }
      l4 := f[cur + 6];
      cur := cur + 40;
    } else {
      return PassOther;
    }
    if l4 != PROTO_UDP || cur + 8 > |f| || ReadU16(f, cur + 2) != UDP_PORT { return PassOther; }
    cur := cur + 8;
    match SteerParse(f[cur..])
    case NotData => o := PassOther;
    case ControlMessage => o := PassControl;
    case Ids(tid, sid) => o := SteerSession(tid, sid, maps, redirects);
  }

  // ----- every frame's outcome, read off its bytes ----------------------------

  predicate IsTag(f: seq<byte>, at: nat)
    requires at + 2 <= |f|
  {
    Network16(f[at], f[at + 1]) in {0x8100, 0x88A8}
  }

  /** `n` VLAN tags, of which there may be two, and then something else, or anything after two. */
  predicate Tags(f: seq<byte>, n: nat)
  {
    && n <= 2 && |f| >= 14 + 4 * n
    && (forall i :: 0 <= i < n ==> IsTag(f, 12 + 4 * i)) && (n < 2 ==> !IsTag(f, 12 + 4 * n))
  }

  /** The IP header at `p`, of either version, is followed by UDP at `u`. */
  predicate UdpBehind(f: seq<byte>, p: nat, u: nat)
    requires 2 <= p <= |f|
  {
    var etherType := Network16(f[p - 2], f[p - 1]);
    || (etherType == 0x0800 && |f| >= p + 20 && f[p] % 16 >= 5 && f[p + 6] % 32 == 0 && f[p + 7] == 0
        && f[p + 9] == 17 && u == p + 4 * (f[p] % 16))
    || (etherType == 0x86DD && |f| >= p + 40 && f[p + 6] == 17 && u == p + 40)
  }

  /** A UDP payload for port 1701 starts at `at`, behind `n` tags. */
  predicate MessageAt(f: seq<byte>, n: nat, at: nat)
  {
    && Tags(f, n) && 8 <= at <= |f| && UdpBehind(f, 14 + 4 * n, at - 8)
    && Network16(f[at - 6], f[at - 5]) == 1701
  }

  lemma SkippedTags(f: seq<byte>, n: nat)
    requires |f| >= 14
    ensures Tags(f, n) ==>
      SkipVlans(f, Cursor(14, ReadU16(f, 12)), 2) == Some(Cursor(14 + 4 * n, ReadU16(f, 12 + 4 * n)))
    ensures var r := SkipVlans(f, Cursor(14, ReadU16(f, 12)), 2);
      r.Some? ==> exists k: nat ::
        Tags(f, k) && 14 + 4 * k <= |f| && r.value == Cursor(14 + 4 * k, ReadU16(f, 12 + 4 * k))
  {
    var c0 := Cursor(14, ReadU16(f, 12));
    if !IsVlan(c0.proto) {
      assert SkipVlans(f, c0, 1) == SkipVlans(f, c0, 0) == Some(c0);
      assert Tags(f, 0);
    } else if |f| >= 18 {
      var c1 := Cursor(18, ReadU16(f, 16));
      assert SkipVlans(f, c0, 2) == SkipVlans(f, c1, 1);
      if !IsVlan(c1.proto) {
        assert SkipVlans(f, c1, 0) == Some(c1);
        assert Tags(f, 1);
      } else if |f| >= 22 {
        var c2 := Cursor(22, ReadU16(f, 20));
        assert SkipVlans(f, c1, 1) == SkipVlans(f, c2, 0) == Some(c2);
        assert Tags(f, 2);
      }
    }
  }

  lemma UdpAtIff(f: seq<byte>, n: nat, u: nat)
    requires |f| >= 14 + 4 * n
    ensures UdpAt(f, Cursor(14 + 4 * n, ReadU16(f, 12 + 4 * n))) == Some(u) <==> UdpBehind(f, 14 + 4 * n, u)
  {}

  lemma L2tpAtIff(f: seq<byte>, at: nat)
    ensures L2tpAt(f) == Some(at) <==> exists n: nat :: MessageAt(f, n, at)
  {
    hide SkipVlans, UdpAt, Tags, UdpBehind;
    if |f| < 14 {
      assert forall n: nat :: !Tags(f, n) by { NoTags(f); }
    } else {
      if n: nat :| MessageAt(f, n, at) {
        SkippedTags(f, n);
        TagsFit(f, n);
        UdpAtIff(f, n, at - 8);
      }
      if L2tpAt(f) == Some(at) {
        SkippedTags(f, 0);
        var r := SkipVlans(f, Cursor(14, ReadU16(f, 12)), 2);
        var n: nat :| Tags(f, n) && 14 + 4 * n <= |f| && r.value == Cursor(14 + 4 * n, ReadU16(f, 12 + 4 * n));
        TagsFit(f, n);
        UdpAtIff(f, n, at - 8);
        assert MessageAt(f, n, at);
      }
    }
  }

  lemma NoTags(f: seq<byte>)
    requires |f| < 14
    ensures forall n: nat :: !Tags(f, n)
  {}

  lemma TagsFit(f: seq<byte>, n: nat)
    requires Tags(f, n)
    ensures |f| >= 14 + 4 * n
  {}

  /** The outcome for a UDP payload: data is steered by its ids, control messages are passed and
      counted as such, and anything else is passed. */
  predicate SteeredAs(o: Outcome, m: seq<byte>, maps: CpuMaps, redirects: u32 -> bool)
  {
    && (|m| < 2 || m[1] % 16 != 2 ==> o == PassOther)
    && (|m| >= 2 && m[1] % 16 == 2 && m[0] >= 128 ==> o == PassControl)
    && (|m| >= 2 && m[1] % 16 == 2 && m[0] < 128 && (|m| < 6 || |m| < IdsEnd(m)) ==> o == PassOther)
    && (|m| >= 6 && CarriesData(m) && |m| >= IdsEnd(m) ==>
          o == SteerSession(SessionOf(m).tid, SessionOf(m).sid, maps, redirects))
  }

  lemma PayloadOutcome(m: seq<byte>, maps: CpuMaps, redirects: u32 -> bool)
    ensures match SteerParse(m)
            case NotData => SteeredAs(PassOther, m, maps, redirects)
            case ControlMessage => SteeredAs(PassControl, m, maps, redirects)
            case Ids(tid, sid) => SteeredAs(SteerSession(tid, sid, maps, redirects), m, maps, redirects)
  {
    hide SteerSession;
    if |m| >= 2 { WordBits(m); }
  }

  lemma WordBits(m: seq<byte>)
    requires |m| >= 2
    ensures Version(ReadU16(m, 0)) == m[1] % 16 && (HasT(ReadU16(m, 0)) <==> m[0] >= 128)
    ensures HasL(ReadU16(m, 0)) <==> m[0] / 64 % 2 == 1
  {}

  /** Every frame: zero to two tags, either IP version, any IPv4 options. */
  lemma EveryOutcome(f: seq<byte>, maps: CpuMaps, redirects: u32 -> bool)
    ensures var o := SteerFrame(f, maps, redirects);
      && (forall n: nat, at: nat :: MessageAt(f, n, at) ==> SteeredAs(o, f[at..], maps, redirects))
      && ((forall n: nat, at: nat :: !MessageAt(f, n, at)) ==> o == PassOther)
  {
    hide L2tpAt, SteerParse, SteeredAs, MessageAt;
    var o := SteerFrame(f, maps, redirects);
    forall n: nat, at: nat | MessageAt(f, n, at) ensures 8 <= at <= |f| && SteeredAs(o, f[at..], maps, redirects) {
      L2tpAtIff(f, at);
      MessageFits(f, n, at);
      PayloadOutcome(f[at..], maps, redirects);
    }
    if L2tpAt(f).Some? { L2tpAtIff(f, L2tpAt(f).value); }
  }

  lemma MessageFits(f: seq<byte>, n: nat, at: nat)
    requires MessageAt(f, n, at)
    ensures 8 <= at <= |f|
  {}

  /** Steering fails if no CPU is listed, the slot is empty or the helper refuses; otherwise
      the packet goes to the CPU of the slot that the session hash picks. */
  lemma SessionIsRedirected(tid: u16, sid: u16, maps: CpuMaps, redirects: u32 -> bool)
    ensures SteerSession(tid, sid, maps, redirects)
            == if Usable(tid, sid, maps, redirects) then Redirect(maps.available[HashSlot(tid, sid, maps)])
               else RedirectFail
  {
    hide SessionHash;
  }

  predicate Usable(tid: u16, sid: u16, maps: CpuMaps, redirects: u32 -> bool)
  {
    && maps.count > 0 && HashSlot(tid, sid, maps) < |maps.available|
    && redirects(maps.available[HashSlot(tid, sid, maps)])
  }

  function HashSlot(tid: u16, sid: u16, maps: CpuMaps): nat
    requires maps.count > 0
  {
    SessionHash((tid as int) * 0x1_0000 + sid) % maps.count
  }

  // ----- agreement with the plugin --------------------------------------------

  /** For every UDP payload the two parsers find the same ids, or neither finds any. */
  lemma ParsersAgree(b: seq<byte>)
    ensures SteerParse(b).Ids? <==> ParseHdr(b).Data?
    ensures ParseHdr(b).Data? ==> SteerParse(b) == Ids(ParseHdr(b).tid, ParseHdr(b).sid)
    ensures SteerParse(b).ControlMessage? && |b| >= 6 <==> ParseHdr(b).Control?
  {}

  /** A frame in which the plugin's classifier reaches L2TPv2 data is steered by the same
      session hash exactly when its IPv4 header length is legal. The classifier does not look
      at that length, and the steering program passes such frames on. */
  lemma PluginDataIsSteered(f: seq<byte>, maps: CpuMaps, redirects: u32 -> bool)
    requires DataAt(f).Some?
    ensures var id := SessionAt(f); var o := SteerFrame(f, maps, redirects);
      var legal := HeaderBytes(f, OuterIp4(f).value) >= 20;
      && (o == SteerSession(id.tid, id.sid, maps, redirects) <==> legal)
      && (!legal ==> o == PassOther)
  {
    hide SessionHash;
    var p := OuterIp4(f).value;
    ParsersAgree(f[DataAt(f).value..]);
    var ip := Cursor(p, ETHERTYPE_IP4);
    assert SkipVlans(f, ip, 1) == SkipVlans(f, ip, 0) == Some(ip);
    assert SkipVlans(f, Cursor(14, ReadU16(f, 12)), 2) == Some(ip);
  }

  /** With as many CPUs listed as there are workers, the two choose the same slot. */
  lemma SameSlot(tid: u16, sid: u16, maps: CpuMaps)
    requires 0 < maps.count == |maps.available| <= MAX_CPUS
    ensures var w := HandoffWorker(tid, sid, maps.count);
      1 <= w <= |maps.available| && SteerSession(tid, sid, maps, _ => true) == Redirect(maps.available[w - 1])
  {
    HandoffWorkerInRange(tid, sid, maps.count);
  }
}
