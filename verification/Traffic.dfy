/** What the flow handoff node does with each kind of frame, read off the frame's bytes
    (flow_handoff.c): its class, its flow key, and the thread it is sent to. */
module Traffic {
  import opened Bytes
  import opened Header
  import opened Input
  import opened Classify
  import opened FlowNode
  import Checksum
  import Bits

  // ----- the frame ------------------------------------------------------------

  /** The EtherType behind at most one 802.1Q tag, and where the packet starts. */
  function Layer3(f: seq<byte>): (r: Option<(u16, nat)>)
    ensures r.Some? ==> r.value.1 <= |f|
  {
    if |f| < 14 then None
    else if Network16(f[12], f[13]) != 0x8100 then Some((Network16(f[12], f[13]), 14))
    else if |f| < 18 then None
    else Some((Network16(f[16], f[17]), 18))
  }

  /** A whole IPv4 header and UDP header in one piece, to port 1701, with six bytes behind. */
  predicate ToPort1701(g: seq<byte>)
    requires |g| >= 20
  {
    var n := g[0] % 16 * 4;
    && g[9] == 17 && g[6] % 64 == 0 && g[7] == 0
    && |g| >= n + 14 && Network16(g[n + 2], g[n + 3]) == 1701
  }

  /** The L2TP message of such a packet. */
  function L2tpOf(g: seq<byte>): (l: seq<byte>)
    requires |g| >= 20 && ToPort1701(g)
    ensures |l| >= 6
  {
    g[g[0] % 16 * 4 + 8..]
  }

  /** Classified by the flow of the packet `g`, or kept local if it has none. */
  predicate ByOuterFlow(c: Class, g: seq<byte>)
  {
    match FlowOf(g)
    case Some(w) => c.kind == Outer && (w.Flow6? ==> |w.src6| == |w.dst6| == 16) && c.key == Some(KeyOfFlow(w))
    case None => c.kind == Local && c.key == None
  }

  /** The flow key of the packet inside, if there is one to be found. */
  function InnerKey(l: seq<byte>): Option<seq<byte>>
    requires |l| >= 6
  {
    if !CarriesData(l) || IsTruncated(l) || ProtocolOf(l) !in {0x0021, 0x0057} || PayloadAt(l) > |l| then None
    else
      match FlowOf(l[PayloadAt(l)..])
      case Some(w) => if w.Flow6? && !(|w.src6| == |w.dst6| == 16) then None else Some(KeyOfFlow(w))
      case None => None
  }

  lemma KeyOfPacket(f: seq<byte>, p: nat)
    requires p <= |f|
    ensures FlowKey(f, p)
            == match FlowOf(f[p..])
               case Some(w) => if w.Flow6? && !(|w.src6| == |w.dst6| == 16) then None else Some(KeyOfFlow(w))
               case None => None
    ensures FlowKey(f, p).Some? <==> FlowOf(f[p..]).Some?
    ensures match FlowOf(f[p..]) case Some(w) => w.Flow6? ==> |w.src6| == |w.dst6| == 16 case None => true
  {
    hide FlowKey, FlowOf, KeyOfFlow;
    FlowKeyAt(f, p);
    KeyIsOfFlow(f[p..]);
  }

  lemma OuterByFlow(f: seq<byte>, p: nat, eligible: bool, l2tp: nat)
    requires p <= |f|
    ensures ByOuterFlow(ClassifyOuter(f, p, true, eligible, l2tp), f[p..])
    ensures ClassifyOuter(f, p, false, eligible, l2tp) == Class(Outer, None, eligible, l2tp)
    ensures ClassifyOuter(f, p, true, eligible, l2tp).kind in {Outer, Local}
  {
    hide FlowKey, FlowOf, KeyOfFlow;
    KeyOfPacket(f, p);
  }

  // ----- IPv4 -----------------------------------------------------------------

  /** What is said of an IPv4 packet `g` that is not L2TPv2 data, with a hash wanted. */
  predicate PlainClass(c: Class, g: seq<byte>)
  {
    && (|g| < 20 ==> c.kind == Local && c.key == None)
    && (|g| >= 20 && !ToPort1701(g) ==> ByOuterFlow(c, g))
    && (|g| >= 20 && ToPort1701(g) ==>
          && (L2tpOf(g)[1] % 16 != 2 || CarriesControl(L2tpOf(g)) ==> c.kind == Local && c.key == None)
          && (CarriesData(L2tpOf(g)) && |L2tpOf(g)| < IdsEnd(L2tpOf(g)) ==> ByOuterFlow(c, g)))
  }

  /** The same without a hash. */
  predicate PlainKind(c: Class, g: seq<byte>)
  {
    && c.key == None
    && (|g| < 20 ==> c.kind == Local)
    && (|g| >= 20 && !ToPort1701(g) ==> c.kind == Outer)
    && (|g| >= 20 && ToPort1701(g) ==>
          && (L2tpOf(g)[1] % 16 != 2 || CarriesControl(L2tpOf(g)) ==> c.kind == Local)
          && (CarriesData(L2tpOf(g)) && |L2tpOf(g)| < IdsEnd(L2tpOf(g)) ==> c.kind == Outer))
  }

  /** A packet with the whole fixed part and the ids of L2TPv2 data. */
  predicate HasData(g: seq<byte>)
  {
    |g| >= 20 && ToPort1701(g) && CarriesData(L2tpOf(g)) && |L2tpOf(g)| >= IdsEnd(L2tpOf(g))
  }

  lemma LeadsIff(f: seq<byte>, p: nat)
    requires p + 20 <= |f|
    ensures var g := f[p..];
      && HeaderBytes(f, p) == g[0] % 16 * 4
      && (ToPort1701(g) <==>
            && f[p + 9] == PROTO_UDP && FragmentOffset(f, p) == 0 && !MoreFragments(f, p)
            && p + HeaderBytes(f, p) + 14 <= |f| && ReadU16(f, p + HeaderBytes(f, p) + 2) == UDP_PORT)
      && (ToPort1701(g) ==> f[p + HeaderBytes(f, p) + 8..] == L2tpOf(g))
  {
    var g, n := f[p..], HeaderBytes(f, p);
    assert g[0] == f[p] && g[6] == f[p + 6] && g[7] == f[p + 7] && g[9] == f[p + 9];
    if n + 14 <= |g| { assert g[n + 2] == f[p + n + 2] && g[n + 3] == f[p + n + 3]; }
  }

  lemma DataIff(f: seq<byte>, p: nat)
    requires p <= |f|
    ensures LeadsToData(f, p) <==> HasData(f[p..])
  {
    hide ParseHdr, FragmentOffset, MoreFragments;
    if p + 20 <= |f| {
      LeadsIff(f, p);
      if ToPort1701(f[p..]) { TruncatedIff(L2tpOf(f[p..])); }
    }
  }

  lemma Ip4Plain(f: seq<byte>, p: nat, tagged: bool, localIps: seq<Ip4>, fastpath: bool)
    requires p <= |f|
    ensures var g := f[p..];
      && (!HasData(g) ==> PlainClass(ClassifyIp4(f, p, tagged, localIps, fastpath, true), g))
      && (!HasData(g) ==> PlainKind(ClassifyIp4(f, p, tagged, localIps, fastpath, false), g))
  {
    hide FlowKey, FastChecks, ClassifyData, ClassifyOuter, ParseHdr, FragmentOffset, MoreFragments, ByOuterFlow;
    hide ToPort1701, HeaderBytes;
    OuterByFlow(f, p, false, 0);
    if p + 20 <= |f| {
      LeadsIff(f, p);
      if ToPort1701(f[p..]) { TruncatedIff(L2tpOf(f[p..])); }
    }
  }

  /** L2TPv2 data: by the flow inside if it has one, and by the outer one if not. */
  predicate DataClass(c: Class, g: seq<byte>)
    requires HasData(g)
  {
    && (InnerKey(L2tpOf(g)).Some? ==> c.kind in {Inner, Fast} && c.key == InnerKey(L2tpOf(g)))
    && (InnerKey(L2tpOf(g)) == None && c.kind != Fast ==> ByOuterFlow(c, g))
    && (InnerKey(L2tpOf(g)) == None && c.kind == Fast ==> c.key == None)
  }

  lemma InnerFound(f: seq<byte>, at: nat)
    requires at <= |f| && ParseHdr(f[at..]).Data?
    ensures var l := f[at..]; var h := ParseHdr(l); var o := InnerOffset(f, at, h);
      |l| >= 6 && InnerKey(l) == if o.Some? then FlowKey(f, o.value) else None
  {
    hide ParseHdr, InnerOffset, FlowKey, FlowOf, KeyOfFlow, Walk, IsTruncated, ProtocolOf, PayloadAt;
    var l := f[at..];
    TruncatedIff(l);
    var known := map[SessionOf(l) := 0];
    WalkOnBytes(l, known);
    OffsetsAgree(f, at, known);
    NotTruncated(l);
    if !IsTruncated(l) && ProtocolOf(l) in {0x0021, 0x0057} {
      KeyOfPacket(f, at + PayloadAt(l));
      assert f[at + PayloadAt(l)..] == l[PayloadAt(l)..];
    }
  }

  lemma Ip4Data(f: seq<byte>, p: nat, tagged: bool, localIps: seq<Ip4>, fastpath: bool)
    requires p <= |f| && HasData(f[p..])
    ensures DataClass(ClassifyIp4(f, p, tagged, localIps, fastpath, true), f[p..])
    ensures var c := ClassifyIp4(f, p, tagged, localIps, fastpath, false); c.kind in {Inner, Fast} && c.key == None
  {
    hide FlowKey, FastChecks, ClassifyOuter, ClassifyIp4, ParseHdr, ByOuterFlow, InnerKey, InnerOffset, HasData;
    DataIff(f, p);
    var at := p + HeaderBytes(f, p) + 8;
    assert HasData(f[p..]) ==> |f[p..]| >= 20 && ToPort1701(f[p..]) by { DataParts(f[p..]); }
    LeadsIff(f, p);
    var fast := ClassifiedIp4(f, p, tagged, localIps, fastpath, true);
    var slow := ClassifiedIp4(f, p, tagged, localIps, fastpath, false);
    InnerFound(f, at);
    OuterByFlow(f, p, fast, at);
  }

  lemma DataParts(g: seq<byte>)
    requires HasData(g)
    ensures |g| >= 20 && ToPort1701(g)
  {}

  // ----- every frame ----------------------------------------------------------

  /** The class of every frame, with a hash wanted. What is not IP is kept local. IPv6, and
      IPv4 that is not UDP to port 1701, goes by its own flow. On that port control messages
      and other versions are kept local; data goes by the flow inside it, or by its own. */
  lemma EveryClass(f: seq<byte>, localIps: seq<Ip4>, fastpath: bool)
    ensures var c := ClassifyFrame(f, localIps, fastpath, true);
      match Layer3(f)
      case None => c.kind == Local && c.key == None
      case Some((etherType, p)) =>
        var g := f[p..];
        && (etherType == 0x86DD ==> ByOuterFlow(c, g))
        && (etherType == 0x0800 ==> if HasData(g) then DataClass(c, g) else PlainClass(c, g))
        && (etherType !in {0x86DD, 0x0800} ==> c.kind == Local && c.key == None)
  {
    hide FlowKey, ClassifyIp4, ByOuterFlow, HasData, DataClass, PlainClass;
    match Layer3(f)
    case None =>
    case Some((etherType, p)) =>
      OuterByFlow(f, p, false, 0);
      if HasData(f[p..]) {
        Ip4Data(f, p, p == 18, localIps, fastpath);
      } else {
        Ip4Plain(f, p, p == 18, localIps, fastpath);
      }
  }

  /** And without a hash, when there is at most one worker or packets are sprayed. */
  lemma EveryKind(f: seq<byte>, localIps: seq<Ip4>, fastpath: bool)
    ensures var c := ClassifyFrame(f, localIps, fastpath, false);
      match Layer3(f)
      case None => c.kind == Local && c.key == None
      case Some((etherType, p)) =>
        var g := f[p..];
        && (etherType == 0x86DD ==> c.kind == Outer && c.key == None)
        && (etherType == 0x0800 ==>
              if HasData(g) then c.kind in {Inner, Fast} && c.key == None else PlainKind(c, g))
        && (etherType !in {0x86DD, 0x0800} ==> c.kind == Local && c.key == None)
  {
    hide FlowKey, ClassifyIp4, HasData, PlainKind;
    match Layer3(f)
    case None =>
    case Some((etherType, p)) =>
      if HasData(f[p..]) {
        Ip4Data(f, p, p == 18, localIps, fastpath);
      } else {
        Ip4Plain(f, p, p == 18, localIps, fastpath);
      }
  }

  /** The outer checks of the fast path, on the bytes. */
  lemma OuterChecksOnBytes(f: seq<byte>, localIps: seq<Ip4>)
    ensures OuterChecks(f, localIps) <==>
      && |f| >= 48 && f[12] == 0x08 && f[13] == 0x00
      && f[14] == 0x45 && f[23] == 17 && f[20] % 64 == 0 && f[21] == 0
      && Checksum.WordSum(f[14..34]) % 0xFFFF == 0
      && 34 <= Network16(f[16], f[17]) <= |f| - 14
      && f[30..34] in localIps && Network16(f[36], f[37]) == 1701
      && CarriesData(f[42..]) && |f| - 42 >= IdsEnd(f[42..])
  {
    hide ParseHdr, FragmentOffset, MoreFragments;
    hide Checksum.Valid;
    hide Checksum.WordSum;
    if |f| >= 48 {
      HeaderBits(f);
      TruncatedIff(f[42..]);
      if f[14] == 0x45 { Checksum.ValidIff(f[14..34]); }
    }
  }

  lemma HeaderBits(f: seq<byte>)
    requires |f| >= 34
    ensures FragmentOffset(f, 14) == 0 && !MoreFragments(f, 14) <==> f[20] % 64 == 0 && f[21] == 0
  {}

  /** L2TPv2 data at `at` that carries an IP packet. */
  predicate IpInside(f: seq<byte>, at: nat)
  {
    && at + 6 <= |f| && CarriesData(f[at..]) && !IsTruncated(f[at..])
    && ProtocolOf(f[at..]) in {0x0021, 0x0057}
  }

  /** What the node decides on is the class with the settings of the interface; a hash is
      wanted with two or more workers and no spray. */
  lemma DecisionHasClass(ifd: IfData, b: Buffer, localIps: seq<Ip4>, thisThread: u16, crc: seq<byte> -> u32)
    ensures var hashed := |ifd.workers| >= 2 && !ifd.spray;
      var d := Decide(ifd, b, localIps, thisThread, crc); var f := Current(b);
      && d.cls == ClassifyFrame(f, localIps, ifd.fastpath, hashed)
      && (d.cls.kind == Fast <==>
            ifd.fastpath && OuterChecks(f, localIps)
            && (hashed ==> IpInside(f, 42)))
  {
    hide ClassifyFrame, OuterChecks, InnerOffset;
    var f := Current(b);
    FastIff(f, localIps, ifd.fastpath, WantHash(ifd));
    if OuterChecks(f, localIps) {
      DataBehindChecks(f, localIps);
      InnerOffsetIff(f, 42);
    }
  }

  lemma DataBehindChecks(f: seq<byte>, localIps: seq<Ip4>)
    requires OuterChecks(f, localIps)
    ensures |f| >= 48 && ParseHdr(f[42..]).Data? && CarriesData(f[42..])
  {
    TruncatedIff(f[42..]);
  }

  lemma InnerOffsetIff(f: seq<byte>, at: nat)
    requires at <= |f| && ParseHdr(f[at..]).Data? && |f| - at >= 6 && CarriesData(f[at..])
    ensures var l := f[at..];
      InnerOffset(f, at, ParseHdr(l)).Some? <==> IpInside(f, at)
  {
    hide ParseHdr, InnerOffset, Walk, IsTruncated, ProtocolOf, PayloadAt;
    var l := f[at..];
    TruncatedIff(l);
    var known := map[SessionOf(l) := 0];
    WalkOnBytes(l, known);
    OffsetsAgree(f, at, known);
  }

  /** What the path without the shortcut leads to l2tvpp-input, on the bytes of the IP packet:
      a header of any legal length with a valid checksum, a sensible length, one of our
      addresses, no fragment, and UDP to port 1701. */
  predicate ReferenceIp(g: seq<byte>, localIps: seq<Ip4>)
  {
    && |g| >= 20
    && var n := g[0] % 16 * 4;
    && g[0] / 16 == 4 && 20 <= n && n + 8 <= |g|
    && 20 <= Network16(g[2], g[3]) <= |g|
    && Checksum.Valid(g[..n]) && g[16..20] in localIps
    && g[6] % 64 == 0 && g[7] == 0 && g[9] == 17
    && Network16(g[n + 2], g[n + 3]) == 1701
  }

  /** The reference path, behind at most one tag, exactly; the buffer arrives at its L2TP header
      with the three header offsets recorded. */
  lemma ReferencePathOnBytes(b: Buffer, localIps: seq<Ip4>)
    ensures var a := EthernetInput(b, localIps);
      match Layer3(Current(b))
      case None => !a.AtL2tvppInput?
      case Some((etherType, p)) =>
        var g := Current(b)[p..];
        && (a.AtL2tvppInput? <==> etherType == 0x0800 && ReferenceIp(g, localIps))
        && (a.AtL2tvppInput? ==>
              var n := g[0] % 16 * 4;
              a.buffer == b.(l2 := b.pos, l3 := b.pos + p, l4 := b.pos + p + n,
                             pos := b.pos + p + n + 8, len := b.len - p - n - 8))
  {
    hide Ip4InputPath, ReferenceIp, Network16, ReadU16;
    var f := Current(b);
    EtherTypes(f);
    match Layer3(f)
    case None =>
    case Some((etherType, p)) =>
      if etherType == 0x0800 {
        var m := b.(l2 := b.pos, l3 := b.pos + p);
        CurrentAfterAdvance(m, p);
        ReferenceIpPath(Advance(m, p), localIps);
      }
  }

  lemma EtherTypes(f: seq<byte>)
    ensures |f| >= 14 ==> ReadU16(f, 12) == Network16(f[12], f[13])
    ensures |f| >= 18 ==> ReadU16(f, 16) == Network16(f[16], f[17])
  {}

  lemma HeaderFields(g: seq<byte>)
    requires |g| >= 20
    ensures FragmentOffset(g, 0) == 0 && !MoreFragments(g, 0) <==> g[6] % 64 == 0 && g[7] == 0
    ensures TotalLength(g, 0) == Network16(g[2], g[3]) && HeaderBytes(g, 0) == g[0] % 16 * 4
  {}

  lemma ReferenceIpPath(ip: Buffer, localIps: seq<Ip4>)
    ensures var a := Ip4InputPath(ip, localIps); var g := Current(ip);
      && (a.AtL2tvppInput? <==> ReferenceIp(g, localIps))
      && (a.AtL2tvppInput? ==>
            var n := g[0] % 16 * 4;
            a.buffer == ip.(l4 := ip.pos + n, pos := ip.pos + n + 8, len := ip.len - n - 8))
  {
    hide FragmentOffset, MoreFragments, TotalLength, HeaderBytes, Ip4Receive, Network16;
    hide Checksum.Valid;
    var g := Current(ip);
    if |g| >= 20 {
      HeaderFields(g);
      if 20 <= HeaderBytes(g, 0) <= |g| { ReferenceUdp(ip); }
    }
  }

  lemma ReferenceUdp(ip: Buffer)
    requires ip.len >= 20 && 20 <= HeaderBytes(Current(ip), 0) <= ip.len
    ensures var g := Current(ip); var n := g[0] % 16 * 4; var a := Ip4Receive(ip);
      && (a.AtL2tvppInput? <==> g[6] % 64 == 0 && g[7] == 0 && g[9] == 17
                                && n + 8 <= |g| && Network16(g[n + 2], g[n + 3]) == 1701)
      && (a.AtL2tvppInput? ==> a.buffer == ip.(l4 := ip.pos + n, pos := ip.pos + n + 8, len := ip.len - n - 8))
  {
    hide FragmentOffset, MoreFragments, TotalLength, HeaderBytes, ReadU16, Network16;
    var g := Current(ip);
    HeaderFields(g);
    var n := HeaderBytes(g, 0);
    CurrentAfterAdvance(ip.(l4 := ip.pos + n), n);
    if n + 8 <= |g| { WordIs(g[n..], 2); }
  }

  lemma WordIs(b: seq<byte>, i: nat)
    requires i + 2 <= |b|
    ensures ReadU16(b, i) == Network16(b[i], b[i + 1])
  {}

  // ----- the thread -----------------------------------------------------------

  /** The workers of a bitmap below `w`. */
  function Below(bitmap: set<nat>, w: nat): set<nat> { set x | x in bitmap && x < w }

  lemma BelowStep(bitmap: set<nat>, n: nat)
    ensures |Below(bitmap, n + 1)| == |Below(bitmap, n)| + if n in bitmap then 1 else 0
  {
    if n in bitmap {
      assert Below(bitmap, n + 1) == Below(bitmap, n) + {n};
    } else {
      assert Below(bitmap, n + 1) == Below(bitmap, n);
    }
  }

  /** The j-th thread of the worker list is that of the j-th worker of the bitmap. */
  lemma {:induction false} ThreadRank(bitmap: set<nat>, n: nat, j: nat)
    requires n < 0xFFFF
    ensures |Threads(bitmap, n)| == |Below(bitmap, n)|
    ensures j < |Threads(bitmap, n)| ==>
      Threads(bitmap, n)[j] >= 1 && |Below(bitmap, Threads(bitmap, n)[j] - 1)| == j
  {
    hide Below;
    if n == 0 {
      NoneBelow(bitmap);
    } else {
      ThreadRank(bitmap, n - 1, j);
      BelowStep(bitmap, n - 1);
    }
  }

  lemma NoneBelow(bitmap: set<nat>)
    ensures |Below(bitmap, 0)| == 0
  {
    assert Below(bitmap, 0) == {};
  }

  /** In hash mode, with the workers of an accepted bitmap: packets that are kept local, and
      all packets if there are no workers, stay on this thread. With one worker all others go
      there. With more, a packet whose key hashes to h goes to the (h mod n)-th worker of the
      bitmap in ascending order; without a key h is zero. */
  lemma HashModeThread(bitmap: set<nat>, nWorkers: nat, ifd: IfData, c: Class, thisThread: u16, crc: seq<byte> -> u32)
    requires nWorkers < 0xFFFF && (forall w :: w in bitmap ==> w < nWorkers)
    requires !ifd.spray && ifd.workers == Threads(bitmap, nWorkers)
    ensures var t := ChooseThread(ifd, c, thisThread, crc); var h := if c.key.Some? then crc(c.key.value) else 0;
      if c.kind == Local || bitmap == {} then t == thisThread
      else t >= 1 && t - 1 in bitmap && |Below(bitmap, t - 1)| == h % |bitmap|
  {
    hide Threads, Below;
    hide FlowNode.Slot;
    ThreadsExact(bitmap, nWorkers);
    ThreadRank(bitmap, nWorkers, 0);
    AllBelow(bitmap, nWorkers);
    var nw := |ifd.workers|;
    if bitmap == {} {
      NoBitmap(nWorkers);
    } else {
      var t := ChooseThread(ifd, c, thisThread, crc);
      var h := if c.key.Some? then crc(c.key.value) else 0;
      if nw == 1 { OneResidue(h); }
      var j := if nw == 1 then 0 else FlowNode.Slot(h, nw);
      ThreadRank(bitmap, nWorkers, j);
      assert ifd.workers[j] in ifd.workers;
    }
  }

  lemma OneResidue(h: nat)
    ensures h % 1 == 0
  {}

  lemma NoBitmap(nWorkers: nat)
    requires nWorkers < 0xFFFF
    ensures Threads({}, nWorkers) == []
  {
    ThreadRank({}, nWorkers, 0);
    assert Below({}, nWorkers) == {};
  }

  lemma AllBelow(bitmap: set<nat>, n: nat)
    requires forall w :: w in bitmap ==> w < n
    ensures Below(bitmap, n) == bitmap
  {}

  /** So two packets go to different threads exactly if their hashes differ modulo the number
      of workers. */
  lemma HashesApart(bitmap: set<nat>, nWorkers: nat, ifd: IfData, c: Class, d: Class, thisThread: u16,
                    crc: seq<byte> -> u32)
    requires nWorkers < 0xFFFF && (forall w :: w in bitmap ==> w < nWorkers) && bitmap != {}
    requires !ifd.spray && ifd.workers == Threads(bitmap, nWorkers)
    requires c.kind != Local && d.kind != Local && c.key.Some? && d.key.Some?
    ensures ChooseThread(ifd, c, thisThread, crc) == ChooseThread(ifd, d, thisThread, crc)
            <==> crc(c.key.value) % |bitmap| == crc(d.key.value) % |bitmap|
  {
    hide ChooseThread, Threads;
    HashModeThread(bitmap, nWorkers, ifd, c, thisThread, crc);
    HashModeThread(bitmap, nWorkers, ifd, d, thisThread, crc);
    var t, u := ChooseThread(ifd, c, thisThread, crc), ChooseThread(ifd, d, thisThread, crc);
    if t < u { RanksDiffer(bitmap, t - 1, u - 1); }
    if u < t { RanksDiffer(bitmap, u - 1, t - 1); }
  }

  lemma RanksDiffer(bitmap: set<nat>, v: nat, w: nat)
    requires v in bitmap && v < w
    ensures |Below(bitmap, v)| < |Below(bitmap, w)|
  {
    Bits.Subset(Below(bitmap, v) + {v}, Below(bitmap, w));
    assert |Below(bitmap, v) + {v}| == |Below(bitmap, v)| + 1;
  }

  function Constantly(h: int): seq<byte> -> u32 { _ => if 0 <= h < 0x1_0000_0000 then h else 0 }

  /** The hash values that send a packet to thread `t`. */
  ghost function HashesOf(ifd: IfData, c: Class, thisThread: u16, t: u16): set<int>
  {
    set h: int | 0 <= h < 0x1_0000_0000 && ChooseThread(ifd, c, thisThread, Constantly(h)) == t
  }

  /** Over all 2^32 hash values each worker of the bitmap is chosen 2^32 / n times, or once
      more. */
  lemma HashesSpread(bitmap: set<nat>, nWorkers: nat, ifd: IfData, c: Class, thisThread: u16, worker: nat)
    requires nWorkers < 0xFFFF && (forall w :: w in bitmap ==> w < nWorkers) && worker in bitmap
    requires !ifd.spray && ifd.workers == Threads(bitmap, nWorkers) && c.kind != Local && c.key.Some?
    ensures |bitmap| > 0
    ensures var n := |bitmap|;
      0x1_0000_0000 / n <= |HashesOf(ifd, c, thisThread, worker + 1)|
      <= 0x1_0000_0000 / n + if 0x1_0000_0000 % n == 0 then 0 else 1
  {
    hide ChooseThread, Threads;
    hide Bits.Residues;
    var n, slot := |bitmap|, |Below(bitmap, worker)|;
    RankInRange(bitmap, worker);
    var mine, residues := HashesOf(ifd, c, thisThread, worker + 1), Bits.Residues(0, 0x1_0000_0000, n, slot);
    forall h: int ensures h in mine <==> h in residues {
      if 0 <= h < 0x1_0000_0000 { HashGoes(bitmap, nWorkers, ifd, c, thisThread, worker, h); }
      ResidueIff(h, n, slot);
    }
    assert mine == residues;
    Bits.ResidueCount(0, 0x1_0000_0000, n, slot);
  }

  lemma ResidueIff(h: int, n: nat, slot: nat)
    requires n > 0
    ensures h in Bits.Residues(0, 0x1_0000_0000, n, slot) <==> 0 <= h < 0x1_0000_0000 && h % n == slot
  {}

  lemma RankInRange(bitmap: set<nat>, worker: nat)
    requires worker in bitmap
    ensures |Below(bitmap, worker)| < |bitmap|
  {
    Bits.Subset(Below(bitmap, worker) + {worker}, bitmap);
    assert |Below(bitmap, worker) + {worker}| == |Below(bitmap, worker)| + 1;
  }

  lemma HashGoes(bitmap: set<nat>, nWorkers: nat, ifd: IfData, c: Class, thisThread: u16, worker: nat, h: u32)
    requires nWorkers < 0xFFFF && (forall w :: w in bitmap ==> w < nWorkers) && worker in bitmap
    requires !ifd.spray && ifd.workers == Threads(bitmap, nWorkers) && c.kind != Local && c.key.Some?
    ensures ChooseThread(ifd, c, thisThread, Constantly(h)) == worker + 1
            <==> h % |bitmap| == |Below(bitmap, worker)|
  {
    hide ChooseThread, Threads, Below;
    HashModeThread(bitmap, nWorkers, ifd, c, thisThread, Constantly(h));
    var t := ChooseThread(ifd, c, thisThread, Constantly(h));
    if t - 1 < worker { RanksDiffer(bitmap, t - 1, worker); }
    if worker < t - 1 { RanksDiffer(bitmap, worker, t - 1); }
  }
}
