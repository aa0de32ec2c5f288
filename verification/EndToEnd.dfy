/** The pieces together: what a converged daemon and plugin do to traffic. */
module EndToEnd {
  import opened Bytes
  import opened Header
  import opened Objects
  import opened Tables
  import opened Input
  import opened Classify
  import opened Printer
  import opened EncapCache
  import opened Mirror
  import opened Encap

  /** The sessions l2tvpp-input finds: the key index composed with the session pool. */
  function Known(p: Plugin): map<SessionId, nat>
    requires KeyIndexOk(p)
  {
    map k | k in p.byKey :: p.sessions[p.byKey[k]].swIf
  }

  /** Upstream: after convergence, a data packet in any framing is decapsulated exactly when
      the kernel lists its session, and is punted to the kernel otherwise; decapsulated
      packets enter on the interface that carries all of the session's routes. */
  lemma UpstreamFollowsKernel(p: Plugin, inst: Records, want: map<SessionId, KernelSession>,
                              fr: Framing, id: SessionId, proto: u16, inner: seq<byte>)
    requires Converged(p, inst, want)
    requires IsData(fr) && proto in {PPP_IP4, PPP_IP6} && |PppHeader(fr, proto)| + |inner| >= 4
    ensures var f := Walk(Print(fr, id, proto, inner), Known(p));
      && (f.Deliver? <==> id in want)
      && (f.Deliver? ==> f.id == id && f.proto == proto && Print(fr, id, proto, inner)[f.payload..] == inner
                         && forall x :: x in want[id].routes ==> Route(x, Known(p)[id]) in p.fib)
      && (!f.Deliver? ==> f == Punted(PuntNoSession))
  {
    hide Walk;
    if id in want {
      PrintedDataRoundTrip(fr, id, proto, inner, Known(p));
      SessionRoutes(p, inst, want, id);
    } else {
      UnknownIsPunted(fr, id, proto, inner, Known(p));
    }
  }

  lemma SessionRoutes(p: Plugin, inst: Records, want: map<SessionId, KernelSession>, k: SessionId)
    requires Converged(p, inst, want) && k in want
    ensures k in Known(p) && forall x :: x in want[k].routes ==> Route(x, Known(p)[k]) in p.fib
  {
    forall x | x in want[k].routes ensures Route(x, Known(p)[k]) in p.fib {
      RouteIsWanted(p, inst, want, Route(x, Known(p)[k]));
      assert WantedVia(p, want, k, Route(x, Known(p)[k]));
    }
  }

  lemma UnknownIsPunted(fr: Framing, id: SessionId, proto: u16, inner: seq<byte>, known: map<SessionId, nat>)
    requires IsData(fr) && proto in {PPP_IP4, PPP_IP6} && |PppHeader(fr, proto)| + |inner| >= 4
    requires id !in known
    ensures Walk(Print(fr, id, proto, inner), known) == Punted(PuntNoSession)
  {
    var b := Print(fr, id, proto, inner);
    var rest := PppHeader(fr, proto) + inner;
    assert b == Ids(fr, id) + (Options(fr) + rest) == Ids(fr, id) + Options(fr) + rest;
    ParsePrintedIds(fr, id, Options(fr) + rest);
    SkipPrintedOptions(fr, id, rest);
  }

  // ----- where it comes from --------------------------------------------------

  /** Once its peers match, what a session sends comes from the address and port that the kernel
      names for it, or else from the daemon's. */
  lemma SourceIsKernels(p: Plugin, k: SessionId, s: KernelSession, fb: Fallback, inner: seq<byte>)
    requires PeersMatch(p, k, s, fb)
    ensures var x := p.sessions[p.byKey[k]]; var pkt := Encapsulate(p.tunnels[x.tunnelIndex], x, PPP_IP4, inner);
      && (s.localIp.Some? ==> pkt[12..16] == s.localIp.value)
      && (s.localIp.None? && fb.ip.Some? ==> pkt[12..16] == fb.ip.value)
      && ReadU16(pkt, 20) == (if s.localPort.Some? && s.localPort.value != 0 then s.localPort.value else fb.port)
  {
    hide Encapsulate, Suits;
    var x := p.sessions[p.byKey[k]];
    var t := p.tunnels[x.tunnelIndex];
    SuitsFields(EndpointOf(t), s, fb);
    OuterFields(t, x, PPP_IP4, inner);
  }

  // ----- downstream -----------------------------------------------------------

  /** What ip4-midchain makes of an IP packet before the rewrite goes in front: the time to
      live is one less, the header checksum is adapted, and nothing else changes. */
  predicate HandsOn(ip: seq<byte>, out: seq<byte>)
  {
    && |out| == |ip| >= 20 && ip[8] > 1 && out[8] == ip[8] - 1
    && forall i :: 0 <= i < |ip| && i !in {8, 10, 11} ==> out[i] == ip[i]
  }

  /** What leaves the session interface of `k` reaches the LAC that the kernel names for `s`,
      as one IP packet of the length it says, and there, under the kernel's peer ids, exactly
      `inner` is recovered. */
  ghost predicate LacGets(p: Plugin, k: SessionId, s: KernelSession, inner: seq<byte>)
    requires KeyIndexOk(p) && Anchored(p) && k in p.byKey
  {
    var x := p.sessions[p.byKey[k]];
    var pkt := Encapsulate(p.tunnels[x.tunnelIndex], x, PPP_IP4, inner);
    var id := SessionId(s.peerTid, s.peerSid);
    var w := Walk(pkt[28..], map[id := 0]);
    && ReadU16(pkt, 2) == |pkt| && pkt[16..20] == s.peerIp && ReadU16(pkt, 22) == s.peerPort
    && w.Deliver? && w.id == id && pkt[28..][w.payload..] == inner
  }

  /** The session and its tunnel name the kernel's peer. */
  predicate NamesLac(p: Plugin, k: SessionId, s: KernelSession)
    requires KeyIndexOk(p) && Anchored(p) && k in p.byKey
  {
    var x := p.sessions[p.byKey[k]];
    var t := p.tunnels[x.tunnelIndex];
    t.peerIp == s.peerIp && t.peerPort == s.peerPort && t.peerTid == s.peerTid && x.peerSid == s.peerSid
  }

  /** The outer length field, which has 16 bits, can hold the length. */
  predicate FitsOuterLength(inner: seq<byte>) { 38 + |inner| < 0x1_0000 }

  /** A packet gets through exactly if the tables name the kernel's peer, as any other id is
      unknown at the LAC, and its length fits the outer header: the fixup truncates it. */
  lemma LacGetsIff(p: Plugin, k: SessionId, s: KernelSession, inner: seq<byte>)
    requires KeyIndexOk(p) && Anchored(p) && k in p.byKey
    ensures LacGets(p, k, s, inner) <==> NamesLac(p, k, s) && FitsOuterLength(inner)
  {
    hide Walk, Encapsulate;
    var x := p.sessions[p.byKey[k]];
    var t := p.tunnels[x.tunnelIndex];
    var id := SessionId(s.peerTid, s.peerSid);
    OuterFields(t, x, PPP_IP4, inner);
    if id == SessionId(t.peerTid, x.peerSid) {
      EncapRoundTrip(t, x, LinkIp4, inner, map[id := 0]);
    } else {
      UnknownAtLac(t, x, inner, map[id := 0]);
    }
  }

  lemma UnknownAtLac(t: Tunnel, x: Session, inner: seq<byte>, known: map<SessionId, nat>)
    requires SessionId(t.peerTid, x.peerSid) !in known
    ensures Walk(Encapsulate(t, x, PPP_IP4, inner)[28..], known) == Punted(PuntNoSession)
  {
    hide ParseHdr, Encapsulate;
    TailUnpatched(t, x, PPP_IP4, inner);
    PlainHeader(t.peerTid, x.peerSid, PPP_IP4, inner, map[SessionId(t.peerTid, x.peerSid) := 0]);
  }

  lemma MatchedNamesLac(p: Plugin, k: SessionId, s: KernelSession, fb: Fallback)
    requires KeyIndexOk(p) && Anchored(p) && PeersMatch(p, k, s, fb)
    ensures NamesLac(p, k, s)
  {}

  /** The LAC gets what is sent into session `k` exactly under the two conditions, of which the
      first is met when all peers match. */
  ghost predicate GetsThrough(p: Plugin, want: map<SessionId, KernelSession>, fb: Fallback, k: SessionId,
                              out: seq<byte>)
    requires KeyIndexOk(p) && Anchored(p) && k in p.byKey && k in want
  {
    && (LacGets(p, k, want[k], out) <==> NamesLac(p, k, want[k]) && FitsOuterLength(out))
    && (AllPeersMatch(p, want, fb) ==> NamesLac(p, k, want[k]))
  }

  /** Downstream: after convergence the shortcut sends a packet only into a session that the
      kernel lists with that very address. The LAC recovers what ip4-midchain hands on, the
      packet with its time to live lowered, under the ids the kernel uses, exactly if the
      tables name the kernel's peer, as they do for all sessions when all peers match, and
      the packet is at most 65497 bytes long. */
  lemma DownstreamFollowsKernel(p: Plugin, inst: Records, want: map<SessionId, KernelSession>, fb: Fallback,
                                b: Buffer, out: seq<byte>)
    requires Converged(p, inst, want)
    requires var (next, c) := Shortcut(b, p.cache); next != EthernetInputNext ==> HandsOn(Current(c), out)
    ensures var (next, c) := Shortcut(b, p.cache);
      next != EthernetInputNext ==>
        && b.len >= 34 && out[12..20] == Current(b)[26..34] && out[20..] == Current(b)[34..]
        && exists k :: WantedVia(p, want, k, Route(Prefix4(Current(b)[30..34], 32), next.adj.swIf))
                       && GetsThrough(p, want, fb, k, out)
  {
    hide TunnelKeysUnique, CountsOk, LocalIpsOk, RecordsOk, RoutesOk, NoIdleTunnel;
    hide LacGets, NamesLac, PeekDst, PeersMatch;
    var (next, c) := Shortcut(b, p.cache);
    if next != EthernetInputNext {
      ShortcutHit(b, p.cache);
      KeptByMidchain(Current(b), out);
      var d := Current(c)[16..20];
      assert d == Current(b)[30..34];
      var r := Route(Prefix4(d, 32), next.adj.swIf);
      assert r in p.fib;
      RouteIsWanted(p, inst, want, r);
      var k :| WantedVia(p, want, k, r);
      LacGetsIff(p, k, want[k], out);
      if AllPeersMatch(p, want, fb) { MatchedNamesLac(p, k, want[k], fb); }
    }
  }

  lemma KeptByMidchain(f: seq<byte>, out: seq<byte>)
    requires |f| >= 34 && HandsOn(f[14..], out)
    ensures out[12..20] == f[26..34] && out[20..] == f[34..]
  {
    assert forall i :: 12 <= i < |out| ==> out[i] == f[14..][i] == f[14 + i];
  }
}
