/** What it means for the plugin's tables to mirror the daemon's records (l2tvppd.py). */
module Mirror {
  import opened Bytes
  import opened Header
  import opened Objects
  import opened Tables
  import opened EncapCache

  /** A kernel session, already parsed and merged with its tunnel's endpoints. */
  datatype KernelSession = KernelSession(
    id: SessionId, peerIp: Ip4, peerPort: u16, localIp: Option<Ip4>, localPort: Option<u16>,
    peerTid: u16, peerSid: u16, hasIf: bool, routes: seq<Prefix>)

  /** What the daemon installed for a session. */
  datatype Record = Record(swIf: nat, tunnelIndex: nat, sid: u16, peerSid: u16, tunnelKey: TunnelKey,
                           routes: seq<Prefix>)

  type Records = map<SessionId, Record>

  function TunnelKeyOf(s: KernelSession): TunnelKey { TunnelKey(s.peerIp, s.peerPort, s.id.tid) }

  function Prefixes(pfxs: seq<Prefix>): set<Prefix> { set x | x in pfxs }

  // ----- agreement of tables and records --------------------------------------

  /** The record of session `k` describes a live session with that id, exactly: interface,
      session ids, tunnel and tunnel key. */
  predicate Describes(p: Plugin, k: SessionId, rec: Record)
  {
    && k in p.byKey && p.byKey[k] in p.sessions
    && var s := p.sessions[p.byKey[k]];
    && rec.swIf == s.swIf && rec.sid == k.sid && rec.peerSid == s.peerSid
    && rec.tunnelIndex == s.tunnelIndex && IsTunnel(p, rec.tunnelKey, rec.tunnelIndex)
  }

  /** The id of the live session behind interface `w`. */
  function Owner(p: Plugin, w: nat): SessionId
    requires SwIfIndexOk(p) && w in p.bySwIf
  {
    IdOf(p.sessions[p.bySwIf[w]])
  }

  /** The records say that `r` should be installed. */
  predicate Recorded(p: Plugin, inst: Records, r: Route)
    requires SwIfIndexOk(p)
  {
    r.swIf in p.bySwIf && Owner(p, r.swIf) in inst && r.pfx in inst[Owner(p, r.swIf)].routes
  }

  predicate RecordsOk(p: Plugin, inst: Records)
  {
    inst.Keys == p.byKey.Keys && forall k :: k in inst ==> Describes(p, k, inst[k])
  }

  ghost predicate RoutesOk(p: Plugin, inst: Records)
    requires SwIfIndexOk(p)
  {
    forall r :: r in p.fib <==> Recorded(p, inst, r)
  }

  /** Sessions and records match one to one, and so do routes and recorded prefixes. */
  ghost predicate InSync(p: Plugin, inst: Records)
    requires SwIfIndexOk(p)
  {
    RecordsOk(p, inst) && RoutesOk(p, inst)
  }

  ghost predicate Settled(p: Plugin, inst: Records)
  {
    TablesOk(p) && CacheOk(p) && InSync(p, inst)
  }

  /** No tunnel is left without a session. */
  predicate NoIdleTunnel(p: Plugin)
  {
    forall t :: t in p.tunnels ==> p.tunnels[t].nSessions != 0
  }

  function UsedTunnels(p: Plugin): set<nat> { set i | i in p.sessions :: p.sessions[i].tunnelIndex }

  /** With the table invariant, no idle tunnel means: the tunnels are exactly those in use. */
  lemma NoIdleIsExact(p: Plugin)
    requires TablesOk(p)
    ensures NoIdleTunnel(p) <==> p.tunnels.Keys == UsedTunnels(p)
  {
    hide KeyIndexOk, SwIfIndexOk, TunnelKeysUnique, LocalIpsOk;
    forall t | t in p.tunnels ensures p.tunnels[t].nSessions != 0 <==> t in UsedTunnels(p) {
      if p.tunnels[t].nSessions == 0 {
        NoneCounted(p.sessions, t);
      } else {
        var i :| i in SessionsOf(p.sessions, t);
      }
    }
  }

  // ----- runs of route calls --------------------------------------------------

  function Paths(pfxs: set<Prefix>, w: nat): set<Route> { set x | x in pfxs :: Route(x, w) }

  /** The addresses of the host routes among `pfxs`: those the encap cache is keyed by. */
  function Hosts(pfxs: set<Prefix>): set<Ip4> { set x | x in pfxs && Cacheable(x) :: x.ip4 }

  /** The encap cache, and the locks by which the counter exceeds it: those that are lost. */
  datatype Ledger = Ledger(cache: map<Ip4, Adjacency>, surplus: int)

  function LedgerOf(p: Plugin): Ledger { Ledger(p.cache, p.cacheCount - |p.cache|) }

  /** A route call on interface `w`: an add of a cached address loses a lock. */
  function AddOne(l: Ledger, x: Prefix, w: nat): Ledger
  {
    if !Cacheable(x) then l
    else Ledger(l.cache[x.ip4 := Adjacency(x.ip4, w)], l.surplus + if x.ip4 in l.cache then 1 else 0)
  }

  function DelOne(l: Ledger, x: Prefix): Ledger
  {
    if !Cacheable(x) then l else Ledger(l.cache - {x.ip4}, l.surplus)
  }

  function AddAll(l: Ledger, pfxs: seq<Prefix>, w: nat): Ledger
  {
    if pfxs == [] then l else AddOne(AddAll(l, pfxs[..|pfxs| - 1], w), pfxs[|pfxs| - 1], w)
  }

  function DelAll(l: Ledger, pfxs: seq<Prefix>): Ledger
  {
    if pfxs == [] then l else DelOne(DelAll(l, pfxs[..|pfxs| - 1]), pfxs[|pfxs| - 1])
  }

  /** q differs from p in routes, cache and locks only. */
  predicate Rerouted(p: Plugin, q: Plugin, fib: set<Route>, ledger: Ledger)
  {
    RoutesOnly(p, q) && q.fib == fib && LedgerOf(q) == ledger
  }

  function Changed<T>(isAdd: bool, s: set<T>, t: set<T>): set<T>
  {
    if isAdd then s + t else s - t
  }

  function SetOneRoute(isAdd: bool, q: Plugin, r: Route): Plugin
  {
    if isAdd then AddRoute(q, r) else DelRoute(q, r)
  }

  lemma OneMorePrefix(pfxs: seq<Prefix>, x: Prefix, w: nat)
    ensures Prefixes(pfxs + [x]) == Prefixes(pfxs) + {x}
    ensures Paths(Prefixes(pfxs + [x]), w) == Paths(Prefixes(pfxs), w) + {Route(x, w)}
  {}

  lemma LedgerAdd(q: Plugin, r: Route)
    ensures LedgerOf(AddRoute(q, r)) == AddOne(LedgerOf(q), r.pfx, r.swIf)
  {
    AddRouteSurplus(q, r);
  }

  lemma LedgerDel(q: Plugin, r: Route)
    requires CacheOk(q)
    ensures LedgerOf(DelRoute(q, r)) == DelOne(LedgerOf(q), r.pfx)
  {
    hide CacheSound, LocksOk;
    DelRouteLocks(q, r);
  }

  lemma ReroutedAdd(p: Plugin, q: Plugin, routes: set<Route>, l: Ledger, r: Route)
    requires Rerouted(p, q, p.fib + routes, l)
    ensures Rerouted(p, AddRoute(q, r), p.fib + (routes + {r}), AddOne(l, r.pfx, r.swIf))
  {
    hide LedgerOf, AddOne;
    LedgerAdd(q, r);
    assert p.fib + routes + {r} == p.fib + (routes + {r});
  }

  lemma ReroutedDel(p: Plugin, q: Plugin, routes: set<Route>, l: Ledger, r: Route)
    requires Rerouted(p, q, p.fib - routes, l) && CacheOk(q)
    ensures Rerouted(p, DelRoute(q, r), p.fib - (routes + {r}), DelOne(l, r.pfx))
  {
    hide LedgerOf, DelOne, CacheOk;
    LedgerDel(q, r);
    assert p.fib - routes - {r} == p.fib - (routes + {r});
  }

  /** A list of route calls on interface `w` has been made. */
  predicate Called(isAdd: bool, p: Plugin, q: Plugin, pfxs: seq<Prefix>, w: nat)
  {
    Rerouted(p, q, Changed(isAdd, p.fib, Paths(Prefixes(pfxs), w)),
             if isAdd then AddAll(LedgerOf(p), pfxs, w) else DelAll(LedgerOf(p), pfxs))
  }

  /** One more prefix of a list of route calls. */
  lemma CalledStep(isAdd: bool, p: Plugin, q: Plugin, done: seq<Prefix>, x: Prefix, w: nat)
    requires Called(isAdd, p, q, done, w) && CacheOk(q)
    ensures var n := SetOneRoute(isAdd, q, Route(x, w)); Called(isAdd, p, n, done + [x], w) && CacheOk(n)
  {
    hide Rerouted, Paths, Prefixes, AddRoute, DelRoute, CacheOk, AddOne, DelOne;
    OneMorePrefix(done, x, w);
    assert (done + [x])[..|done|] == done;
    if isAdd {
      AddRouteOk(q, Route(x, w));
      ReroutedAdd(p, q, Paths(Prefixes(done), w), AddAll(LedgerOf(p), done, w), Route(x, w));
    } else {
      DelRouteOk(q, Route(x, w));
      ReroutedDel(p, q, Paths(Prefixes(done), w), DelAll(LedgerOf(p), done), Route(x, w));
    }
  }

  lemma NothingCalled(isAdd: bool, p: Plugin, w: nat)
    ensures Called(isAdd, p, p, [], w)
  {
    assert Prefixes([]) == {} && Paths({}, w) == {};
  }

  /** The cache with `hosts` on interface `w`. */
  function Point(cache: map<Ip4, Adjacency>, hosts: set<Ip4>, w: nat): map<Ip4, Adjacency>
  {
    cache + map d | d in hosts :: Adjacency(d, w)
  }

  lemma OneMoreHost(pfxs: seq<Prefix>, x: Prefix)
    ensures Hosts(Prefixes(pfxs + [x])) == Hosts(Prefixes(pfxs)) + if Cacheable(x) then {x.ip4} else {}
  {}

  /** How many adds of a list hit an address that is cached by then. */
  function Readded(cached: set<Ip4>, pfxs: seq<Prefix>): nat
  {
    if pfxs == [] then 0
    else
      var n := |pfxs| - 1;
      Readded(cached, pfxs[..n])
      + if Cacheable(pfxs[n]) && pfxs[n].ip4 in cached + Hosts(Prefixes(pfxs[..n])) then 1 else 0
  }

  /** What a list of adds does to the cache and its locks. */
  lemma {:induction false} AddAllIs(l: Ledger, pfxs: seq<Prefix>, w: nat)
    ensures AddAll(l, pfxs, w)
            == Ledger(Point(l.cache, Hosts(Prefixes(pfxs)), w), l.surplus + Readded(l.cache.Keys, pfxs))
  {
    hide Hosts, Prefixes;
    if pfxs == [] {
      NoHosts();
      assert Point(l.cache, {}, w) == l.cache;
    } else {
      var n := |pfxs| - 1;
      AddAllIs(l, pfxs[..n], w);
      OneMoreHost(pfxs[..n], pfxs[n]);
      assert pfxs == pfxs[..n] + [pfxs[n]];
      PointStep(l.cache, Hosts(Prefixes(pfxs[..n])), pfxs[n], w);
    }
  }

  lemma NoHosts()
    ensures Hosts(Prefixes([])) == {}
  {}

  lemma PointStep(cache: map<Ip4, Adjacency>, hosts: set<Ip4>, x: Prefix, w: nat)
    ensures Cacheable(x) ==> Point(cache, hosts + {x.ip4}, w) == Point(cache, hosts, w)[x.ip4 := Adjacency(x.ip4, w)]
    ensures Point(cache, hosts, w).Keys == cache.Keys + hosts && hosts + {} == hosts
  {}

  /** What a list of deletes does. */
  lemma {:induction false} DelAllIs(l: Ledger, pfxs: seq<Prefix>)
    ensures DelAll(l, pfxs) == Ledger(l.cache - Hosts(Prefixes(pfxs)), l.surplus)
  {
    hide Hosts, Prefixes;
    if pfxs == [] {
      NoHosts();
      assert l.cache - {} == l.cache;
    } else {
      var n := |pfxs| - 1;
      DelAllIs(l, pfxs[..n]);
      OneMoreHost(pfxs[..n], pfxs[n]);
      assert pfxs == pfxs[..n] + [pfxs[n]];
      MinusStep(l.cache, Hosts(Prefixes(pfxs[..n])), pfxs[n]);
    }
  }

  lemma MinusStep(cache: map<Ip4, Adjacency>, hosts: set<Ip4>, x: Prefix)
    ensures Cacheable(x) ==> cache - hosts - {x.ip4} == cache - (hosts + {x.ip4})
    ensures hosts + {} == hosts
  {}

  predicate Distinct(pfxs: seq<Prefix>) { forall i, j :: 0 <= i < j < |pfxs| ==> pfxs[i] != pfxs[j] }

  /** A list without repetitions only re-adds what was cached before it. */
  lemma {:induction false} DistinctReadded(cached: set<Ip4>, pfxs: seq<Prefix>)
    requires Distinct(pfxs)
    ensures Readded(cached, pfxs) == |Hosts(Prefixes(pfxs)) * cached|
  {
    hide Hosts, Prefixes;
    if pfxs == [] {
      NoHosts();
      assert {} * cached == {};
    } else {
      var n := |pfxs| - 1;
      var x, hosts := pfxs[n], Hosts(Prefixes(pfxs[..n]));
      DistinctReadded(cached, pfxs[..n]);
      OneMoreHost(pfxs[..n], x);
      assert pfxs == pfxs[..n] + [x];
      if Cacheable(x) {
        NewHost(pfxs[..n], x);
        MeetStep(hosts, x.ip4, cached);
      } else {
        assert hosts + {} == hosts;
      }
    }
  }

  lemma MeetStep(hosts: set<Ip4>, d: Ip4, cached: set<Ip4>)
    requires d !in hosts
    ensures |(hosts + {d}) * cached| == |hosts * cached| + if d in cached then 1 else 0
  {
    if d in cached {
      assert (hosts + {d}) * cached == hosts * cached + {d};
    } else {
      assert (hosts + {d}) * cached == hosts * cached;
    }
  }

  lemma NewHost(pfxs: seq<Prefix>, x: Prefix)
    requires Cacheable(x) && x !in pfxs
    ensures x.ip4 !in Hosts(Prefixes(pfxs))
  {}

  lemma RoutesFrame(p: Plugin, q: Plugin)
    requires RoutesOnly(p, q)
    ensures q.tunnels == p.tunnels && q.bySwIf == p.bySwIf && q.sessions == p.sessions && q.byKey == p.byKey
    ensures NoIdleTunnel(p) ==> NoIdleTunnel(q)
  {}

  // ----- installing, rerouting and removing one session -----------------------

  /** Sessions, indexes and routes are as before, and so are the keys of tunnels in use. */
  ghost predicate SameSessions(p: Plugin, q: Plugin)
  {
    && q.sessions == p.sessions && q.byKey == p.byKey && q.bySwIf == p.bySwIf && q.fib == p.fib
    && forall i, k :: i in p.sessions && IsTunnel(p, k, p.sessions[i].tunnelIndex) ==>
         IsTunnel(q, k, p.sessions[i].tunnelIndex)
  }

  lemma InSyncFrame(p: Plugin, q: Plugin, inst: Records)
    requires SwIfIndexOk(p) && InSync(p, inst) && SameSessions(p, q)
    ensures SwIfIndexOk(q) && InSync(q, inst)
  {
    forall k | k in inst ensures Describes(q, k, inst[k]) {
      assert Describes(p, k, inst[k]);
    }
    assert forall r :: Recorded(q, inst, r) <==> Recorded(p, inst, r);
  }

  /** A record's interface belongs to its own session. */
  lemma OwnInterface(p: Plugin, inst: Records, k: SessionId)
    requires KeyIndexOk(p) && SwIfIndexOk(p) && RecordsOk(p, inst) && k in inst
    ensures inst[k].swIf in p.bySwIf && p.bySwIf[inst[k].swIf] == p.byKey[k] && Owner(p, inst[k].swIf) == k
    ensures forall j :: j in inst && j != k ==> inst[j].swIf != inst[k].swIf
  {
    assert Describes(p, k, inst[k]);
    forall j | j in inst && j != k ensures inst[j].swIf != inst[k].swIf {
      assert Describes(p, j, inst[j]);
    }
  }

  /** A new session together with its routes and its record. */
  lemma InstallKeepsSync(p: Plugin, inst: Records, idx: nat, s: Session, rec: Record, q: Plugin, l: Ledger)
    requires SwIfIndexOk(p) && KeyIndexOk(p) && InSync(p, inst)
    requires s.tunnelIndex in p.tunnels && idx !in p.sessions && s.swIf !in p.bySwIf && IdOf(s) !in p.byKey
    requires SwIfIndexOk(q) && Rerouted(AddSession(p, idx, s), q, p.fib + Paths(Prefixes(rec.routes), s.swIf), l)
    requires rec == Record(s.swIf, s.tunnelIndex, s.localSid, s.peerSid, KeyOf(p.tunnels[s.tunnelIndex]), rec.routes)
    ensures InSync(q, inst[IdOf(s) := rec])
  {
    var inst', w := inst[IdOf(s) := rec], s.swIf;
    InstalledRecords(p, inst, idx, s, rec, q);
    forall r: Route ensures r in q.fib <==> Recorded(q, inst', r) {
      InstalledRoute(p, inst, idx, s, rec, q, r);
    }
  }

  lemma InstalledRecords(p: Plugin, inst: Records, idx: nat, s: Session, rec: Record, q: Plugin)
    requires KeyIndexOk(p) && RecordsOk(p, inst)
    requires s.tunnelIndex in p.tunnels && idx !in p.sessions && IdOf(s) !in p.byKey
    requires RoutesOnly(AddSession(p, idx, s), q)
    requires rec == Record(s.swIf, s.tunnelIndex, s.localSid, s.peerSid, KeyOf(p.tunnels[s.tunnelIndex]), rec.routes)
    ensures RecordsOk(q, inst[IdOf(s) := rec])
  {
    var inst' := inst[IdOf(s) := rec];
    assert forall t, k :: IsTunnel(p, k, t) ==> IsTunnel(q, k, t);
    forall k | k in inst' ensures Describes(q, k, inst'[k]) {
      if k != IdOf(s) { assert Describes(p, k, inst[k]); }
    }
  }

  lemma InstalledRoute(p: Plugin, inst: Records, idx: nat, s: Session, rec: Record, q: Plugin, r: Route)
    requires SwIfIndexOk(p) && KeyIndexOk(p) && InSync(p, inst)
    requires s.tunnelIndex in p.tunnels && idx !in p.sessions && s.swIf !in p.bySwIf && IdOf(s) !in p.byKey
    requires SwIfIndexOk(q) && RoutesOnly(AddSession(p, idx, s), q)
    requires q.fib == p.fib + Paths(Prefixes(rec.routes), s.swIf)
    ensures r in q.fib <==> Recorded(q, inst[IdOf(s) := rec], r)
  {
    hide RecordsOk;
    var inst', w := inst[IdOf(s) := rec], s.swIf;
    assert r in p.fib <==> Recorded(p, inst, r);
    if r.swIf == w {
      assert !Recorded(p, inst, r) && Owner(q, w) == IdOf(s);
      assert r in Paths(Prefixes(rec.routes), w) <==> r.pfx in Prefixes(rec.routes);
    } else {
      assert Recorded(q, inst', r) <==> Recorded(p, inst, r);
    }
  }

  /** Bringing one session's routes to a new set. */
  lemma RerouteKeepsSync(p: Plugin, inst: Records, k: SessionId, rec: Record, q: Plugin, l: Ledger)
    requires KeyIndexOk(p) && SwIfIndexOk(p) && InSync(p, inst) && k in inst
    requires var have := Prefixes(inst[k].routes); var want := Prefixes(rec.routes);
      Rerouted(p, q, p.fib + Paths(want - have, inst[k].swIf) - Paths(have - want, inst[k].swIf), l)
    requires rec == inst[k].(routes := rec.routes)
    requires SwIfIndexOk(q)
    ensures InSync(q, inst[k := rec])
  {
    var inst', w := inst[k := rec], rec.swIf;
    OwnInterface(p, inst, k);
    forall j | j in inst' ensures Describes(q, j, inst'[j]) {
      assert Describes(p, j, inst[j]);
    }
    var have, want := Prefixes(inst[k].routes), Prefixes(rec.routes);
    forall r: Route ensures r in q.fib <==> Recorded(q, inst', r) {
      assert r in Paths(want - have, w) <==> r.swIf == w && r.pfx in want - have;
      assert r in Paths(have - want, w) <==> r.swIf == w && r.pfx in have - want;
      if r.swIf == w {
        assert r in p.fib <==> r.pfx in have;
        assert Recorded(q, inst', r) <==> r.pfx in want;
      } else {
        assert Recorded(q, inst', r) <==> Recorded(p, inst, r) by { OtherOwner(p, k, w, r.swIf); }
      }
    }
  }

  /** Another interface belongs to another session. */
  lemma OtherOwner(p: Plugin, k: SessionId, w: nat, u: nat)
    requires KeyIndexOk(p) && SwIfIndexOk(p) && w in p.bySwIf && Owner(p, w) == k && u != w
    ensures u in p.bySwIf ==> Owner(p, u) != k
  {}

  /** Removing a session after its routes. */
  lemma RemoveKeepsSync(p: Plugin, inst: Records, k: SessionId, m: Plugin, q: Plugin, l: Ledger)
    requires KeyIndexOk(p) && SwIfIndexOk(p) && InSync(p, inst) && k in inst
    requires Rerouted(p, m, p.fib - Paths(Prefixes(inst[k].routes), inst[k].swIf), l)
    requires p.byKey[k] in m.sessions && inst[k].tunnelIndex in m.tunnels
    requires q == DelSession(m, p.byKey[k], inst[k].tunnelIndex) && SwIfIndexOk(q)
    ensures InSync(q, inst - {k})
  {
    hide DelSession, Recorded, KeyIndexOk, SwIfIndexOk;
    RemovedRecords(p, inst, k, m, q);
    forall r: Route ensures r in q.fib <==> Recorded(q, inst - {k}, r) {
      RemovedRoute(p, inst, k, m, q, r);
    }
  }

  lemma RemovedRecords(p: Plugin, inst: Records, k: SessionId, m: Plugin, q: Plugin)
    requires KeyIndexOk(p) && RecordsOk(p, inst) && k in inst && RoutesOnly(p, m)
    requires p.byKey[k] in m.sessions && inst[k].tunnelIndex in m.tunnels
    requires q == DelSession(m, p.byKey[k], inst[k].tunnelIndex)
    ensures RecordsOk(q, inst - {k})
  {
    assert Describes(p, k, inst[k]);
    assert q.byKey == p.byKey - {k} && q.sessions == p.sessions - {p.byKey[k]};
    assert forall t, j :: IsTunnel(p, j, t) ==> IsTunnel(q, j, t);
    forall j | j in inst - {k} ensures Describes(q, j, (inst - {k})[j]) {
      assert Describes(p, j, inst[j]);
    }
  }

  lemma RemovedRoute(p: Plugin, inst: Records, k: SessionId, m: Plugin, q: Plugin, r: Route)
    requires KeyIndexOk(p) && SwIfIndexOk(p) && InSync(p, inst) && k in inst
    requires RoutesOnly(p, m) && m.fib == p.fib - Paths(Prefixes(inst[k].routes), inst[k].swIf)
    requires p.byKey[k] in m.sessions && inst[k].tunnelIndex in m.tunnels
    requires q == DelSession(m, p.byKey[k], inst[k].tunnelIndex) && SwIfIndexOk(q)
    ensures r in q.fib <==> Recorded(q, inst - {k}, r)
  {
    var w, have := inst[k].swIf, Prefixes(inst[k].routes);
    OwnInterface(p, inst, k);
    hide KeyIndexOk, RecordsOk;
    assert q.bySwIf == p.bySwIf - {w} && q.sessions == p.sessions - {p.byKey[k]};
    assert r in Paths(have, w) <==> r.swIf == w && r.pfx in have;
    assert r in p.fib <==> Recorded(p, inst, r);
    if r.swIf != w {
      assert Recorded(q, inst - {k}, r) <==> Recorded(p, inst, r) by { OtherOwner(p, k, w, r.swIf); }
    }
  }

  // ----- peers ----------------------------------------------------------------

  /** vpp_tunnels(): the tunnel dump as a dictionary; keys are unique. */
  function VppTunnels(p: Plugin): (d: map<TunnelKey, nat>)
    requires TunnelKeysUnique(p)
    ensures forall k :: k in d ==> IsTunnel(p, k, d[k])
  {
    map i | i in p.tunnels :: KeyOf(p.tunnels[i]) := i
  }

  /** What a tunnel has besides its key: our end, and the id the peer knows it by. */
  datatype Endpoint = Endpoint(localIp: Ip4, localPort: u16, peerTid: u16)

  function EndpointOf(t: Tunnel): Endpoint { Endpoint(t.localIp, t.localPort, t.peerTid) }

  /** The tunnel table by key, which is unique. */
  ghost function Ends(p: Plugin): map<TunnelKey, Endpoint>
  {
    if !TunnelKeysUnique(p) then map[]
    else
      var d := VppTunnels(p);
      map k | k in d :: EndpointOf(p.tunnels[d[k]])
  }

  /** The daemon's own local endpoint, for kernel tunnels that do not name one. */
  datatype Fallback = Fallback(ip: Option<Ip4>, port: u16)

  function LocalIp(s: KernelSession, fb: Fallback): Option<Ip4> { if s.localIp.Some? then s.localIp else fb.ip }

  /** Port 0 counts as none. */
  function LocalPort(s: KernelSession, fb: Fallback): u16
  {
    if s.localPort.Some? && s.localPort.value != 0 then s.localPort.value else fb.port
  }

  /** A tunnel to the session's peer can be created. */
  predicate Dialable(s: KernelSession, fb: Fallback) { LocalIp(s, fb).Some? }

  /** The endpoint a new tunnel for the session gets. */
  function Dialed(s: KernelSession, fb: Fallback): Endpoint
    requires Dialable(s, fb)
  {
    Endpoint(LocalIp(s, fb).value, LocalPort(s, fb), s.peerTid)
  }

  /** In field terms: the session's own address and port, if it names them, or else the
      daemon's; and the peer's tunnel id. */
  lemma EndpointFields(s: KernelSession, fb: Fallback)
    ensures Dialable(s, fb) <==> s.localIp.Some? || fb.ip.Some?
    ensures Dialable(s, fb) ==>
      var e := Dialed(s, fb);
      && e.localIp == (if s.localIp.Some? then s.localIp.value else fb.ip.value)
      && e.localPort == (if s.localPort.Some? && s.localPort.value != 0 then s.localPort.value else fb.port)
      && e.peerTid == s.peerTid
  {}

  /** A tunnel endpoint is as the kernel has it for the session, as far as it says. */
  predicate Suits(e: Endpoint, s: KernelSession, fb: Fallback)
  {
    && e.peerTid == s.peerTid && e.localPort == LocalPort(s, fb)
    && (Dialable(s, fb) ==> e.localIp == LocalIp(s, fb).value)
  }

  lemma SuitsFields(e: Endpoint, s: KernelSession, fb: Fallback)
    requires Suits(e, s, fb)
    ensures e.peerTid == s.peerTid
    ensures s.localIp.Some? ==> e.localIp == s.localIp.value
    ensures s.localIp.None? && fb.ip.Some? ==> e.localIp == fb.ip.value
    ensures s.localPort.Some? && s.localPort.value != 0 ==> e.localPort == s.localPort.value
    ensures s.localPort.None? || s.localPort.value == 0 ==> e.localPort == fb.port
  {}

  /** Two sessions can share a tunnel. */
  predicate Agree(s: KernelSession, t: KernelSession, fb: Fallback)
  {
    && s.peerTid == t.peerTid && LocalPort(s, fb) == LocalPort(t, fb)
    && (Dialable(s, fb) && Dialable(t, fb) ==> LocalIp(s, fb) == LocalIp(t, fb))
  }

  /** The plugin encapsulates session `k` as the kernel would: to the kernel's peer, under
      the kernel's peer ids, from the kernel's local endpoint. */
  predicate PeersMatch(p: Plugin, k: SessionId, s: KernelSession, fb: Fallback)
  {
    && k in p.byKey && p.byKey[k] in p.sessions
    && var x := p.sessions[p.byKey[k]];
    && x.peerSid == s.peerSid && IsTunnel(p, TunnelKeyOf(s), x.tunnelIndex)
    && Suits(EndpointOf(p.tunnels[x.tunnelIndex]), s, fb)
  }

  /** The same, seen from a record. */
  predicate RecordMatches(ends: map<TunnelKey, Endpoint>, rec: Record, s: KernelSession, fb: Fallback)
  {
    && rec.peerSid == s.peerSid && rec.tunnelKey == TunnelKeyOf(s)
    && rec.tunnelKey in ends && Suits(ends[rec.tunnelKey], s, fb)
  }

  lemma EndOf(p: Plugin, k: TunnelKey, i: nat)
    requires TunnelKeysUnique(p) && IsTunnel(p, k, i)
    ensures k in VppTunnels(p) && VppTunnels(p)[k] == i
    ensures k in Ends(p) && Ends(p)[k] == EndpointOf(p.tunnels[i])
  {
    assert KeyOf(p.tunnels[i]) in VppTunnels(p);
  }

  lemma PeersByRecord(p: Plugin, inst: Records, k: SessionId, s: KernelSession, fb: Fallback)
    requires TunnelKeysUnique(p) && RecordsOk(p, inst) && k in inst
    ensures PeersMatch(p, k, s, fb) <==> RecordMatches(Ends(p), inst[k], s, fb)
    ensures inst[k].tunnelKey in Ends(p)
  {
    hide TunnelKeysUnique, Suits, Ends;
    assert Describes(p, k, inst[k]);
    EndOf(p, inst[k].tunnelKey, inst[k].tunnelIndex);
  }

  /** The new sessions of a pass. */
  predicate IsNew(before: Records, want: map<SessionId, KernelSession>, k: SessionId) { k in want && k !in before }

  /** Every tunnel of `ends` was there before, or was dialed for one of the new sessions. */
  ghost predicate EndsFrom(ends0: map<TunnelKey, Endpoint>, ends: map<TunnelKey, Endpoint>, before: Records,
                           want: map<SessionId, KernelSession>, fb: Fallback)
  {
    forall key :: key in ends ==>
      if key in ends0 then ends[key] == ends0[key]
      else exists k :: IsNew(before, want, k) && DialedFor(want[k], key, ends[key], fb)
  }

  /** The tunnel table after a session's tunnel has been looked up, or dialed. */
  function EndsWith(ends: map<TunnelKey, Endpoint>, s: KernelSession, fb: Fallback): map<TunnelKey, Endpoint>
  {
    if TunnelKeyOf(s) in ends || !Dialable(s, fb) then ends else ends[TunnelKeyOf(s) := Dialed(s, fb)]
  }

  lemma EndsFromStep(ends0: map<TunnelKey, Endpoint>, ends: map<TunnelKey, Endpoint>, before: Records,
                     want: map<SessionId, KernelSession>, fb: Fallback, k: SessionId)
    requires EndsFrom(ends0, ends, before, want, fb) && ends0.Keys <= ends.Keys && IsNew(before, want, k)
    ensures var next := EndsWith(ends, want[k], fb);
      EndsFrom(ends0, next, before, want, fb) && ends0.Keys <= next.Keys
  {
    var next := EndsWith(ends, want[k], fb);
    forall key | key in next && key !in ends0
      ensures exists j :: IsNew(before, want, j) && DialedFor(want[j], key, next[key], fb)
    {
      if key in ends {
        var j :| IsNew(before, want, j) && DialedFor(want[j], key, ends[key], fb);
      } else {
        assert DialedFor(want[k], key, next[key], fb);
      }
    }
  }

  /** Some tunnels are gone, the others are as they were. */
  predicate SubEnds(ends: map<TunnelKey, Endpoint>, all: map<TunnelKey, Endpoint>)
  {
    forall key :: key in ends ==> key in all && ends[key] == all[key]
  }

  lemma EndsFromSub(ends0: map<TunnelKey, Endpoint>, all: map<TunnelKey, Endpoint>, ends: map<TunnelKey, Endpoint>,
                    before: Records, want: map<SessionId, KernelSession>, fb: Fallback)
    requires EndsFrom(ends0, all, before, want, fb) && SubEnds(ends, all)
    ensures EndsFrom(ends0, ends, before, want, fb)
  {}

  predicate DialedFor(s: KernelSession, key: TunnelKey, e: Endpoint, fb: Fallback)
  {
    TunnelKeyOf(s) == key && Dialable(s, fb) && Dialed(s, fb) == e
  }

  /** The record of a new session names the kernel's peer. */
  predicate NamesPeer(rec: Record, s: KernelSession) { rec.peerSid == s.peerSid && rec.tunnelKey == TunnelKeyOf(s) }

  /** What a caller can check before a pass: known sessions have the kernel's peers already;
      a tunnel that a new session will join suits it; and new sessions that will share a
      new tunnel agree on it. */
  ghost predicate PeersWillMatch(p: Plugin, before: Records, want: map<SessionId, KernelSession>, fb: Fallback)
  {
    && (forall k :: k in want && k in before ==> PeersMatch(p, k, want[k], fb))
    && (forall k :: IsNew(before, want, k) && TunnelKeyOf(want[k]) in Ends(p) ==>
          Suits(Ends(p)[TunnelKeyOf(want[k])], want[k], fb))
    && (forall j, k :: IsNew(before, want, j) && IsNew(before, want, k)
                       && TunnelKeyOf(want[j]) == TunnelKeyOf(want[k]) && TunnelKeyOf(want[k]) !in Ends(p) ==>
          Agree(want[j], want[k], fb))
  }

  ghost predicate AllPeersMatch(p: Plugin, want: map<SessionId, KernelSession>, fb: Fallback)
  {
    forall k :: k in want ==> PeersMatch(p, k, want[k], fb)
  }

  /** A new session's tunnel suits it, given the condition. */
  lemma NewPeerMatches(p0: Plugin, before: Records, p: Plugin, now: Records, want: map<SessionId, KernelSession>,
                       fb: Fallback, k: SessionId)
    requires TunnelKeysUnique(p0) && TunnelKeysUnique(p) && RecordsOk(p, now)
    requires EndsFrom(Ends(p0), Ends(p), before, want, fb) && PeersWillMatch(p0, before, want, fb)
    requires IsNew(before, want, k) && k in now && NamesPeer(now[k], want[k])
    ensures PeersMatch(p, k, want[k], fb)
  {
    hide TunnelKeysUnique, Ends, PeersMatch;
    PeersByRecord(p, now, k, want[k], fb);
    var key := TunnelKeyOf(want[k]);
    assert key in Ends(p);
    if key !in Ends(p0) {
      var j :| IsNew(before, want, j) && DialedFor(want[j], key, Ends(p)[key], fb);
      assert Agree(want[j], want[k], fb);
    }
  }

  /** A pass ends with the kernel's peers for all wanted sessions if and only if the condition
      held before it. Known sessions and tunnels are never updated, so nothing else helps. */
  lemma PassPeersIff(p0: Plugin, before: Records, p: Plugin, now: Records, want: map<SessionId, KernelSession>,
                     fb: Fallback)
    requires TunnelKeysUnique(p0) && TunnelKeysUnique(p) && RecordsOk(p0, before) && RecordsOk(p, now)
    requires EndsFrom(Ends(p0), Ends(p), before, want, fb) && now.Keys == want.Keys
    requires forall k :: IsNew(before, want, k) ==> NamesPeer(now[k], want[k])
    requires forall k :: k in want && k in before ==> now[k] == before[k].(routes := now[k].routes)
    ensures AllPeersMatch(p, want, fb) <==> PeersWillMatch(p0, before, want, fb)
  {
    hide TunnelKeysUnique, Ends, PeersMatch, EndsFrom, RecordsOk;
    forall k | k in want && k in before ensures PeersMatch(p, k, want[k], fb) <==> PeersMatch(p0, k, want[k], fb) {
      KnownPeer(p0, before, p, now, want, fb, k);
    }
    if PeersWillMatch(p0, before, want, fb) {
      forall k | k in want ensures PeersMatch(p, k, want[k], fb) {
        if k !in before { NewPeerMatches(p0, before, p, now, want, fb, k); }
      }
    }
    if AllPeersMatch(p, want, fb) {
      forall k | IsNew(before, want, k) ensures TunnelKeyOf(want[k]) in Ends(p)
        ensures Suits(Ends(p)[TunnelKeyOf(want[k])], want[k], fb)
      {
        PeersByRecord(p, now, k, want[k], fb);
      }
      forall k | IsNew(before, want, k) && TunnelKeyOf(want[k]) in Ends(p0)
        ensures Suits(Ends(p0)[TunnelKeyOf(want[k])], want[k], fb)
      {
        SameEnd(Ends(p0), Ends(p), before, want, fb, TunnelKeyOf(want[k]));
      }
    }
  }

  lemma SameEnd(ends0: map<TunnelKey, Endpoint>, ends: map<TunnelKey, Endpoint>, before: Records,
                want: map<SessionId, KernelSession>, fb: Fallback, key: TunnelKey)
    requires EndsFrom(ends0, ends, before, want, fb) && key in ends && key in ends0
    ensures ends[key] == ends0[key]
  {}

  lemma KnownPeer(p0: Plugin, before: Records, p: Plugin, now: Records, want: map<SessionId, KernelSession>,
                  fb: Fallback, k: SessionId)
    requires TunnelKeysUnique(p0) && TunnelKeysUnique(p) && RecordsOk(p0, before) && RecordsOk(p, now)
    requires EndsFrom(Ends(p0), Ends(p), before, want, fb)
    requires k in want && k in before && k in now && now[k] == before[k].(routes := now[k].routes)
    ensures PeersMatch(p, k, want[k], fb) <==> PeersMatch(p0, k, want[k], fb)
  {
    hide TunnelKeysUnique, Ends, PeersMatch, RecordsOk, EndsFrom;
    PeersByRecord(p0, before, k, want[k], fb);
    PeersByRecord(p, now, k, want[k], fb);
    SameEnd(Ends(p0), Ends(p), before, want, fb, now[k].tunnelKey);
  }

  // ----- what convergence means -----------------------------------------------

  /** Prefixes wanted for each session; the last entry of a repeated id wins, and sessions
      without an interface are not wanted. */
  function Want(ks: seq<KernelSession>): map<SessionId, KernelSession>
  {
    if ks == [] then map[]
    else
      var s := ks[|ks| - 1];
      if s.hasIf then Want(ks[..|ks| - 1])[s.id := s] else Want(ks[..|ks| - 1])
  }

  /** The order of that dictionary: the position of an id is that of its first entry. */
  function Order(ks: seq<KernelSession>): (order: seq<SessionId>)
    ensures forall i :: 0 <= i < |order| ==> order[i] in Want(ks)
  {
    if ks == [] then []
    else
      var n := |ks| - 1;
      Order(ks[..n]) + if ks[n].hasIf && ks[n].id !in Want(ks[..n]) then [ks[n].id] else []
  }

  /** `order` lists the keys of `want`, each once. */
  ghost predicate Lists(order: seq<SessionId>, want: map<SessionId, KernelSession>)
  {
    && (forall k :: k in order <==> k in want)
    && (forall i, j :: 0 <= i < j < |order| ==> order[i] != order[j])
  }

  lemma {:induction false} OrderLists(ks: seq<KernelSession>)
    ensures Lists(Order(ks), Want(ks))
  {
    if ks != [] {
      var n := |ks| - 1;
      OrderLists(ks[..n]);
      var before := Order(ks[..n]);
      assert forall i :: 0 <= i < |before| ==> before[i] in before;
    }
  }

  /** An entry of the list with an interface and this id. */
  predicate ListedAt(ks: seq<KernelSession>, k: SessionId, at: int) { 0 <= at < |ks| && ks[at].hasIf && ks[at].id == k }

  /** The first entry of an id gives its place in the order, and the last one its value. */
  lemma {:induction false} WantIsLast(ks: seq<KernelSession>, k: SessionId)
    ensures k in Want(ks) <==> exists at :: ListedAt(ks, k, at)
    ensures k in Want(ks) ==> exists at :: ListedAt(ks, k, at) && Want(ks)[k] == ks[at]
                                           && forall b :: b > at ==> !ListedAt(ks, k, b)
  {
    if ks != [] {
      var n := |ks| - 1;
      WantIsLast(ks[..n], k);
      assert forall at :: ListedAt(ks[..n], k, at) <==> ListedAt(ks, k, at) && at < n;
      if ListedAt(ks, k, n) {
        assert Want(ks)[k] == ks[n];
      } else if k in Want(ks) {
        var at :| ListedAt(ks[..n], k, at) && Want(ks[..n])[k] == ks[..n][at]
                  && forall b :: b > at ==> !ListedAt(ks[..n], k, b);
        assert ListedAt(ks, k, at) && Want(ks)[k] == ks[at];
      }
    }
  }

  predicate FirstListed(ks: seq<KernelSession>, k: SessionId, at: int)
  {
    ListedAt(ks, k, at) && forall b :: 0 <= b < at ==> !ListedAt(ks, k, b)
  }

  /** Sessions are handled in the order in which their ids are first listed. */
  lemma {:induction false} OrderIsFirstListed(ks: seq<KernelSession>, i: nat, j: nat)
    requires i < j < |Order(ks)|
    ensures exists a, b :: a < b && FirstListed(ks, Order(ks)[i], a) && FirstListed(ks, Order(ks)[j], b)
  {
    var n := |ks| - 1;
    var rest := ks[..n];
    assert forall k, at :: ListedAt(rest, k, at) <==> ListedAt(ks, k, at) && at < n;
    if j < |Order(rest)| {
      OrderIsFirstListed(rest, i, j);
      var a, b :| a < b && FirstListed(rest, Order(rest)[i], a) && FirstListed(rest, Order(rest)[j], b);
      assert FirstListed(ks, Order(ks)[i], a) && FirstListed(ks, Order(ks)[j], b);
    } else {
      assert Order(ks) == Order(rest) + [ks[n].id];
      var k := Order(rest)[i];
      var a := HasFirst(rest, k);
      assert Order(ks)[i] == k && Order(ks)[j] == ks[n].id;
      assert a < n && FirstListed(ks, Order(ks)[i], a);
      WantIsLast(rest, ks[n].id);
      assert ListedAt(ks, ks[n].id, n);
      assert FirstListed(ks, Order(ks)[j], n);
    }
  }

  lemma {:induction false} HasFirst(ks: seq<KernelSession>, k: SessionId) returns (at: int)
    requires k in Want(ks)
    ensures FirstListed(ks, k, at)
  {
    var n := |ks| - 1;
    assert forall b :: ListedAt(ks[..n], k, b) <==> ListedAt(ks, k, b) && b < n;
    if k in Want(ks[..n]) {
      at := HasFirst(ks[..n], k);
    } else {
      WantIsLast(ks[..n], k);
      at := n;
    }
  }

  predicate RoutesMatch(inst: Records, want: map<SessionId, KernelSession>, k: SessionId)
    requires k in inst && k in want
  {
    Prefixes(inst[k].routes) == Prefixes(want[k].routes)
  }

  ghost predicate Converged(p: Plugin, inst: Records, want: map<SessionId, KernelSession>)
  {
    && Settled(p, inst) && NoIdleTunnel(p)
    && inst.Keys == want.Keys
    && forall k :: k in want ==> RoutesMatch(inst, want, k)
  }

  /** The interface of a live session. */
  function InterfaceOf(p: Plugin, k: SessionId): nat
    requires KeyIndexOk(p) && k in p.byKey
  {
    p.sessions[p.byKey[k]].swIf
  }

  /** The routes are the wanted prefixes, each via the interface of its own session. */
  ghost predicate RoutesWanted(p: Plugin, want: map<SessionId, KernelSession>)
    requires KeyIndexOk(p)
  {
    forall r: Route :: r in p.fib <==> exists k :: WantedVia(p, want, k, r)
  }

  predicate WantedVia(p: Plugin, want: map<SessionId, KernelSession>, k: SessionId, r: Route)
    requires KeyIndexOk(p)
  {
    k in want && k in p.byKey && r.swIf == InterfaceOf(p, k) && r.pfx in want[k].routes
  }

  /** The records are exact, too. */
  predicate RecordsWanted(p: Plugin, inst: Records, want: map<SessionId, KernelSession>)
  {
    inst.Keys == want.Keys && forall k :: k in want ==> Describes(p, k, inst[k]) && RoutesMatch(inst, want, k)
  }

  /** Convergence, spelled out: the plugin's sessions are exactly the wanted ones, its routes
      are exactly the wanted prefixes, each via its own session's interface, its tunnels are
      exactly those with a session, and the daemon's records are exactly that. */
  lemma ConvergedIsExact(p: Plugin, inst: Records, want: map<SessionId, KernelSession>)
    requires Converged(p, inst, want)
    ensures p.byKey.Keys == want.Keys && forall i :: i in p.sessions ==> IdOf(p.sessions[i]) in want
    ensures RoutesWanted(p, want) && RecordsWanted(p, inst, want)
    ensures p.tunnels.Keys == UsedTunnels(p)
  {
    hide SwIfIndexOk, TunnelKeysUnique, LocalIpsOk, Anchored, CountsOk, NoIdleTunnel, UsedTunnels, WantedVia;
    NoIdleIsExact(p);
    forall r: Route ensures r in p.fib <==> exists k :: WantedVia(p, want, k, r) {
      RouteIsWanted(p, inst, want, r);
    }
  }

  lemma RouteIsWanted(p: Plugin, inst: Records, want: map<SessionId, KernelSession>, r: Route)
    requires KeyIndexOk(p) && SwIfIndexOk(p) && InSync(p, inst) && inst.Keys == want.Keys
    requires forall k :: k in want ==> RoutesMatch(inst, want, k)
    ensures r in p.fib <==> exists k :: WantedVia(p, want, k, r)
  {
    if r in p.fib {
      assert Recorded(p, inst, r);
      var k := Owner(p, r.swIf);
      assert RoutesMatch(inst, want, k) && r.pfx in Prefixes(inst[k].routes);
      assert WantedVia(p, want, k, r);
    }
    if k :| WantedVia(p, want, k, r) {
      OwnInterface(p, inst, k);
      assert Describes(p, k, inst[k]);
      assert RoutesMatch(inst, want, k) && r.pfx in Prefixes(want[k].routes);
      assert Recorded(p, inst, r);
    }
  }

  lemma {:induction false} WantKeyed(ks: seq<KernelSession>)
    ensures forall k :: k in Want(ks) ==> Want(ks)[k].id == k && Want(ks)[k].hasIf && Want(ks)[k] in ks
    ensures forall s :: s in ks && s.hasIf ==> s.id in Want(ks)
  {
    if ks != [] {
      WantKeyed(ks[..|ks| - 1]);
      assert ks == ks[..|ks| - 1] + [ks[|ks| - 1]];
    }
  }

  // ----- one pass -------------------------------------------------------------

  /** The first half of a pass, after the wanted keys in `done`: new sessions have a record
      with the wanted routes, known ones too if routes are synced, all others are as before. */
  ghost predicate Mirrored(before: Records, now: Records, want: map<SessionId, KernelSession>,
                           done: set<SessionId>, sync: bool)
  {
    && done <= want.Keys && now.Keys == before.Keys + done
    && (forall k :: k in done && (sync || k !in before) ==> RoutesMatch(now, want, k))
    && (forall k :: k in before && (!sync || k !in done) ==> now[k] == before[k])
    && (forall k :: k in before ==> now[k] == before[k].(routes := now[k].routes))
    && (forall k :: k in done && k !in before ==> NamesPeer(now[k], want[k]))
  }

  /** Nothing to add and, if routes are synced, nothing to reroute. */
  ghost predicate AlreadyMirrored(inst: Records, want: map<SessionId, KernelSession>, sync: bool)
  {
    want.Keys <= inst.Keys && (sync ==> forall k :: k in want ==> RoutesMatch(inst, want, k))
  }

  lemma MirroredStep(before: Records, now: Records, next: Records, want: map<SessionId, KernelSession>,
                     done: set<SessionId>, k: SessionId, sync: bool)
    requires Mirrored(before, now, want, done, sync) && k in want && k !in done
    requires k in next && next == now[k := next[k]]
    requires k !in before || sync ==> RoutesMatch(next, want, k)
    requires k in before && !sync ==> next == now
    requires k in before && sync ==> next[k] == now[k].(routes := next[k].routes)
    requires k !in before ==> NamesPeer(next[k], want[k])
    ensures Mirrored(before, next, want, done + {k}, sync)
  {}

  /** The sessions handled so far. */
  function Handled(order: seq<SessionId>): set<SessionId> { set k | k in order }

  lemma HandledStep(order: seq<SessionId>, want: map<SessionId, KernelSession>, i: nat)
    requires Lists(order, want) && i < |order|
    ensures order[i] in want && order[i] !in Handled(order[..i])
    ensures Handled(order[..i + 1]) == Handled(order[..i]) + {order[i]}
  {
    assert order[i] in order;
  }

  lemma OneMoreNew(done: set<SessionId>, before: set<SessionId>, k: SessionId)
    requires k !in done
    ensures |done + {k} - before| == |done - before| + if k in before then 0 else 1
  {
    if k in before {
      assert done + {k} - before == done - before;
    } else {
      assert done + {k} - before == (done - before) + {k};
    }
  }

  // ----- when a pass is cut short ---------------------------------------------

  /** The tunnels that new sessions among `done` tell where to dial from. */
  function DialedKeys(before: Records, want: map<SessionId, KernelSession>, done: seq<SessionId>,
                      fb: Fallback): set<TunnelKey>
  {
    set k | k in done && IsNew(before, want, k) && Dialable(want[k], fb) :: TunnelKeyOf(want[k])
  }

  /** The i-th session is new, names no local address, and its tunnel neither exists nor was
      dialed for an earlier session. */
  predicate Blocked(tunnels: set<TunnelKey>, before: Records, want: map<SessionId, KernelSession>,
                    order: seq<SessionId>, fb: Fallback, i: nat)
    requires i < |order|
  {
    && IsNew(before, want, order[i]) && !Dialable(want[order[i]], fb)
    && TunnelKeyOf(want[order[i]]) !in tunnels + DialedKeys(before, want, order[..i], fb)
  }

  predicate NoneBlocked(tunnels: set<TunnelKey>, before: Records, want: map<SessionId, KernelSession>,
                        order: seq<SessionId>, fb: Fallback)
  {
    forall i :: 0 <= i < |order| ==> !Blocked(tunnels, before, want, order, fb, i)
  }

  predicate FirstBlocked(tunnels: set<TunnelKey>, before: Records, want: map<SessionId, KernelSession>,
                         order: seq<SessionId>, fb: Fallback, i: nat)
  {
    && i < |order| && Blocked(tunnels, before, want, order, fb, i)
    && forall j :: 0 <= j < i ==> !Blocked(tunnels, before, want, order, fb, j)
  }

  lemma {:induction false} FirstOne(tunnels: set<TunnelKey>, before: Records, want: map<SessionId, KernelSession>,
                                    order: seq<SessionId>, fb: Fallback, n: nat) returns (i: nat)
    requires n < |order| && Blocked(tunnels, before, want, order, fb, n)
    ensures FirstBlocked(tunnels, before, want, order, fb, i)
  {
    hide Blocked;
    if j :| 0 <= j < n && Blocked(tunnels, before, want, order, fb, j) {
      i := FirstOne(tunnels, before, want, order, fb, j);
    } else {
      i := n;
    }
  }

  lemma OnlyFirst(tunnels: set<TunnelKey>, before: Records, want: map<SessionId, KernelSession>,
                  order: seq<SessionId>, fb: Fallback, i: nat, j: nat)
    requires FirstBlocked(tunnels, before, want, order, fb, i) && FirstBlocked(tunnels, before, want, order, fb, j)
    ensures i == j && !NoneBlocked(tunnels, before, want, order, fb)
  {
    hide Blocked;
  }

  lemma DialedStep(tunnels: set<TunnelKey>, ends: map<TunnelKey, Endpoint>, before: Records,
                   want: map<SessionId, KernelSession>, order: seq<SessionId>, fb: Fallback, i: nat)
    requires i < |order| && order[i] in want
    requires ends.Keys == tunnels + DialedKeys(before, want, order[..i], fb)
    requires !Blocked(tunnels, before, want, order, fb, i)
    ensures var next := if order[i] in before then ends else EndsWith(ends, want[order[i]], fb);
      next.Keys == tunnels + DialedKeys(before, want, order[..i + 1], fb)
  {
    var k := order[i];
    assert order[..i + 1] == order[..i] + [k];
    assert DialedKeys(before, want, order[..i + 1], fb)
        == DialedKeys(before, want, order[..i], fb)
           + if IsNew(before, want, k) && Dialable(want[k], fb) then {TunnelKeyOf(want[k])} else {};
  }

  /** A pass over known sessions, or over sessions that can all be dialed, is never cut short. */
  lemma NeverBlocked(tunnels: set<TunnelKey>, before: Records, want: map<SessionId, KernelSession>,
                     order: seq<SessionId>, fb: Fallback)
    requires want.Keys <= before.Keys || forall k :: k in want ==> Dialable(want[k], fb)
    ensures NoneBlocked(tunnels, before, want, order, fb)
  {}

  /** A pass that was cut short is cut short at the same session when it is tried again on the
      same list, as nothing that it left helps. */
  lemma BlockedAgain(tunnels: set<TunnelKey>, before: Records, want: map<SessionId, KernelSession>,
                     order: seq<SessionId>, fb: Fallback, i: nat, left: set<TunnelKey>, now: Records)
    requires Lists(order, want) && FirstBlocked(tunnels, before, want, order, fb, i)
    requires now.Keys == before.Keys + Handled(order[..i])
    requires left == tunnels + DialedKeys(before, want, order[..i], fb)
    ensures FirstBlocked(left, now, want, order, fb, i)
    ensures left + DialedKeys(now, want, order[..i], fb) == left
    ensures now.Keys + Handled(order[..i]) == now.Keys
  {
    assert DialedKeys(now, want, order[..i], fb) == {};
    HandledStep(order, want, i);
    forall j | 0 <= j < i ensures order[j] in now {
      assert order[..i][j] == order[j];
    }
  }

  /** The second half of a pass, with the unwanted keys in `todo` still to be removed. */
  ghost predicate Trimmed(before: Records, now: Records, want: map<SessionId, KernelSession>, todo: set<SessionId>)
  {
    && todo <= before.Keys - want.Keys
    && now.Keys == before.Keys * want.Keys + todo
    && forall k :: k in now ==> now[k] == before[k]
  }

  lemma TrimmedStart(before: Records, want: map<SessionId, KernelSession>)
    ensures Trimmed(before, before, want, before.Keys - want.Keys)
  {}

  lemma TrimmedStep(before: Records, now: Records, want: map<SessionId, KernelSession>, todo: set<SessionId>,
                    k: SessionId)
    requires Trimmed(before, now, want, todo) && k in todo
    ensures k in now && Trimmed(before, now - {k}, want, todo - {k})
  {}

  /** What a completed pass leaves in the records: the wanted keys; wanted routes for new
      sessions and, if routes are synced, for all; and nothing else changed, not even if the
      kernel now names another peer for a known session. */
  ghost predicate PassDone(before: Records, now: Records, want: map<SessionId, KernelSession>, sync: bool)
  {
    && now.Keys == want.Keys
    && (forall k :: k in want && (sync || k !in before) ==> RoutesMatch(now, want, k))
    && (forall k :: k in want && !sync && k in before ==> now[k] == before[k])
    && (forall k :: k in want && k in before ==> now[k] == before[k].(routes := now[k].routes))
    && (forall k :: IsNew(before, want, k) ==> NamesPeer(now[k], want[k]))
  }

  lemma PassCompleted(before: Records, mid: Records, now: Records, want: map<SessionId, KernelSession>, sync: bool)
    requires Mirrored(before, mid, want, want.Keys, sync) && Trimmed(mid, now, want, {})
    ensures PassDone(before, now, want, sync)
    ensures mid.Keys - want.Keys == before.Keys - want.Keys
  {
    assert now.Keys == want.Keys;
    forall k | k in want && (sync || k !in before) ensures RoutesMatch(now, want, k) {
      assert RoutesMatch(mid, want, k) && now[k] == mid[k];
    }
  }

  lemma PassConverged(p: Plugin, before: Records, now: Records, want: map<SessionId, KernelSession>)
    requires Settled(p, now) && NoIdleTunnel(p) && PassDone(before, now, want, true)
    ensures Converged(p, now, want)
  {}

  /** A key not yet looked at is known now exactly if it was known before, and unchanged. */
  lemma KnownSoFar(before: Records, now: Records, want: map<SessionId, KernelSession>,
                   done: set<SessionId>, k: SessionId, sync: bool)
    requires Mirrored(before, now, want, done, sync) && k in want && k !in done
    ensures k in now <==> k in before
    ensures k in before ==> now[k] == before[k]
    ensures AlreadyMirrored(before, want, sync) ==> k in before && (sync ==> RoutesMatch(now, want, k))
  {}
}
