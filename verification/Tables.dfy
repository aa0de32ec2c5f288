/** Tunnel, session, route and adjacency tables of the plugin (l2tvpp.c), as values. The
    bihash indexes are maps, pools are maps from index to record, and the allocator's
    answers (pool index, interface number) are parameters: any unused number. */
module Tables {
  import opened Bytes
  import opened Header
  import opened Objects

  datatype Prefix = Prefix4(ip4: Ip4, len: nat) | Prefix6(octets: seq<byte>, len: nat)

  /** A path of the plugin's own FIB source: prefix via session interface. */
  datatype Route = Route(pfx: Prefix, swIf: nat)

  /** A neighbour adjacency is identified by next hop and interface. */
  datatype Adjacency = Adjacency(dst: Ip4, swIf: nat)

  datatype TunnelKey = TunnelKey(peer: Ip4, port: u16, tid: u16)

  datatype Plugin = Plugin(
    tunnels: map<nat, Tunnel>, sessions: map<nat, Session>,
    byKey: map<SessionId, nat>, bySwIf: map<nat, nat>, localIps: seq<Ip4>,
    fib: set<Route>,
    cache: map<Ip4, Adjacency>, cacheCount: nat,
    locks: multiset<Adjacency>)   // adjacency locks taken by the cache

  datatype Rc =
    | Ok | Unimplemented | TunnelExist | NoSuchEntry | InstanceInUse | AlreadyExists | InvalidSwIf

  const EMPTY: Plugin := Plugin(map[], map[], map[], map[], [], {}, map[], 0, multiset{})

  function KeyOf(t: Tunnel): TunnelKey { TunnelKey(t.peerIp, t.peerPort, t.localTid) }

  function IdOf(s: Session): SessionId { SessionId(s.localTid, s.localSid) }

  predicate IsTunnel(p: Plugin, k: TunnelKey, i: nat) { i in p.tunnels && KeyOf(p.tunnels[i]) == k }

  ghost predicate HasTunnel(p: Plugin, k: TunnelKey) { exists i: nat :: IsTunnel(p, k, i) }

  /** l2tvpp_tunnel_find */
  ghost function FindTunnel(p: Plugin, k: TunnelKey): nat
    requires HasTunnel(p, k)
  {
    var i: nat :| IsTunnel(p, k, i); i
  }

  // ----- effects of the successful operations ---------------------------------

  function AddTunnel(p: Plugin, idx: nat, t: Tunnel): Plugin
  {
    p.(tunnels := p.tunnels[idx := t],
       localIps := if t.localIp in p.localIps then p.localIps else p.localIps + [t.localIp])
  }

  function DelTunnel(p: Plugin, idx: nat): Plugin { p.(tunnels := p.tunnels - {idx}) }

  function SetCount(p: Plugin, tidx: nat, n: u32): map<nat, Tunnel>
    requires tidx in p.tunnels
  {
    p.tunnels[tidx := p.tunnels[tidx].(nSessions := n)]
  }

  function AddSession(p: Plugin, idx: nat, s: Session): Plugin
    requires s.tunnelIndex in p.tunnels
  {
    p.(sessions := p.sessions[idx := s],
       byKey := p.byKey[IdOf(s) := idx],
       bySwIf := p.bySwIf[s.swIf := idx],
       tunnels := SetCount(p, s.tunnelIndex, (p.tunnels[s.tunnelIndex].nSessions + 1) % 0x1_0000_0000))
  }

  /** The session found under the key is removed; the count that drops is the one of the
      tunnel the caller named, a 32-bit number that wraps below zero. */
  function DelSession(p: Plugin, idx: nat, tidx: nat): Plugin
    requires idx in p.sessions && tidx in p.tunnels
  {
    var s := p.sessions[idx];
    p.(sessions := p.sessions - {idx},
       byKey := p.byKey - {IdOf(s)},
       bySwIf := p.bySwIf - {s.swIf},
       tunnels := SetCount(p, tidx, (p.tunnels[tidx].nSessions + 0xFFFF_FFFF) % 0x1_0000_0000))
  }

  /** Only IPv4 host routes are mirrored in the encap cache. */
  predicate Cacheable(pfx: Prefix) { pfx.Prefix4? && pfx.len == 32 }

  /** fib_table_entry_path_add2, then the adjacency is locked and (re)cached. */
  function AddRoute(p: Plugin, r: Route): Plugin
  {
    var q := p.(fib := p.fib + {r});
    if !Cacheable(r.pfx) then q
    else
      var adj := Adjacency(r.pfx.ip4, r.swIf);
      q.(cache := p.cache[r.pfx.ip4 := adj], cacheCount := p.cacheCount + 1, locks := p.locks + multiset{adj})
  }

  /** fib_table_entry_path_remove2, then whatever the cache holds for the address goes. */
  function DelRoute(p: Plugin, r: Route): Plugin
  {
    var q := p.(fib := p.fib - {r});
    if !Cacheable(r.pfx) || r.pfx.ip4 !in p.cache then q
    else
      q.(cache := p.cache - {r.pfx.ip4},
         locks := p.locks - multiset{p.cache[r.pfx.ip4]},
         cacheCount := if p.cacheCount != 0 then p.cacheCount - 1 else 0)
  }

  // ----- the operations -------------------------------------------------------

  datatype Op =
    | TunnelAdd(local: Address, peer: Address, localPort: u16, peerPort: u16, localTid: u16, peerTid: u16, idx: nat)
    | TunnelDel(local: Address, peer: Address, peerPort: u16, localTid: u16)
    | SessionAdd(tidx: nat, localSid: u16, peerSid: u16, acfc: bool, pfc: bool, idx: nat, swIf: nat)
    | SessionDel(tidx: nat, localSid: u16)
    | RouteAdd(r: Route)
    | RouteDel(r: Route)

  /** The allocators answer with unused numbers. */
  predicate Fresh(p: Plugin, op: Op)
  {
    match op
    case TunnelAdd(_, _, _, _, _, _, idx) => idx !in p.tunnels
    case SessionAdd(_, _, _, _, _, idx, swIf) => idx !in p.sessions && swIf !in p.bySwIf
    case _ => true
  }

  /** The key a session operation resolves to: the named tunnel's id and the session id. */
  function OpId(p: Plugin, tidx: nat, localSid: u16): SessionId
    requires tidx in p.tunnels
  {
    SessionId(p.tunnels[tidx].localTid, localSid)
  }

  ghost function Reply(p: Plugin, op: Op): Rc
  {
    match op
    case TunnelAdd(local, peer, _, peerPort, localTid, _, _) =>
      if !local.V4? || !peer.V4? then Unimplemented
      else if HasTunnel(p, TunnelKey(peer.ip4, peerPort, localTid)) then TunnelExist else Ok
    case TunnelDel(local, peer, peerPort, localTid) =>
      if !local.V4? || !peer.V4? then Unimplemented
      else
        var k := TunnelKey(peer.ip4, peerPort, localTid);
        if !HasTunnel(p, k) then NoSuchEntry
        else if p.tunnels[FindTunnel(p, k)].nSessions != 0 then InstanceInUse else Ok
    case SessionAdd(tidx, localSid, _, _, _, _, _) =>
      if tidx !in p.tunnels then NoSuchEntry
      else if OpId(p, tidx, localSid) in p.byKey then AlreadyExists else Ok
    case SessionDel(tidx, localSid) =>
      if tidx !in p.tunnels || OpId(p, tidx, localSid) !in p.byKey then NoSuchEntry else Ok
    case RouteAdd(r) => if r.swIf !in p.bySwIf then InvalidSwIf else Ok
    case RouteDel(r) => if r.swIf !in p.bySwIf then InvalidSwIf else Ok
  }

  /** The session a delete resolves to. */
  function Target(p: Plugin, op: Op): Option<nat>
  {
    if op.SessionDel? && op.tidx in p.tunnels && OpId(p, op.tidx, op.localSid) in p.byKey
       && p.byKey[OpId(p, op.tidx, op.localSid)] in p.sessions
    then Some(p.byKey[OpId(p, op.tidx, op.localSid)]) else None
  }

  /** The state after an operation; a refused one changes nothing. (That a key in the index
      leads to a live session is `RunKeepsIndexes`.) */
  ghost function Apply(p: Plugin, op: Op): Plugin
  {
    if Reply(p, op) != Ok then p
    else
      match op
      case TunnelAdd(local, peer, localPort, peerPort, localTid, peerTid, idx) =>
        AddTunnel(p, idx, Tunnel(local.ip4, peer.ip4, localPort, peerPort, localTid, peerTid, 0))
      case TunnelDel(_, peer, peerPort, localTid) =>
        DelTunnel(p, FindTunnel(p, TunnelKey(peer.ip4, peerPort, localTid)))
      case SessionAdd(tidx, localSid, peerSid, acfc, pfc, idx, swIf) =>
        AddSession(p, idx, Session(tidx, p.tunnels[tidx].localTid, localSid, peerSid, acfc, pfc, swIf))
      case SessionDel(tidx, _) => if Target(p, op).Some? then DelSession(p, Target(p, op).value, tidx) else p
      case RouteAdd(r) => AddRoute(p, r)
      case RouteDel(r) => DelRoute(p, r)
  }

  /** The calls the daemon makes, when nothing stands in their way. */
  lemma RouteCallSucceeds(p: Plugin, r: Route)
    requires r.swIf in p.bySwIf
    ensures Reply(p, RouteAdd(r)) == Ok && Apply(p, RouteAdd(r)) == AddRoute(p, r)
    ensures Reply(p, RouteDel(r)) == Ok && Apply(p, RouteDel(r)) == DelRoute(p, r)
  {}

  lemma TunnelAddSucceeds(p: Plugin, op: Op)
    requires op.TunnelAdd? && op.local.V4? && op.peer.V4?
    requires !HasTunnel(p, TunnelKey(op.peer.ip4, op.peerPort, op.localTid))
    ensures Reply(p, op) == Ok
    ensures Apply(p, op) == AddTunnel(p, op.idx, Tunnel(op.local.ip4, op.peer.ip4, op.localPort, op.peerPort,
                                                        op.localTid, op.peerTid, 0))
  {}

  lemma TunnelDelSucceeds(p: Plugin, op: Op, i: nat)
    requires TunnelKeysUnique(p) && op.TunnelDel? && op.local.V4? && op.peer.V4?
    requires IsTunnel(p, TunnelKey(op.peer.ip4, op.peerPort, op.localTid), i) && p.tunnels[i].nSessions == 0
    ensures Reply(p, op) == Ok && Apply(p, op) == DelTunnel(p, i)
  {
    assert FindTunnel(p, TunnelKey(op.peer.ip4, op.peerPort, op.localTid)) == i;
  }

  lemma SessionAddSucceeds(p: Plugin, op: Op)
    requires op.SessionAdd? && op.tidx in p.tunnels && OpId(p, op.tidx, op.localSid) !in p.byKey
    ensures Reply(p, op) == Ok
    ensures Apply(p, op) == AddSession(p, op.idx, Session(op.tidx, p.tunnels[op.tidx].localTid, op.localSid,
                                                          op.peerSid, op.acfc, op.pfc, op.swIf))
  {}

  lemma SessionDelSucceeds(p: Plugin, op: Op)
    requires KeyIndexOk(p) && op.SessionDel? && op.tidx in p.tunnels && OpId(p, op.tidx, op.localSid) in p.byKey
    ensures Reply(p, op) == Ok
    ensures Apply(p, op) == DelSession(p, p.byKey[OpId(p, op.tidx, op.localSid)], op.tidx)
  {}

  // ----- the table invariant --------------------------------------------------

  predicate TunnelKeysUnique(p: Plugin)
  {
    forall i, j :: i in p.tunnels && j in p.tunnels && KeyOf(p.tunnels[i]) == KeyOf(p.tunnels[j]) ==> i == j
  }

  /** The key index maps each live session's id to that session, and nothing else. */
  predicate KeyIndexOk(p: Plugin)
  {
    && (forall k :: k in p.byKey ==> p.byKey[k] in p.sessions && IdOf(p.sessions[p.byKey[k]]) == k)
    && (forall i :: i in p.sessions ==> IdOf(p.sessions[i]) in p.byKey && p.byKey[IdOf(p.sessions[i])] == i)
  }

  /** The interface index maps each live session's interface to that session, and nothing else. */
  predicate SwIfIndexOk(p: Plugin)
  {
    && (forall w :: w in p.bySwIf ==> p.bySwIf[w] in p.sessions && p.sessions[p.bySwIf[w]].swIf == w)
    && (forall i :: i in p.sessions ==> p.sessions[i].swIf in p.bySwIf && p.bySwIf[p.sessions[i].swIf] == i)
  }

  predicate Anchored(p: Plugin)
  {
    forall i :: i in p.sessions ==>
      p.sessions[i].tunnelIndex in p.tunnels
      && p.tunnels[p.sessions[i].tunnelIndex].localTid == p.sessions[i].localTid
  }

  function SessionsOf(sessions: map<nat, Session>, t: nat): set<nat>
  {
    set i | i in sessions && sessions[i].tunnelIndex == t
  }

  predicate CountsOk(p: Plugin)
  {
    forall t :: t in p.tunnels ==> p.tunnels[t].nSessions == |SessionsOf(p.sessions, t)|
  }

  predicate LocalIpsOk(p: Plugin)
  {
    && (forall t :: t in p.tunnels ==> p.tunnels[t].localIp in p.localIps)
    && (forall i, j :: 0 <= i < j < |p.localIps| ==> p.localIps[i] != p.localIps[j])
  }

  /** What survives any operation at all, sensible or not. */
  predicate IndexesOk(p: Plugin)
  {
    TunnelKeysUnique(p) && KeyIndexOk(p) && SwIfIndexOk(p) && LocalIpsOk(p)
  }

  /** The whole invariant: moreover sessions are on live tunnels, and counted there. */
  predicate TablesOk(p: Plugin)
  {
    IndexesOk(p) && Anchored(p) && CountsOk(p)
  }

  /** A session delete names the tunnel its session belongs to. The key does not settle
      this: two tunnels to different peers may share a local tunnel id. */
  predicate NamesOwnTunnel(p: Plugin, op: Op)
  {
    Target(p, op).Some? ==> p.sessions[Target(p, op).value].tunnelIndex == op.tidx
  }

  // ----- counting -------------------------------------------------------------

  lemma {:induction false} InjectionSize<T, U>(a: set<T>, b: set<U>, f: T -> U)
    requires forall x :: x in a ==> f(x) in b
    requires forall x, y :: x in a && y in a && f(x) == f(y) ==> x == y
    ensures |a| <= |b|
  {
    if x :| x in a {
      InjectionSize(a - {x}, b - {f(x)}, f);
    }
  }

  /** The integers 0 .. n - 1. */
  ghost function Interval(n: nat): (s: set<int>)
    ensures |s| == n && forall x :: x in s <==> 0 <= x < n
  {
    if n == 0 then {} else Interval(n - 1) + {n - 1}
  }

  /** A tunnel never has more sessions than there are 16-bit session ids, so the 32-bit
      count cannot wrap upwards. */
  lemma SessionsBounded(p: Plugin, t: nat)
    requires KeyIndexOk(p) && Anchored(p)
    ensures |SessionsOf(p.sessions, t)| <= 0x1_0000
  {
    var mine := SessionsOf(p.sessions, t);
    var sidOf := (i: nat) => if i in p.sessions then p.sessions[i].localSid as int else -1;
    forall i, j | i in mine && j in mine && sidOf(i) == sidOf(j) ensures i == j {
      assert IdOf(p.sessions[i]) == IdOf(p.sessions[j]);
    }
    InjectionSize(mine, Interval(0x1_0000), sidOf);
  }

  lemma NoneCounted(sessions: map<nat, Session>, t: nat)
    requires |SessionsOf(sessions, t)| == 0
    ensures forall i :: i in sessions ==> sessions[i].tunnelIndex != t
  {
    assert SessionsOf(sessions, t) == {};
    forall i | i in sessions ensures sessions[i].tunnelIndex != t {
      assert i !in SessionsOf(sessions, t);
    }
  }

  lemma SessionsAfterAdd(sessions: map<nat, Session>, idx: nat, s: Session, t: nat)
    requires idx !in sessions
    ensures |SessionsOf(sessions[idx := s], t)|
            == |SessionsOf(sessions, t)| + if s.tunnelIndex == t then 1 else 0
  {
    if s.tunnelIndex == t {
      assert SessionsOf(sessions[idx := s], t) == SessionsOf(sessions, t) + {idx};
    } else {
      assert SessionsOf(sessions[idx := s], t) == SessionsOf(sessions, t);
    }
  }

  lemma SessionsAfterDel(sessions: map<nat, Session>, idx: nat, t: nat)
    requires idx in sessions
    ensures |SessionsOf(sessions - {idx}, t)|
            == |SessionsOf(sessions, t)| - if sessions[idx].tunnelIndex == t then 1 else 0
  {
    if sessions[idx].tunnelIndex == t {
      assert SessionsOf(sessions, t) == SessionsOf(sessions - {idx}, t) + {idx};
    } else {
      assert SessionsOf(sessions - {idx}, t) == SessionsOf(sessions, t);
    }
  }

  // ----- what each operation keeps: the indexes -------------------------------

  lemma AddTunnelKeepsIndexes(p: Plugin, idx: nat, t: Tunnel)
    requires IndexesOk(p) && idx !in p.tunnels && !HasTunnel(p, KeyOf(t))
    ensures IndexesOk(AddTunnel(p, idx, t))
  {
    forall i | i in p.tunnels ensures KeyOf(p.tunnels[i]) != KeyOf(t) {
      assert !IsTunnel(p, KeyOf(t), i);
    }
    AddTunnelKeepsLocalIps(p, idx, t);
  }

  lemma AddTunnelKeepsLocalIps(p: Plugin, idx: nat, t: Tunnel)
    requires LocalIpsOk(p)
    ensures LocalIpsOk(AddTunnel(p, idx, t))
  {
    assert forall a :: a in p.localIps ==> a in AddTunnel(p, idx, t).localIps;
  }

  lemma DelTunnelKeepsIndexes(p: Plugin, idx: nat)
    requires IndexesOk(p)
    ensures IndexesOk(DelTunnel(p, idx))
  {}

  /** Replacing a tunnel's count leaves everything else about the tunnels alone. */
  lemma SetCountKeeps(p: Plugin, q: Plugin, tidx: nat, n: u32)
    requires TunnelKeysUnique(p) && LocalIpsOk(p) && tidx in p.tunnels
    requires q.tunnels == SetCount(p, tidx, n) && q.localIps == p.localIps
    ensures TunnelKeysUnique(q) && LocalIpsOk(q)
    ensures q.tunnels.Keys == p.tunnels.Keys
    ensures forall t :: t in p.tunnels ==> q.tunnels[t].localTid == p.tunnels[t].localTid
    ensures forall t :: t in p.tunnels ==> q.tunnels[t].nSessions == if t == tidx then n else p.tunnels[t].nSessions
  {}

  lemma AddSessionKeepsIndexes(p: Plugin, idx: nat, s: Session)
    requires IndexesOk(p) && s.tunnelIndex in p.tunnels
    requires idx !in p.sessions && s.swIf !in p.bySwIf && IdOf(s) !in p.byKey
    ensures IndexesOk(AddSession(p, idx, s))
  {
    hide KeyIndexOk, SwIfIndexOk, TunnelKeysUnique, LocalIpsOk;
    SetCountKeeps(p, AddSession(p, idx, s), s.tunnelIndex, (p.tunnels[s.tunnelIndex].nSessions + 1) % 0x1_0000_0000);
    AddSessionKeyIndex(p, idx, s);
    AddSessionSwIfIndex(p, idx, s);
  }

  lemma AddSessionKeyIndex(p: Plugin, idx: nat, s: Session)
    requires KeyIndexOk(p) && s.tunnelIndex in p.tunnels && idx !in p.sessions && IdOf(s) !in p.byKey
    ensures KeyIndexOk(AddSession(p, idx, s))
  {}

  lemma AddSessionSwIfIndex(p: Plugin, idx: nat, s: Session)
    requires SwIfIndexOk(p) && s.tunnelIndex in p.tunnels && idx !in p.sessions && s.swIf !in p.bySwIf
    ensures SwIfIndexOk(AddSession(p, idx, s))
  {}

  lemma DelSessionKeepsIndexes(p: Plugin, idx: nat, tidx: nat)
    requires IndexesOk(p) && idx in p.sessions && tidx in p.tunnels
    ensures IndexesOk(DelSession(p, idx, tidx))
  {
    hide KeyIndexOk, SwIfIndexOk, TunnelKeysUnique, LocalIpsOk;
    SetCountKeeps(p, DelSession(p, idx, tidx), tidx, (p.tunnels[tidx].nSessions + 0xFFFF_FFFF) % 0x1_0000_0000);
    DelSessionKeyIndex(p, idx, tidx);
    DelSessionSwIfIndex(p, idx, tidx);
  }

  lemma DelSessionKeyIndex(p: Plugin, idx: nat, tidx: nat)
    requires KeyIndexOk(p) && idx in p.sessions && tidx in p.tunnels
    ensures KeyIndexOk(DelSession(p, idx, tidx))
  {}

  lemma DelSessionSwIfIndex(p: Plugin, idx: nat, tidx: nat)
    requires SwIfIndexOk(p) && idx in p.sessions && tidx in p.tunnels
    ensures SwIfIndexOk(DelSession(p, idx, tidx))
  {}

  predicate RoutesOnly(p: Plugin, q: Plugin)
  {
    q == p.(fib := q.fib, cache := q.cache, cacheCount := q.cacheCount, locks := q.locks)
  }

  lemma RouteOperationFrame(p: Plugin, op: Op)
    requires op.RouteAdd? || op.RouteDel?
    ensures RoutesOnly(p, Apply(p, op))
  {}

  lemma IndexesFrame(p: Plugin, q: Plugin)
    requires IndexesOk(p) && RoutesOnly(p, q)
    ensures IndexesOk(q)
  {}

  /** Every operation keeps the indexes exact, whatever its arguments and whatever came
      before: a session delete through a foreign tunnel is no exception. */
  lemma OperationKeepsIndexes(p: Plugin, op: Op)
    requires IndexesOk(p) && Fresh(p, op)
    ensures IndexesOk(Apply(p, op))
  {
    hide SwIfIndexOk, TunnelKeysUnique, LocalIpsOk;
    if Reply(p, op) == Ok {
      match op
      case TunnelAdd(local, peer, localPort, peerPort, localTid, peerTid, idx) =>
        AddTunnelKeepsIndexes(p, idx, Tunnel(local.ip4, peer.ip4, localPort, peerPort, localTid, peerTid, 0));
      case TunnelDel(_, peer, peerPort, localTid) =>
        DelTunnelKeepsIndexes(p, FindTunnel(p, TunnelKey(peer.ip4, peerPort, localTid)));
      case SessionAdd(tidx, localSid, peerSid, acfc, pfc, idx, swIf) =>
        AddSessionKeepsIndexes(p, idx, Session(tidx, p.tunnels[tidx].localTid, localSid, peerSid, acfc, pfc, swIf));
      case SessionDel(tidx, localSid) =>
        DelSessionKeepsIndexes(p, Target(p, op).value, tidx);
      case _ =>
        RouteOperationFrame(p, op);
        IndexesFrame(p, Apply(p, op));
    }
  }

  // ----- what each operation keeps: the whole invariant -----------------------

  lemma AddTunnelKeeps(p: Plugin, idx: nat, t: Tunnel)
    requires TablesOk(p) && idx !in p.tunnels && !HasTunnel(p, KeyOf(t)) && t.nSessions == 0
    ensures TablesOk(AddTunnel(p, idx, t))
  {
    hide KeyIndexOk, SwIfIndexOk, TunnelKeysUnique, LocalIpsOk;
    AddTunnelKeepsIndexes(p, idx, t);
    assert SessionsOf(p.sessions, idx) == {};
  }

  lemma DelTunnelKeeps(p: Plugin, idx: nat)
    requires TablesOk(p) && idx in p.tunnels && p.tunnels[idx].nSessions == 0
    ensures TablesOk(DelTunnel(p, idx))
  {
    hide KeyIndexOk, SwIfIndexOk, TunnelKeysUnique, LocalIpsOk;
    NoneCounted(p.sessions, idx);
    DelTunnelKeepsIndexes(p, idx);
  }

  lemma AddSessionKeeps(p: Plugin, idx: nat, s: Session)
    requires TablesOk(p) && idx !in p.sessions && s.swIf !in p.bySwIf && IdOf(s) !in p.byKey
    requires s.tunnelIndex in p.tunnels && p.tunnels[s.tunnelIndex].localTid == s.localTid
    ensures TablesOk(AddSession(p, idx, s))
  {
    hide KeyIndexOk, SwIfIndexOk, CountsOk, TunnelKeysUnique, LocalIpsOk, Anchored, AddSession;
    AddSessionKeepsIndexes(p, idx, s);
    AddSessionKeepsCounts(p, idx, s);
    AddSessionKeepsAnchors(p, idx, s);
  }

  lemma AddSessionKeepsAnchors(p: Plugin, idx: nat, s: Session)
    requires IndexesOk(p) && Anchored(p) && idx !in p.sessions
    requires s.tunnelIndex in p.tunnels && p.tunnels[s.tunnelIndex].localTid == s.localTid
    ensures Anchored(AddSession(p, idx, s))
  {
    hide KeyIndexOk, SwIfIndexOk;
    SetCountKeeps(p, AddSession(p, idx, s), s.tunnelIndex, (p.tunnels[s.tunnelIndex].nSessions + 1) % 0x1_0000_0000);
  }

  lemma AddSessionKeepsCounts(p: Plugin, idx: nat, s: Session)
    requires KeyIndexOk(p) && Anchored(p) && CountsOk(p) && idx !in p.sessions && s.tunnelIndex in p.tunnels
    ensures CountsOk(AddSession(p, idx, s))
  {
    var q := AddSession(p, idx, s);
    forall t | t in q.tunnels ensures q.tunnels[t].nSessions == |SessionsOf(q.sessions, t)| {
      SessionsAfterAdd(p.sessions, idx, s, t);
      SessionsBounded(p, t);
    }
  }

  /** The counts stay right exactly when the count that drops is the session's own tunnel's. */
  lemma DelSessionCountsIff(p: Plugin, idx: nat, tidx: nat)
    requires KeyIndexOk(p) && Anchored(p) && CountsOk(p) && idx in p.sessions && tidx in p.tunnels
    ensures CountsOk(DelSession(p, idx, tidx)) <==> p.sessions[idx].tunnelIndex == tidx
  {
    var q, own := DelSession(p, idx, tidx), p.sessions[idx].tunnelIndex;
    SessionsBounded(p, tidx);
    SessionsAfterDel(p.sessions, idx, tidx);
    if own == tidx {
      forall t | t in q.tunnels ensures q.tunnels[t].nSessions == |SessionsOf(q.sessions, t)| {
        SessionsAfterDel(p.sessions, idx, t);
      }
    } else {
      assert q.tunnels[tidx].nSessions != |SessionsOf(q.sessions, tidx)|;
    }
  }

  /** Deleting a session keeps the invariant exactly when the caller names its tunnel. */
  lemma DelSessionKeepsIff(p: Plugin, idx: nat, tidx: nat)
    requires TablesOk(p) && idx in p.sessions && tidx in p.tunnels
    ensures TablesOk(DelSession(p, idx, tidx)) <==> p.sessions[idx].tunnelIndex == tidx
  {
    hide KeyIndexOk, SwIfIndexOk, CountsOk, TunnelKeysUnique, LocalIpsOk, Anchored, DelSession;
    DelSessionKeepsIndexes(p, idx, tidx);
    DelSessionCountsIff(p, idx, tidx);
    DelSessionKeepsAnchors(p, idx, tidx);
  }

  lemma DelSessionKeepsAnchors(p: Plugin, idx: nat, tidx: nat)
    requires IndexesOk(p) && Anchored(p) && idx in p.sessions && tidx in p.tunnels
    ensures Anchored(DelSession(p, idx, tidx))
  {
    hide KeyIndexOk, SwIfIndexOk;
    SetCountKeeps(p, DelSession(p, idx, tidx), tidx, (p.tunnels[tidx].nSessions + 0xFFFF_FFFF) % 0x1_0000_0000);
  }

  /** The invariant is about the tables only, not about routes or the encap cache. */
  lemma TablesFrame(p: Plugin, q: Plugin)
    requires TablesOk(p) && RoutesOnly(p, q)
    ensures TablesOk(q)
  {
    hide KeyIndexOk, SwIfIndexOk, TunnelKeysUnique, LocalIpsOk;
    IndexesFrame(p, q);
    assert CountsOk(q) && Anchored(q);
  }

  lemma TunnelOperationKeeps(p: Plugin, op: Op)
    requires TablesOk(p) && Fresh(p, op) && (op.TunnelAdd? || op.TunnelDel?)
    ensures TablesOk(Apply(p, op))
  {
    if Reply(p, op) == Ok {
      match op
      case TunnelAdd(local, peer, localPort, peerPort, localTid, peerTid, idx) =>
        AddTunnelKeeps(p, idx, Tunnel(local.ip4, peer.ip4, localPort, peerPort, localTid, peerTid, 0));
      case TunnelDel(_, peer, peerPort, localTid) =>
        DelTunnelKeeps(p, FindTunnel(p, TunnelKey(peer.ip4, peerPort, localTid)));
    }
  }

  lemma SessionAddKeeps(p: Plugin, op: Op)
    requires TablesOk(p) && Fresh(p, op) && op.SessionAdd?
    ensures TablesOk(Apply(p, op))
  {
    if Reply(p, op) == Ok {
      AddSessionKeeps(p, op.idx, Session(op.tidx, p.tunnels[op.tidx].localTid, op.localSid, op.peerSid,
                                         op.acfc, op.pfc, op.swIf));
    }
  }

  lemma SessionDelKeepsIff(p: Plugin, op: Op)
    requires TablesOk(p) && op.SessionDel?
    ensures TablesOk(Apply(p, op)) <==> NamesOwnTunnel(p, op)
  {
    hide SwIfIndexOk, CountsOk, TunnelKeysUnique, LocalIpsOk, Anchored, DelSession;
    if Reply(p, op) == Ok {
      DelSessionKeepsIff(p, Target(p, op).value, op.tidx);
    }
  }

  lemma RouteOperationKeeps(p: Plugin, op: Op)
    requires TablesOk(p) && (op.RouteAdd? || op.RouteDel?)
    ensures TablesOk(Apply(p, op))
  {
    RouteOperationFrame(p, op);
    TablesFrame(p, Apply(p, op));
  }

  /** Every operation keeps the table invariant, except a session delete through another
      tunnel with the same local id, which always breaks it. */
  lemma OperationKeepsTables(p: Plugin, op: Op)
    requires TablesOk(p) && Fresh(p, op)
    ensures TablesOk(Apply(p, op)) <==> NamesOwnTunnel(p, op)
  {
    if op.TunnelAdd? || op.TunnelDel? { TunnelOperationKeeps(p, op); }
    else if op.SessionAdd? { SessionAddKeeps(p, op); }
    else if op.SessionDel? { SessionDelKeepsIff(p, op); }
    else { RouteOperationKeeps(p, op); }
  }

  // ----- replies and effects, field by field ----------------------------------

  /** Why a call is refused, and that it is not otherwise; a refused call changes nothing. */
  lemma RefusedWhen(p: Plugin, op: Op)
    requires IndexesOk(p)
    ensures Reply(p, op) != Ok ==> Apply(p, op) == p
    ensures op.TunnelAdd? || op.TunnelDel? ==> (Reply(p, op) == Unimplemented <==> op.local.V6? || op.peer.V6?)
    ensures op.TunnelAdd? && op.local.V4? && op.peer.V4? ==>
      Reply(p, op) == if exists i: nat :: Matches(p, i, op.peer.ip4, op.peerPort, op.localTid) then TunnelExist else Ok
    ensures op.TunnelDel? && op.local.V4? && op.peer.V4? ==>
      && (Reply(p, op) == NoSuchEntry <==> forall i: nat :: !Matches(p, i, op.peer.ip4, op.peerPort, op.localTid))
      && forall i: nat :: Matches(p, i, op.peer.ip4, op.peerPort, op.localTid) ==>
           Reply(p, op) == if p.tunnels[i].nSessions != 0 then InstanceInUse else Ok
    ensures op.SessionAdd? ==>
      Reply(p, op) == if op.tidx !in p.tunnels then NoSuchEntry
                      else if exists i: nat :: HasIds(p, i, p.tunnels[op.tidx].localTid, op.localSid) then AlreadyExists
                      else Ok
    ensures op.SessionDel? ==>
      Reply(p, op) == if op.tidx !in p.tunnels then NoSuchEntry
                      else if exists i: nat :: HasIds(p, i, p.tunnels[op.tidx].localTid, op.localSid) then Ok
                      else NoSuchEntry
    ensures op.RouteAdd? || op.RouteDel? ==>
      Reply(p, op) == if exists i: nat :: HasInterface(p, i, op.r.swIf) then Ok else InvalidSwIf
  {
    hide LocalIpsOk;
    match op
    case TunnelAdd(_, _, _, _, _, _, _) => MatchesIff(p, op.peer, op.peerPort, op.localTid);
    case TunnelDel(_, _, _, _) => MatchesIff(p, op.peer, op.peerPort, op.localTid);
    case SessionAdd(tidx, sid, _, _, _, _, _) => if tidx in p.tunnels { HasIdsIff(p, p.tunnels[tidx].localTid, sid); }
    case SessionDel(tidx, sid) => if tidx in p.tunnels { HasIdsIff(p, p.tunnels[tidx].localTid, sid); }
    case _ => HasInterfaceIff(p, op.r.swIf);
  }

  predicate Matches(p: Plugin, i: nat, peer: Ip4, port: u16, tid: u16)
  {
    i in p.tunnels && p.tunnels[i].peerIp == peer && p.tunnels[i].peerPort == port && p.tunnels[i].localTid == tid
  }

  predicate HasIds(p: Plugin, i: nat, tid: u16, sid: u16)
  {
    i in p.sessions && p.sessions[i].localTid == tid && p.sessions[i].localSid == sid
  }

  predicate HasInterface(p: Plugin, i: nat, w: nat) { i in p.sessions && p.sessions[i].swIf == w }

  lemma MatchesIff(p: Plugin, peer: Address, port: u16, tid: u16)
    requires TunnelKeysUnique(p)
    ensures peer.V4? ==> forall i: nat ::
      Matches(p, i, peer.ip4, port, tid) <==> IsTunnel(p, TunnelKey(peer.ip4, port, tid), i)
    ensures peer.V4? ==>
      (HasTunnel(p, TunnelKey(peer.ip4, port, tid)) <==> exists i: nat :: Matches(p, i, peer.ip4, port, tid))
    ensures peer.V4? ==> forall i: nat :: Matches(p, i, peer.ip4, port, tid) ==>
      FindTunnel(p, TunnelKey(peer.ip4, port, tid)) == i
  {
    if peer.V4? {
      var k := TunnelKey(peer.ip4, port, tid);
      forall i: nat ensures Matches(p, i, peer.ip4, port, tid) <==> IsTunnel(p, k, i) {}
      if i: nat :| IsTunnel(p, k, i) { assert Matches(p, i, peer.ip4, port, tid); }
    }
  }

  lemma HasIdsIff(p: Plugin, tid: u16, sid: u16)
    requires KeyIndexOk(p)
    ensures SessionId(tid, sid) in p.byKey <==> exists i: nat :: HasIds(p, i, tid, sid)
  {
    var k := SessionId(tid, sid);
    if k in p.byKey { assert HasIds(p, p.byKey[k], tid, sid); }
    if i: nat :| HasIds(p, i, tid, sid) { assert IdOf(p.sessions[i]) == k; }
  }

  lemma HasInterfaceIff(p: Plugin, w: nat)
    requires SwIfIndexOk(p)
    ensures w in p.bySwIf <==> exists i: nat :: HasInterface(p, i, w)
  {
    if w in p.bySwIf { assert HasInterface(p, p.bySwIf[w], w); }
  }

  /** What a successful call stores: the arguments, under the answers of the allocators. */
  lemma TunnelStored(p: Plugin, op: Op)
    requires op.TunnelAdd? && Reply(p, op) == Ok
    ensures var q := Apply(p, op);
      && q.tunnels == p.tunnels[op.idx := Tunnel(op.local.ip4, op.peer.ip4, op.localPort, op.peerPort,
                                                 op.localTid, op.peerTid, 0)]
      && q.sessions == p.sessions && q.fib == p.fib
      && forall a :: a in q.localIps <==> a in p.localIps || a == op.local.ip4
  {
    hide HasTunnel;
  }

  lemma SessionStored(p: Plugin, op: Op)
    requires op.SessionAdd? && Reply(p, op) == Ok
    ensures op.tidx in p.tunnels
    ensures var q := Apply(p, op);
      && q.sessions == p.sessions[op.idx := Session(op.tidx, p.tunnels[op.tidx].localTid, op.localSid, op.peerSid,
                                                    op.acfc, op.pfc, op.swIf)]
      && q.tunnels.Keys == p.tunnels.Keys && q.localIps == p.localIps && q.fib == p.fib
  {
    hide HasTunnel;
  }

  lemma RouteStored(p: Plugin, op: Op)
    requires (op.RouteAdd? || op.RouteDel?) && Reply(p, op) == Ok
    ensures var q := Apply(p, op);
      && q.fib == (if op.RouteAdd? then p.fib + {op.r} else p.fib - {op.r})
      && q.tunnels == p.tunnels && q.sessions == p.sessions && q.localIps == p.localIps
  {
    hide Apply, AddRoute, DelRoute;
    RouteNeedsInterface(p, op);
    RouteCallSucceeds(p, op.r);
    RouteEffect(p, op.r);
  }

  lemma RouteNeedsInterface(p: Plugin, op: Op)
    requires (op.RouteAdd? || op.RouteDel?) && Reply(p, op) == Ok
    ensures op.r.swIf in p.bySwIf
  {
    hide HasTunnel;
  }

  lemma RouteEffect(p: Plugin, r: Route)
    ensures RoutesOnly(p, AddRoute(p, r)) && AddRoute(p, r).fib == p.fib + {r}
    ensures RoutesOnly(p, DelRoute(p, r)) && DelRoute(p, r).fib == p.fib - {r}
  {}

  // ----- runs -----------------------------------------------------------------

  /** `states` is the run of `ops` from `states[0]`, whatever the allocators answer. */
  ghost predicate IsRun(states: seq<Plugin>, ops: seq<Op>)
  {
    && |states| == |ops| + 1
    && forall i :: 0 <= i < |ops| ==> Fresh(states[i], ops[i]) && states[i + 1] == Apply(states[i], ops[i])
  }

  /** From empty tables, both indexes are exact and tunnel keys unique after every operation
      of every run, whatever is called. */
  lemma {:induction false} RunKeepsIndexes(states: seq<Plugin>, ops: seq<Op>, n: nat)
    requires IsRun(states, ops) && states[0] == EMPTY && n <= |ops|
    ensures IndexesOk(states[n])
  {
    if n != 0 {
      RunKeepsIndexes(states, ops, n - 1);
      OperationKeepsIndexes(states[n - 1], ops[n - 1]);
    }
  }

  /** From empty tables the invariant holds after every operation of every run in which
      session deletes name their own tunnel. */
  lemma {:induction false} TablesInvariant(states: seq<Plugin>, ops: seq<Op>, n: nat)
    requires IsRun(states, ops) && states[0] == EMPTY && n <= |ops|
    requires forall i :: 0 <= i < n ==> NamesOwnTunnel(states[i], ops[i])
    ensures TablesOk(states[n])
  {
    if n != 0 {
      TablesInvariant(states, ops, n - 1);
      OperationKeepsTables(states[n - 1], ops[n - 1]);
    }
  }

  /** A tunnel delete goes through exactly when the tunnel exists and no session points at
      it, so it never strands one; and the tunnel found is the only one with that key. */
  lemma TunnelDeleteStrandsNone(p: Plugin, op: Op)
    requires TablesOk(p) && op.TunnelDel? && op.local.V4? && op.peer.V4?
    ensures var k := TunnelKey(op.peer.ip4, op.peerPort, op.localTid);
      Reply(p, op) == Ok <==>
      exists t :: IsTunnel(p, k, t) && forall i :: i in p.sessions ==> p.sessions[i].tunnelIndex != t
  {
    var k := TunnelKey(op.peer.ip4, op.peerPort, op.localTid);
    if HasTunnel(p, k) {
      var t := FindTunnel(p, k);
      forall u: nat | IsTunnel(p, k, u) ensures u == t {}
      if p.tunnels[t].nSessions == 0 {
        NoneCounted(p.sessions, t);
      } else {
        var i :| i in SessionsOf(p.sessions, t);
      }
    }
  }

  /** The wrong-tunnel delete: whenever two tunnels share a local id, a session of the
      first can be deleted through the second. If the second had none of its own, its
      count wraps to 2^32 - 1 and it can no longer be deleted. */
  lemma WrongTunnelUnderflows(p: Plugin, idx: nat, other: nat)
    requires KeyIndexOk(p) && idx in p.sessions && other in p.tunnels
    requires p.sessions[idx].tunnelIndex != other && p.tunnels[other].localTid == p.sessions[idx].localTid
    requires p.tunnels[other].nSessions == 0
    ensures var q := Apply(p, SessionDel(other, p.sessions[idx].localSid));
      idx !in q.sessions && q.tunnels[other].nSessions == 0xFFFF_FFFF
  {
    assert OpId(p, other, p.sessions[idx].localSid) == IdOf(p.sessions[idx]);
  }

  /** If the second tunnel had one session of its own, it now counts as unused: its delete
      goes through and strands that session. */
  lemma WrongTunnelStrands(p: Plugin, idx: nat, other: nat, own: nat, local: Ip4)
    requires TablesOk(p) && idx in p.sessions && other in p.tunnels
    requires p.sessions[idx].tunnelIndex != other && p.tunnels[other].localTid == p.sessions[idx].localTid
    requires p.tunnels[other].nSessions == 1 && own in p.sessions && p.sessions[own].tunnelIndex == other
    ensures var t := p.tunnels[other]; var q := Apply(p, SessionDel(other, p.sessions[idx].localSid));
      var del := TunnelDel(V4(local), V4(t.peerIp), t.peerPort, t.localTid);
      && Reply(q, del) == Ok
      && own in Apply(q, del).sessions && other !in Apply(q, del).tunnels
  {
    hide SwIfIndexOk, CountsOk, TunnelKeysUnique, LocalIpsOk, Anchored;
    var op, t := SessionDel(other, p.sessions[idx].localSid), p.tunnels[other];
    assert OpId(p, other, op.localSid) == IdOf(p.sessions[idx]);
    SessionDelSucceeds(p, op);
    OperationKeepsIndexes(p, op);
    var q, del := Apply(p, op), TunnelDel(V4(local), V4(t.peerIp), t.peerPort, t.localTid);
    assert own != idx && IsTunnel(q, KeyOf(t), other);
    TunnelDelSucceeds(q, del, other);
  }

  // ----- it happens -----------------------------------------------------------

  const HERE: Ip4 := [192, 0, 2, 1]
  const LAC_A: Ip4 := [192, 0, 2, 10]
  const LAC_B: Ip4 := [192, 0, 2, 11]

  function Lac(peer: Ip4, peerTid: u16, n: u32): Tunnel { Tunnel(HERE, peer, 1701, 1701, 7, peerTid, n) }

  function Dial(peer: Ip4, peerTid: u16, idx: nat): Op { TunnelAdd(V4(HERE), V4(peer), 1701, 1701, 7, peerTid, idx) }

  /** Two LACs whose tunnels have the same local id 7: legal, as the keys differ. */
  const TWO_TUNNELS: Plugin := EMPTY.(tunnels := map[0 := Lac(LAC_A, 1, 0), 1 := Lac(LAC_B, 1, 0)], localIps := [HERE])

  ghost predicate Succeeds(p: Plugin, op: Op, q: Plugin)
  {
    Fresh(p, op) && Reply(p, op) == Ok && q == Apply(p, op)
  }

  lemma FirstTunnel() returns (one: Plugin)
    ensures Succeeds(EMPTY, Dial(LAC_A, 1, 0), one) && Succeeds(one, Dial(LAC_B, 1, 1), TWO_TUNNELS)
  {
    assert !HasTunnel(EMPTY, TunnelKey(LAC_A, 1701, 7));
    one := EMPTY.(tunnels := map[0 := Lac(LAC_A, 1, 0)], localIps := [HERE]);
    assert LAC_A[3] != LAC_B[3];
    assert !HasTunnel(one, TunnelKey(LAC_B, 1701, 7));
    assert one.tunnels[1 := Lac(LAC_B, 1, 0)] == TWO_TUNNELS.tunnels;
  }

  lemma SessionOnFirst() returns (p: Plugin)
    ensures Succeeds(TWO_TUNNELS, SessionAdd(0, 5, 6, false, false, 0, 9), p)
    ensures p == AddSession(TWO_TUNNELS, 0, Session(0, 7, 5, 6, false, false, 9))
  {
    p := AddSession(TWO_TUNNELS, 0, Session(0, 7, 5, 6, false, false, 9));
  }

  /** The wrong-tunnel delete is reachable: two tunnels with one local id, a session on the
      first, deleted through the second. Every call succeeds, and the second tunnel is left
      with a count of 2^32 - 1 although no session exists. */
  lemma ForeignDeleteHappens() returns (states: seq<Plugin>, ops: seq<Op>)
    ensures IsRun(states, ops) && states[0] == EMPTY && |ops| == 4
    ensures forall i :: 0 <= i < 4 ==> Reply(states[i], ops[i]) == Ok
    ensures states[4].sessions == map[] && 1 in states[4].tunnels && states[4].tunnels[1].nSessions == 0xFFFF_FFFF
    ensures !NamesOwnTunnel(states[3], ops[3]) && !TablesOk(states[4])
  {
    hide Fresh, Reply, Apply, TablesOk;
    var one := FirstTunnel();
    var three := SessionOnFirst();
    var four := ForeignDelete(three);
    states := [EMPTY, one, TWO_TUNNELS, three, four];
    ops := [Dial(LAC_A, 1, 0), Dial(LAC_B, 1, 1), SessionAdd(0, 5, 6, false, false, 0, 9), SessionDel(1, 5)];
  }

  lemma ForeignDelete(p: Plugin) returns (q: Plugin)
    requires p == AddSession(TWO_TUNNELS, 0, Session(0, 7, 5, 6, false, false, 9))
    ensures Succeeds(p, SessionDel(1, 5), q) && !NamesOwnTunnel(p, SessionDel(1, 5))
    ensures q.sessions == map[] && 1 in q.tunnels && q.tunnels[1].nSessions == 0xFFFF_FFFF && !TablesOk(q)
  {
    assert OpId(p, 1, 5) == SessionId(7, 5);
    q := DelSession(p, 0, 1);
    assert SessionsOf(q.sessions, 1) == {};
    assert !CountsOk(q);
  }
}
