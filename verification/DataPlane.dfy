/** The plugin's tables as the object that the API calls update in place (l2tvpp.c). */
module DataPlane {
  import opened Bytes
  import opened Header
  import opened Objects
  import opened Tables

  const NO_INDEX: nat := 0xFFFF_FFFF

  class L2tvppMain {
    var tunnels: map<nat, Tunnel>
    var sessions: map<nat, Session>
    var byKey: map<SessionId, nat>
    var bySwIf: map<nat, nat>
    var localIps: seq<Ip4>
    var fib: set<Route>
    var cache: map<Ip4, Adjacency>
    var cacheCount: nat
    var locks: multiset<Adjacency>

    function State(): Plugin
      reads this
    {
      Plugin(tunnels, sessions, byKey, bySwIf, localIps, fib, cache, cacheCount, locks)
    }

    constructor ()
      ensures State() == EMPTY
    {
      tunnels, sessions, byKey, bySwIf, localIps := map[], map[], map[], map[], [];
      fib, cache, cacheCount, locks := {}, map[], 0, multiset{};
    }

    /** A pool or interface number that is not in use; which one is not specified. */
    static method Allocate(used: set<nat>) returns (i: nat)
      ensures i !in used
    {
      i := 0;
      var rest := used;
      while rest != {}
        invariant rest <= used
        invariant forall x :: x in used && x !in rest ==> x < i
        decreases rest
      {
        var x :| x in rest;
        if x >= i { i := x + 1; }
        rest := rest - {x};
      }
    }

    /** l2tvpp_tunnel_find: walk the pool until a tunnel has the key. */
    method TunnelFind(k: TunnelKey) returns (found: Option<nat>)
      ensures found.Some? ==> IsTunnel(State(), k, found.value)
      ensures found.None? ==> !HasTunnel(State(), k)
    {
      var rest := tunnels.Keys;
      while rest != {}
        invariant rest <= tunnels.Keys
        invariant forall i :: i in tunnels && i !in rest ==> KeyOf(tunnels[i]) != k
        decreases rest
      {
        var i :| i in rest;
        if KeyOf(tunnels[i]) == k { return Some(i); }
        rest := rest - {i};
      }
      return None;
    }

    method TunnelAddDel(isAdd: bool, local: Address, peer: Address, localPort: u16, peerPort: u16,
                        localTid: u16, peerTid: u16)
      returns (rc: Rc, idx: nat)
      requires IndexesOk(State())
      modifies this
      ensures var op := if isAdd then TunnelAdd(local, peer, localPort, peerPort, localTid, peerTid, idx)
                        else TunnelDel(local, peer, peerPort, localTid);
        && rc == Reply(old(State()), op) && (rc == Ok ==> Fresh(old(State()), op))
        && State() == Apply(old(State()), op)
      ensures IndexesOk(State()) && (old(TablesOk(State())) ==> TablesOk(State()))
    {
      hide KeyIndexOk, SwIfIndexOk, LocalIpsOk, Anchored, CountsOk;
      idx := NO_INDEX;
      if !local.V4? || !peer.V4? { return Unimplemented, idx; }
      var k := TunnelKey(peer.ip4, peerPort, localTid);
      var found := TunnelFind(k);
      if isAdd {
        if found.Some? { return TunnelExist, idx; }
        idx := Allocate(tunnels.Keys);
        ghost var t := Tunnel(local.ip4, peer.ip4, localPort, peerPort, localTid, peerTid, 0);
        AddTunnelKeepsIndexes(State(), idx, t);
        if TablesOk(State()) { AddTunnelKeeps(State(), idx, t); }
        tunnels := tunnels[idx := Tunnel(local.ip4, peer.ip4, localPort, peerPort, localTid, peerTid, 0)];
        if local.ip4 !in localIps { localIps := localIps + [local.ip4]; }
        assert State() == AddTunnel(old(State()), idx, t);
        return Ok, idx;
      }
      if found.None? { return NoSuchEntry, idx; }
      assert found.value == FindTunnel(State(), k);
      if tunnels[found.value].nSessions != 0 { return InstanceInUse, idx; }
      DelTunnelKeepsIndexes(State(), found.value);
      if TablesOk(State()) { DelTunnelKeeps(State(), found.value); }
      tunnels := tunnels - {found.value};
      return Ok, idx;
    }

    method SessionAddDel(isAdd: bool, tidx: nat, localSid: u16, peerSid: u16, acfc: bool, pfc: bool)
      returns (rc: Rc, swIf: nat, ghost idx: nat)
      requires IndexesOk(State())
      modifies this
      ensures var op := if isAdd then SessionAdd(tidx, localSid, peerSid, acfc, pfc, idx, swIf)
                        else SessionDel(tidx, localSid);
        && rc == Reply(old(State()), op) && (rc == Ok ==> Fresh(old(State()), op))
        && State() == Apply(old(State()), op)
        && (old(TablesOk(State())) ==> (TablesOk(State()) <==> NamesOwnTunnel(old(State()), op)))
      ensures IndexesOk(State())
    {
      hide TunnelKeysUnique, SwIfIndexOk, LocalIpsOk, Anchored, CountsOk;
      swIf, idx := NO_INDEX, 0;
      if tidx !in tunnels { return NoSuchEntry, swIf, idx; }
      var id := SessionId(tunnels[tidx].localTid, localSid);
      if isAdd {
        if id in byKey { return AlreadyExists, swIf, idx; }
        var i := Allocate(sessions.Keys);
        idx := i;
        swIf := Allocate(bySwIf.Keys);
        ghost var op := SessionAdd(tidx, localSid, peerSid, acfc, pfc, idx, swIf);
        OperationKeepsIndexes(State(), op);
        if TablesOk(State()) { SessionAddKeeps(State(), op); }
        InsertSession(i, Session(tidx, tunnels[tidx].localTid, localSid, peerSid, acfc, pfc, swIf));
        return Ok, swIf, idx;
      }
      if id !in byKey { return NoSuchEntry, swIf, idx; }
      OperationKeepsIndexes(State(), SessionDel(tidx, localSid));
      if TablesOk(State()) { SessionDelKeepsIff(State(), SessionDel(tidx, localSid)); }
      RemoveSession(byKey[id], tidx);
      return Ok, swIf, idx;
    }

    method InsertSession(i: nat, s: Session)
      requires s.tunnelIndex in tunnels
      modifies this
      ensures State() == AddSession(old(State()), i, s)
    {
      sessions := sessions[i := s];
      bySwIf := bySwIf[s.swIf := i];
      byKey := byKey[IdOf(s) := i];
      var t := tunnels[s.tunnelIndex];
      tunnels := tunnels[s.tunnelIndex := t.(nSessions := (t.nSessions + 1) % 0x1_0000_0000)];
    }

    method RemoveSession(i: nat, tidx: nat)
      requires i in sessions && tidx in tunnels
      modifies this
      ensures State() == DelSession(old(State()), i, tidx)
    {
      byKey := byKey - {IdOf(sessions[i])};
      bySwIf := bySwIf - {sessions[i].swIf};
      var t := tunnels[tidx];
      tunnels := tunnels[tidx := t.(nSessions := (t.nSessions + 0xFFFF_FFFF) % 0x1_0000_0000)];
      sessions := sessions - {i};
    }

    method RouteAddDel(isAdd: bool, r: Route) returns (rc: Rc)
      modifies this
      ensures var op := if isAdd then RouteAdd(r) else RouteDel(r);
        rc == Reply(old(State()), op) && State() == Apply(old(State()), op)
      ensures old(IndexesOk(State())) ==> IndexesOk(State())
      ensures old(TablesOk(State())) ==> TablesOk(State())
    {
      hide TunnelKeysUnique, KeyIndexOk, SwIfIndexOk, LocalIpsOk, Anchored, CountsOk;
      ghost var op := if isAdd then RouteAdd(r) else RouteDel(r);
      if IndexesOk(State()) { OperationKeepsIndexes(State(), op); }
      if TablesOk(State()) { RouteOperationKeeps(State(), op); }
      if r.swIf !in bySwIf { return InvalidSwIf; }
      SetRoute(isAdd, r);
      return Ok;
    }

    method SetRoute(isAdd: bool, r: Route)
      modifies this
      ensures State() == if isAdd then AddRoute(old(State()), r) else DelRoute(old(State()), r)
    {
      fib := if isAdd then fib + {r} else fib - {r};
      EncapAdjAddDel(isAdd, r);
    }

    /** l2tvpp_encap_adj_add_del: IPv4 host routes only; an add overwrites, a delete removes
        whatever is cached for the address. */
    method EncapAdjAddDel(isAdd: bool, r: Route)
      modifies this`cache, this`cacheCount, this`locks
      ensures var q := if isAdd then AddRoute(old(State()), r) else DelRoute(old(State()), r);
        cache == q.cache && cacheCount == q.cacheCount && locks == q.locks
    {
      if !Cacheable(r.pfx) { return; }
      var d := r.pfx.ip4;
      if isAdd {
        var adj := Adjacency(d, r.swIf);
        locks := locks + multiset{adj};
        cache := cache[d := adj];
        cacheCount := cacheCount + 1;
      } else if d in cache {
        var adj := cache[d];
        cache := cache - {d};
        locks := locks - multiset{adj};
        if cacheCount != 0 { cacheCount := cacheCount - 1; }
      }
    }
  }
}
