/** The encap shortcut (encap_fastpath.c): its adjacency cache against the FIB it shortcuts,
    the accounting of adjacency locks, and the per-packet decision. */
module EncapCache {
  import opened Bytes
  import opened Tables
  import opened Input
  import opened Classify

  // ----- soundness ------------------------------------------------------------

  /** Every path of the plugin's source leads to a live session interface. */
  predicate RoutesLive(p: Plugin)
  {
    forall r :: r in p.fib ==> r.swIf in p.bySwIf
  }

  /** A cached adjacency is for its own address and is a current path for its host route. */
  predicate CacheSound(p: Plugin)
  {
    forall d :: d in p.cache ==> p.cache[d].dst == d && Route(Prefix4(d, 32), p.cache[d].swIf) in p.fib
  }

  /** A session is deleted only when none of its routes is left. */
  ghost predicate RoutesGoFirst(p: Plugin, op: Op)
  {
    Target(p, op).Some? ==> forall r :: r in p.fib ==> r.swIf != p.sessions[Target(p, op).value].swIf
  }

  /** No operation whatsoever makes the cache name a path that the FIB does not have. */
  lemma OperationKeepsCacheSound(p: Plugin, op: Op)
    requires CacheSound(p)
    ensures CacheSound(Apply(p, op))
  {
    if Reply(p, op) == Ok {
      if op.RouteAdd? { AddRouteSound(p, op.r); }
      if op.RouteDel? { DelRouteSound(p, op.r); }
    }
  }

  lemma AddRouteSound(p: Plugin, r: Route)
    requires CacheSound(p)
    ensures CacheSound(AddRoute(p, r))
  {}

  lemma DelRouteSound(p: Plugin, r: Route)
    requires CacheSound(p)
    ensures CacheSound(DelRoute(p, r))
  {}

  /** Routes stay on live interfaces exactly when session deletes wait for their routes. */
  lemma OperationKeepsRoutesLive(p: Plugin, op: Op)
    requires KeyIndexOk(p) && SwIfIndexOk(p) && RoutesLive(p)
    ensures RoutesLive(Apply(p, op)) <==> RoutesGoFirst(p, op)
  {
    hide KeyIndexOk, SwIfIndexOk;
    if Target(p, op).Some? {
      SessionDelOnRoutes(p, op);
    } else {
      OtherOperationOnRoutes(p, op);
    }
  }

  lemma SessionDelOnRoutes(p: Plugin, op: Op)
    requires SwIfIndexOk(p) && RoutesLive(p) && Target(p, op).Some?
    ensures RoutesLive(Apply(p, op)) <==> RoutesGoFirst(p, op)
  {
    var w, q := p.sessions[Target(p, op).value].swIf, Apply(p, op);
    assert q.bySwIf == p.bySwIf - {w} && q.fib == p.fib;
  }

  lemma OtherOperationOnRoutes(p: Plugin, op: Op)
    requires RoutesLive(p) && Target(p, op).None?
    ensures RoutesLive(Apply(p, op))
  {}

  /** The live session behind a cached adjacency. */
  predicate NamesLivePath(p: Plugin, d: Ip4)
    requires d in p.cache
  {
    && Route(Prefix4(d, 32), p.cache[d].swIf) in p.fib
    && p.cache[d].swIf in p.bySwIf
    && p.bySwIf[p.cache[d].swIf] in p.sessions
    && p.sessions[p.bySwIf[p.cache[d].swIf]].swIf == p.cache[d].swIf
  }

  /** In every run at all, cached adjacencies are current paths of the FIB. */
  lemma {:induction false} RunKeepsCacheSound(states: seq<Plugin>, ops: seq<Op>, n: nat)
    requires IsRun(states, ops) && states[0] == EMPTY && n <= |ops|
    ensures CacheSound(states[n])
  {
    if n != 0 {
      hide CacheSound, Apply, Fresh;
      RunKeepsCacheSound(states, ops, n - 1);
      OperationKeepsCacheSound(states[n - 1], ops[n - 1]);
    } else {
      assert CacheSound(EMPTY);
    }
  }

  /** If moreover sessions are deleted after their routes, paths lead to live sessions. */
  lemma {:induction false} RunKeepsRoutesLive(states: seq<Plugin>, ops: seq<Op>, n: nat)
    requires IsRun(states, ops) && states[0] == EMPTY && n <= |ops|
    requires forall i :: 0 <= i < n ==> RoutesGoFirst(states[i], ops[i])
    ensures RoutesLive(states[n])
  {
    if n != 0 {
      hide RoutesLive, RoutesGoFirst, Apply, Fresh, TunnelKeysUnique, KeyIndexOk, SwIfIndexOk, LocalIpsOk;
      RunKeepsRoutesLive(states, ops, n - 1);
      RunKeepsIndexes(states, ops, n - 1);
      OperationKeepsRoutesLive(states[n - 1], ops[n - 1]);
    } else {
      assert RoutesLive(EMPTY);
    }
  }

  /** In every run of adds and deletes, in any order and with repeats, where sessions are
      deleted after their routes, a cache hit names a current path to a live session. */
  lemma CacheHitsAreFibPaths(states: seq<Plugin>, ops: seq<Op>, n: nat, d: Ip4)
    requires IsRun(states, ops) && states[0] == EMPTY && n <= |ops|
    requires forall i :: 0 <= i < n ==> RoutesGoFirst(states[i], ops[i])
    requires d in states[n].cache
    ensures NamesLivePath(states[n], d)
  {
    hide TunnelKeysUnique, KeyIndexOk, LocalIpsOk;
    RunKeepsIndexes(states, ops, n);
    RunKeepsCacheSound(states, ops, n);
    RunKeepsRoutesLive(states, ops, n);
  }

  // ----- lock accounting ------------------------------------------------------

  predicate LocksOk(p: Plugin)
  {
    && p.cacheCount == |p.locks|
    && forall d :: d in p.cache ==> p.cache[d].dst == d && p.cache[d] in p.locks
  }

  /** A host route is added while its address is already cached: the old entry is
      overwritten and its lock is not given back. */
  ghost predicate Readds(p: Plugin, op: Op)
  {
    op.RouteAdd? && Reply(p, op) == Ok && Cacheable(op.r.pfx) && op.r.pfx.ip4 in p.cache
  }

  ghost function Leaks(states: seq<Plugin>, ops: seq<Op>, n: nat): nat
    requires n <= |ops| && |states| == |ops| + 1
  {
    if n == 0 then 0 else Leaks(states, ops, n - 1) + if Readds(states[n - 1], ops[n - 1]) then 1 else 0
  }

  lemma AddRouteLocks(p: Plugin, r: Route)
    requires LocksOk(p)
    ensures LocksOk(AddRoute(p, r))
  {}

  lemma AddRouteSurplus(p: Plugin, r: Route)
    ensures var q := AddRoute(p, r);
      q.cacheCount - |q.cache| == p.cacheCount - |p.cache|
                                  + if Cacheable(r.pfx) && r.pfx.ip4 in p.cache then 1 else 0
  {
    if Cacheable(r.pfx) {
      MapSize(p.cache, r.pfx.ip4, Adjacency(r.pfx.ip4, r.swIf));
    }
  }

  lemma MapSize(m: map<Ip4, Adjacency>, d: Ip4, a: Adjacency)
    ensures |m[d := a]| == |m| + if d in m then 0 else 1
  {
    assert m[d := a].Keys == m.Keys + {d};
  }

  lemma DelRouteLocks(p: Plugin, r: Route)
    requires LocksOk(p) && |p.cache| <= p.cacheCount
    ensures LocksOk(DelRoute(p, r))
    ensures var q := DelRoute(p, r); q.cacheCount - |q.cache| == p.cacheCount - |p.cache|
  {
    if Cacheable(r.pfx) && r.pfx.ip4 in p.cache {
      var q := DelRoute(p, r);
      assert q.cache.Keys == p.cache.Keys - {r.pfx.ip4};
      forall d | d in q.cache ensures q.cache[d] in q.locks {
        assert q.cache[d] != p.cache[r.pfx.ip4];
      }
    }
  }

  /** Everything that holds of the cache in every run: it is sound and locked, and no lock is
      missing. */
  predicate CacheOk(p: Plugin)
  {
    CacheSound(p) && LocksOk(p) && |p.cache| <= p.cacheCount
  }

  lemma CacheOkFrame(p: Plugin, q: Plugin)
    requires CacheOk(p) && q.fib == p.fib
    requires q.cache == p.cache && q.cacheCount == p.cacheCount && q.locks == p.locks
    ensures CacheOk(q)
  {}

  lemma AddRouteOk(p: Plugin, r: Route)
    requires CacheOk(p)
    ensures CacheOk(AddRoute(p, r))
  {
    hide AddRoute, CacheSound, LocksOk;
    AddRouteSound(p, r);
    AddRouteLocks(p, r);
    AddRouteSurplus(p, r);
  }

  lemma DelRouteOk(p: Plugin, r: Route)
    requires CacheOk(p)
    ensures CacheOk(DelRoute(p, r))
  {
    hide DelRoute, CacheSound, LocksOk;
    DelRouteSound(p, r);
    DelRouteLocks(p, r);
  }

  /** One operation: accounting is kept, and only a re-add widens the gap between the
      counter and the cache. */
  lemma OperationKeepsLocks(p: Plugin, op: Op)
    requires LocksOk(p) && |p.cache| <= p.cacheCount
    ensures var q := Apply(p, op);
      && LocksOk(q)
      && q.cacheCount - |q.cache| == p.cacheCount - |p.cache| + if Readds(p, op) then 1 else 0
  {
    hide LocksOk, AddRoute, DelRoute;
    if Reply(p, op) == Ok && op.RouteAdd? {
      AddRouteLocks(p, op.r);
      AddRouteSurplus(p, op.r);
    } else if Reply(p, op) == Ok && op.RouteDel? {
      DelRouteLocks(p, op.r);
    } else {
      OtherOperationsSpareCache(p, op);
      LocksFrame(p, Apply(p, op));
    }
  }

  lemma LocksFrame(p: Plugin, q: Plugin)
    requires LocksOk(p) && q.cache == p.cache && q.cacheCount == p.cacheCount && q.locks == p.locks
    ensures LocksOk(q)
  {}

  /** In all runs: the counter equals the locks held, every cached adjacency is locked, and
      the surplus of locks over cache entries is the number of re-adds of cached addresses. */
  lemma {:induction false} LockAccounting(states: seq<Plugin>, ops: seq<Op>, n: nat)
    requires IsRun(states, ops) && states[0] == EMPTY && n <= |ops|
    ensures LocksOk(states[n])
    ensures states[n].cacheCount == |states[n].cache| + Leaks(states, ops, n)
  {
    if n != 0 {
      hide LocksOk, Apply, Fresh, Readds;
      LockAccounting(states, ops, n - 1);
      OperationKeepsLocks(states[n - 1], ops[n - 1]);
    }
  }

  lemma OtherOperationsSpareCache(p: Plugin, op: Op)
    requires (Reply(p, op) != Ok || (!op.RouteAdd? && !op.RouteDel?))
    ensures var q := Apply(p, op); q == q.(cache := p.cache, cacheCount := p.cacheCount, locks := p.locks)
  {}

  /** Locks, counter and cache size agree exactly in the runs that never re-add a cached
      address; then an empty cache holds no lock. */
  lemma LocksAgreeIff(states: seq<Plugin>, ops: seq<Op>, n: nat)
    requires IsRun(states, ops) && states[0] == EMPTY && n <= |ops|
    ensures |states[n].locks| == states[n].cacheCount == |states[n].cache|
            <==> forall i :: 0 <= i < n ==> !Readds(states[i], ops[i])
  {
    LockAccounting(states, ops, n);
    NoLeaksIff(states, ops, n);
  }

  lemma {:induction false} NoLeaksIff(states: seq<Plugin>, ops: seq<Op>, n: nat)
    requires n <= |ops| && |states| == |ops| + 1
    ensures Leaks(states, ops, n) == 0 <==> forall i :: 0 <= i < n ==> !Readds(states[i], ops[i])
  {
    if n != 0 { NoLeaksIff(states, ops, n - 1); }
  }

  /** The unlock of a delete always has a lock to give back, and the counter it lowers is
      never already zero. */
  lemma UnlockNeverUnderflows(states: seq<Plugin>, ops: seq<Op>, n: nat)
    requires IsRun(states, ops) && states[0] == EMPTY && n < |ops|
    requires ops[n].RouteDel? && Reply(states[n], ops[n]) == Ok
    requires Cacheable(ops[n].r.pfx) && ops[n].r.pfx.ip4 in states[n].cache
    ensures states[n].cache[ops[n].r.pfx.ip4] in states[n].locks && states[n].cacheCount > 0
  {
    LockAccounting(states, ops, n);
  }

  // ----- what exactly is cached -----------------------------------------------

  /** The last successful route operation on host address `d` decides: the interface of an
      add, nothing after a delete, whichever interface that delete named. */
  ghost function LastWord(states: seq<Plugin>, ops: seq<Op>, n: nat, d: Ip4): Option<nat>
    requires n <= |ops| && |states| == |ops| + 1
  {
    if n == 0 then None
    else
      var p, op := states[n - 1], ops[n - 1];
      if Reply(p, op) == Ok && (op.RouteAdd? || op.RouteDel?) && op.r.pfx == Prefix4(d, 32)
      then if op.RouteAdd? then Some(op.r.swIf) else None
      else LastWord(states, ops, n - 1, d)
  }

  function CachedFor(p: Plugin, d: Ip4): Option<nat> { if d in p.cache then Some(p.cache[d].swIf) else None }

  lemma OperationHasLastWord(p: Plugin, op: Op, d: Ip4)
    ensures CachedFor(Apply(p, op), d)
            == if Reply(p, op) == Ok && (op.RouteAdd? || op.RouteDel?) && op.r.pfx == Prefix4(d, 32)
               then if op.RouteAdd? then Some(op.r.swIf) else None
               else CachedFor(p, d)
  {
    if Reply(p, op) != Ok || (!op.RouteAdd? && !op.RouteDel?) {
      OtherOperationsSpareCache(p, op);
    }
  }

  /** The cache holds exactly the last word on each address. */
  lemma {:induction false} CacheIsLastWord(states: seq<Plugin>, ops: seq<Op>, n: nat, d: Ip4)
    requires IsRun(states, ops) && states[0] == EMPTY && n <= |ops|
    ensures CachedFor(states[n], d) == LastWord(states, ops, n, d)
  {
    if n != 0 {
      hide Apply, Fresh, Reply, CachedFor;
      CacheIsLastWord(states, ops, n - 1, d);
      OperationHasLastWord(states[n - 1], ops[n - 1], d);
    }
  }

  /** Moving a cached host route between interfaces. Either order of the two calls ends with
      the same routes; but only if the delete comes first does the address stay cached, with
      no lock lost. If the add comes first, the delete removes the new entry, and a lock on
      the old adjacency is never given back. */
  lemma MoveOrderDecides(p: Plugin, d: Ip4, from: nat, to: nat)
    requires LocksOk(p) && from != to && d in p.cache && p.cache[d].swIf == from
    ensures var a, b := Route(Prefix4(d, 32), from), Route(Prefix4(d, 32), to);
      var delFirst, addFirst := AddRoute(DelRoute(p, a), b), DelRoute(AddRoute(p, b), a);
      && delFirst.fib == addFirst.fib == p.fib - {a} + {b}
      && CachedFor(delFirst, d) == Some(to) && |delFirst.cache| == |p.cache| && |delFirst.locks| == |p.locks|
      && CachedFor(addFirst, d) == None && |addFirst.cache| == |p.cache| - 1 && |addFirst.locks| == |p.locks|
      && Adjacency(d, from) in addFirst.locks
  {
    hide AddRoute, DelRoute, CachedFor;
    DeleteFirst(p, d, from, to);
    AddFirst(p, d, from, to);
  }

  lemma DeleteFirst(p: Plugin, d: Ip4, from: nat, to: nat)
    requires LocksOk(p) && from != to && d in p.cache && p.cache[d].swIf == from
    ensures var a, b := Route(Prefix4(d, 32), from), Route(Prefix4(d, 32), to); var q := AddRoute(DelRoute(p, a), b);
      && q.fib == p.fib - {a} + {b}
      && CachedFor(q, d) == Some(to) && |q.cache| == |p.cache| && |q.locks| == |p.locks|
  {
    var m := DelRoute(p, Route(Prefix4(d, 32), from));
    assert AddRoute(m, Route(Prefix4(d, 32), to)).cache.Keys == p.cache.Keys;
  }

  lemma AddFirst(p: Plugin, d: Ip4, from: nat, to: nat)
    requires LocksOk(p) && from != to && d in p.cache && p.cache[d].swIf == from
    ensures var a, b := Route(Prefix4(d, 32), from), Route(Prefix4(d, 32), to); var q := DelRoute(AddRoute(p, b), a);
      && q.fib == p.fib - {a} + {b}
      && CachedFor(q, d) == None && |q.cache| == |p.cache| - 1
      && |q.locks| == |p.locks| && Adjacency(d, from) in q.locks
  {
    var m := AddRoute(p, Route(Prefix4(d, 32), to));
    var q := DelRoute(m, Route(Prefix4(d, 32), from));
    assert q.cache.Keys == p.cache.Keys - {d};
    assert q.locks == p.locks;
  }

  /** A leak is reachable: a host route added twice holds two locks for one cache entry, and
      deleting it gives back only one. */
  lemma LeakHappens() returns (states: seq<Plugin>, ops: seq<Op>)
    ensures IsRun(states, ops) && states[0] == EMPTY && |ops| == 6
    ensures forall i :: 0 <= i < 6 ==> Reply(states[i], ops[i]) == Ok
    ensures Readds(states[4], ops[4]) && |states[5].locks| == 2 && |states[5].cache| == 1
    ensures |states[6].locks| == 1 && states[6].cache == map[] && states[6].cacheCount == 1
  {
    hide Fresh, Reply, Apply, Readds;
    var one := FirstTunnel();
    var p := SessionOnFirst();
    var r := Route(Prefix4([198, 51, 100, 7], 32), 9);
    var q, q2, q3 := RouteTwice(p, r);
    states := [EMPTY, one, TWO_TUNNELS, p, q, q2, q3];
    ops := [Dial(LAC_A, 1, 0), Dial(LAC_B, 1, 1), SessionAdd(0, 5, 6, false, false, 0, 9),
            RouteAdd(r), RouteAdd(r), RouteDel(r)];
  }

  lemma RouteTwice(p: Plugin, r: Route) returns (q: Plugin, q2: Plugin, q3: Plugin)
    requires r.swIf in p.bySwIf && Cacheable(r.pfx) && p.cache == map[] && p.locks == multiset{} && p.cacheCount == 0
    ensures Succeeds(p, RouteAdd(r), q) && Succeeds(q, RouteAdd(r), q2) && Readds(q, RouteAdd(r))
    ensures Succeeds(q2, RouteDel(r), q3)
    ensures |q2.locks| == 2 && |q2.cache| == 1 && |q3.locks| == 1 && q3.cache == map[] && q3.cacheCount == 1
  {
    q := AddRoute(p, r);
    q2 := AddRoute(q, r);
    q3 := DelRoute(q2, r);
  }

  // ----- the per-packet decision ----------------------------------------------

  /** l2tvpp_encap_peek_dst: destination of an untagged, unfragmented, option-free IPv4
      packet, and the Ethernet length to strip. */
  function PeekDst(f: seq<byte>): Option<Ip4>
  {
    if |f| < 14 then None
    else if ReadU16(f, 12) == ETHERTYPE_VLAN || ReadU16(f, 12) != ETHERTYPE_IP4 then None
    else if |f| < 34 || f[14] != 0x45 then None
    else if FragmentOffset(f, 14) != 0 || MoreFragments(f, 14) then None
    else Some(ReadIp4(f, 30))
  }

  datatype EncapNext = Ip4Midchain(adj: Adjacency) | EthernetInputNext

  /** One packet through the shortcut. */
  function Shortcut(b: Buffer, cache: map<Ip4, Adjacency>): (EncapNext, Buffer)
  {
    match PeekDst(Current(b))
    case None => (EthernetInputNext, b)
    case Some(d) =>
      if d in cache then (Ip4Midchain(cache[d]), Advance(b, 14)) else (EthernetInputNext, b)
  }

  /** The node's loop: buffers are advanced in place on a hit and untouched otherwise. */
  method ShortcutNode(frame: array<Buffer>, cache: map<Ip4, Adjacency>) returns (nexts: seq<EncapNext>)
    modifies frame
    ensures |nexts| == frame.Length
    ensures forall i :: 0 <= i < frame.Length ==> (nexts[i], frame[i]) == Shortcut(old(frame[i]), cache)
  {
    nexts := [];
    for i := 0 to frame.Length
      invariant |nexts| == i
      invariant forall j :: 0 <= j < i ==> (nexts[j], frame[j]) == Shortcut(old(frame[j]), cache)
      invariant forall j :: i <= j < frame.Length ==> frame[j] == old(frame[j])
    {
      var next := EthernetInputNext;
      var dst := PeekDst(Current(frame[i]));
      if dst.Some? && dst.value in cache {
        next := Ip4Midchain(cache[dst.value]);
        frame[i] := Advance(frame[i], 14);
      }
      nexts := nexts + [next];
    }
  }

  /** The interfaces the FIB's plugin source offers for a host. */
  function FibChoices(p: Plugin, d: Ip4): set<nat>
  {
    set r | r in p.fib && r.pfx == Prefix4(d, 32) :: r.swIf
  }

  /** An untagged frame with a plain IPv4 packet: no options, and neither the more-fragments
      bit nor an offset in octets 6 and 7 of the header. */
  predicate PlainIp4(f: seq<byte>)
  {
    |f| >= 34 && f[12] == 0x08 && f[13] == 0x00 && f[14] == 0x45 && f[20] % 64 == 0 && f[21] == 0
  }

  /** What takes the shortcut: exactly the plain IPv4 packets to a cached destination, with the
      Ethernet header stripped and that entry; all else goes to ethernet-input as it came. */
  lemma ShortcutIff(b: Buffer, cache: map<Ip4, Adjacency>)
    ensures var f := Current(b);
      Shortcut(b, cache) == if PlainIp4(f) && f[30..34] in cache
                            then (Ip4Midchain(cache[f[30..34]]), b.(pos := b.pos + 14, len := b.len - 14))
                            else (EthernetInputNext, b)
  {
    var f := Current(b);
    if |f| >= 34 { PlainBits(f); }
  }

  lemma PlainBits(f: seq<byte>)
    requires |f| >= 34
    ensures ReadU16(f, 12) == ETHERTYPE_IP4 <==> f[12] == 0x08 && f[13] == 0x00
    ensures FragmentOffset(f, 14) == 0 && !MoreFragments(f, 14) <==> f[20] % 64 == 0 && f[21] == 0
  {}

  /** A hit hands over exactly the IP packet, with the entry cached for its destination. */
  lemma ShortcutHit(b: Buffer, cache: map<Ip4, Adjacency>)
    ensures var (next, c) := Shortcut(b, cache);
      && (next == EthernetInputNext ==> c == b)
      && (next != EthernetInputNext ==>
            && b.len >= 34 && Current(c) == Current(b)[14..]
            && Current(c)[16..20] in cache && next.adj == cache[Current(c)[16..20]])
  {
    var (next, c) := Shortcut(b, cache);
    if next != EthernetInputNext {
      CurrentAfterAdvance(b, 14);
      assert Current(b)[14..][16..20] == Current(b)[30..34];
    }
  }

  lemma LivePathIsChoice(p: Plugin, d: Ip4)
    requires d in p.cache && NamesLivePath(p, d)
    ensures p.cache[d].swIf in FibChoices(p, d)
  {
    assert Route(Prefix4(d, 32), p.cache[d].swIf) in p.fib;
  }

  /** In every run where sessions are deleted after their routes, the shortcut picks only an
      interface that the FIB offers for the packet's destination, on a live session, and
      hands over exactly the IP packet; whatever it does not take goes to ethernet-input
      untouched. */
  lemma ShortcutAgreesWithFib(states: seq<Plugin>, ops: seq<Op>, n: nat, b: Buffer)
    requires IsRun(states, ops) && states[0] == EMPTY && n <= |ops|
    requires forall i :: 0 <= i < n ==> RoutesGoFirst(states[i], ops[i])
    ensures var p := states[n]; var (next, c) := Shortcut(b, p.cache);
      && (next == EthernetInputNext ==> c == b)
      && (next != EthernetInputNext ==>
            && b.len >= 34 && Current(c) == Current(b)[14..]
            && var d := Current(c)[16..20];
            && d in p.cache && NamesLivePath(p, d) && next.adj == p.cache[d]
            && next.adj.swIf in FibChoices(p, d))
  {
    var p := states[n];
    var (next, c) := Shortcut(b, p.cache);
    ShortcutHit(b, p.cache);
    if next != EthernetInputNext {
      var d := Current(c)[16..20];
      CacheHitsAreFibPaths(states, ops, n, d);
      LivePathIsChoice(p, d);
    }
  }
}
