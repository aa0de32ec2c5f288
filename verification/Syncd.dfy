/** The reconciling daemon (l2tvppd.py), driving the plugin's own operations. */
module Sync {
  import opened Bytes
  import opened Header
  import opened Objects
  import opened Tables
  import opened EncapCache
  import opened DataPlane
  import opened Mirror
  import opened Shortcuts

  lemma TunnelDictionary(p: Plugin, k: TunnelKey)
    requires TunnelKeysUnique(p)
    ensures k in VppTunnels(p) <==> HasTunnel(p, k)
    ensures k in VppTunnels(p) ==> IsTunnel(p, k, VppTunnels(p)[k])
  {
    var d := VppTunnels(p);
    if k in d {
      assert IsTunnel(p, k, d[k]);
    }
    if HasTunnel(p, k) {
      var i := FindTunnel(p, k);
      assert KeyOf(p.tunnels[i]) in d;
    }
  }

  lemma EndsKeys(p: Plugin)
    requires TunnelKeysUnique(p)
    ensures Ends(p).Keys == VppTunnels(p).Keys
  {
    hide TunnelKeysUnique, VppTunnels;
  }

  lemma DictionaryEntry(p: Plugin, k: TunnelKey, i: nat)
    requires TunnelKeysUnique(p) && IsTunnel(p, k, i)
    ensures k in VppTunnels(p) && VppTunnels(p)[k] == i
  {
    TunnelDictionary(p, k);
  }

  lemma DictionaryAfterAddAt(p: Plugin, i: nat, t: Tunnel, k: TunnelKey)
    requires TunnelKeysUnique(p) && TunnelKeysUnique(AddTunnel(p, i, t)) && i !in p.tunnels
    ensures var d := VppTunnels(p)[KeyOf(t) := i]; var e := VppTunnels(AddTunnel(p, i, t));
      (k in d <==> k in e) && (k in e ==> d[k] == e[k])
  {
    var q := AddTunnel(p, i, t);
    TunnelDictionary(p, k);
    TunnelDictionary(q, k);
    if k == KeyOf(t) {
      DictionaryEntry(q, k, i);
    } else if k in VppTunnels(p) {
      DictionaryEntry(q, k, VppTunnels(p)[k]);
    }
  }

  lemma DictionaryAfterAdd(p: Plugin, i: nat, t: Tunnel)
    requires TunnelKeysUnique(p) && TunnelKeysUnique(AddTunnel(p, i, t)) && i !in p.tunnels
    ensures VppTunnels(AddTunnel(p, i, t)) == VppTunnels(p)[KeyOf(t) := i]
  {
    var d, e := VppTunnels(p)[KeyOf(t) := i], VppTunnels(AddTunnel(p, i, t));
    forall k ensures (k in d <==> k in e) && (k in e ==> d[k] == e[k]) {
      DictionaryAfterAddAt(p, i, t, k);
    }
  }

  lemma DictionaryAfterSession(p: Plugin, idx: nat, s: Session)
    requires TunnelKeysUnique(p) && s.tunnelIndex in p.tunnels
    ensures TunnelKeysUnique(AddSession(p, idx, s))
    ensures VppTunnels(AddSession(p, idx, s)) == VppTunnels(p) && Ends(AddSession(p, idx, s)) == Ends(p)
  {
    DictionaryFrame(p, AddSession(p, idx, s));
  }

  /** Tunnels that did not change, but for their counts, make the same dictionary. */
  lemma DictionaryFrame(p: Plugin, q: Plugin)
    requires TunnelKeysUnique(p) && TunnelKeysUnique(q) && q.tunnels.Keys == p.tunnels.Keys
    requires forall t :: t in p.tunnels ==> q.tunnels[t].(nSessions := p.tunnels[t].nSessions) == p.tunnels[t]
    ensures VppTunnels(q) == VppTunnels(p) && Ends(q) == Ends(p)
  {
    hide TunnelKeysUnique, VppTunnels, Ends;
    forall k | k in VppTunnels(p) ensures k in VppTunnels(q) && VppTunnels(q)[k] == VppTunnels(p)[k] {
      EndOf(q, k, VppTunnels(p)[k]);
    }
    forall k | k in VppTunnels(q) ensures k in VppTunnels(p) {
      EndOf(p, k, VppTunnels(q)[k]);
    }
    assert VppTunnels(q) == VppTunnels(p);
    forall k | k in VppTunnels(p) ensures k in Ends(p) && k in Ends(q) && Ends(q)[k] == Ends(p)[k] {
      EndOf(q, k, VppTunnels(p)[k]);
      EndOf(p, k, VppTunnels(p)[k]);
    }
    EndsKeys(p);
    EndsKeys(q);
    assert Ends(q) == Ends(p);
  }

  lemma EndsAfterAdd(p: Plugin, i: nat, t: Tunnel)
    requires TunnelKeysUnique(p) && TunnelKeysUnique(AddTunnel(p, i, t)) && i !in p.tunnels
    ensures Ends(AddTunnel(p, i, t)) == Ends(p)[KeyOf(t) := EndpointOf(t)]
  {
    hide TunnelKeysUnique, VppTunnels;
    var q := AddTunnel(p, i, t);
    DictionaryAfterAdd(p, i, t);
    assert Ends(q).Keys == Ends(p).Keys + {KeyOf(t)};
  }

  lemma NoIdleAfterAdd(p: Plugin, idx: nat, s: Session)
    requires KeyIndexOk(p) && Anchored(p) && CountsOk(p) && s.tunnelIndex in p.tunnels
    requires IdleOnly(p, s.tunnelIndex)
    ensures NoIdleTunnel(AddSession(p, idx, s))
  {
    SessionsBounded(p, s.tunnelIndex);
  }

  /** What stays true when a session is added to a tunnel. */
  lemma SessionCreated(p: Plugin, idx: nat, s: Session)
    requires TablesOk(p) && CacheOk(p) && s.tunnelIndex in p.tunnels
    requires IdleOnly(p, s.tunnelIndex)
    ensures var q := AddSession(p, idx, s);
      && CacheOk(q) && NoIdleTunnel(q) && s.swIf in q.bySwIf
      && TunnelKeysUnique(q) && VppTunnels(q) == VppTunnels(p) && Ends(q) == Ends(p)
  {
    NoIdleAfterAdd(p, idx, s);
    DictionaryAfterSession(p, idx, s);
    CacheOkFrame(p, AddSession(p, idx, s));
  }

  /** What stays true when a tunnel is created. */
  lemma TunnelCreated(p: Plugin, inst: Records, i: nat, t: Tunnel)
    requires Settled(p, inst) && NoIdleTunnel(p) && i !in p.tunnels && TablesOk(AddTunnel(p, i, t))
    ensures var q := AddTunnel(p, i, t);
      && Settled(q, inst) && IsTunnel(q, KeyOf(t), i) && IdleOnly(q, i)
      && VppTunnels(q) == VppTunnels(p)[KeyOf(t) := i] && Ends(q) == Ends(p)[KeyOf(t) := EndpointOf(t)]
  {
    hide KeyIndexOk, SwIfIndexOk, Anchored, CountsOk, LocalIpsOk, TunnelKeysUnique, CacheOk, InSync, VppTunnels, Ends;
    DictionaryAfterAdd(p, i, t);
    EndsAfterAdd(p, i, t);
    TunnelKeepsSync(p, inst, i, t);
  }

  lemma TunnelKeepsSync(p: Plugin, inst: Records, i: nat, t: Tunnel)
    requires SwIfIndexOk(p) && CacheOk(p) && InSync(p, inst) && i !in p.tunnels
    ensures var q := AddTunnel(p, i, t); SwIfIndexOk(q) && CacheOk(q) && InSync(q, inst)
  {
    CacheOkFrame(p, AddTunnel(p, i, t));
    InSyncFrame(p, AddTunnel(p, i, t), inst);
  }

  /** A record's session is found under its tunnel's id and its own session id. */
  lemma OwnId(p: Plugin, inst: Records, k: SessionId)
    requires KeyIndexOk(p) && Anchored(p) && RecordsOk(p, inst) && k in inst
    ensures inst[k].tunnelIndex in p.tunnels && OpId(p, inst[k].tunnelIndex, inst[k].sid) == k && k in p.byKey
    ensures p.byKey[k] in p.sessions && p.sessions[p.byKey[k]].tunnelIndex == inst[k].tunnelIndex
  {
    assert Describes(p, k, inst[k]);
  }

  /** The ledger after `missing` are added and then `stale` deleted, each prefix once. */
  function Moved(l: Ledger, missing: set<Prefix>, stale: set<Prefix>, w: nat): Ledger
  {
    Ledger(Point(l.cache, Hosts(missing), w) - Hosts(stale), l.surplus + |Hosts(missing) * l.cache.Keys|)
  }

  /** What installing a session in tables `p` leads to, once its routes are in. */
  lemma SessionMirrored(p: Plugin, inst: Records, idx: nat, x: Session, m: Plugin, q: Plugin, rec: Record)
    requires Settled(p, inst) && IdleOnly(p, x.tunnelIndex)
    requires x.tunnelIndex in p.tunnels && idx !in p.sessions && x.swIf !in p.bySwIf && IdOf(x) !in p.byKey
    requires m == AddSession(p, idx, x) && NoIdleTunnel(m) && TablesOk(m) && Ends(m) == Ends(p)
    requires VppTunnels(m) == VppTunnels(p)
    requires Called(true, m, q, rec.routes, x.swIf) && TablesOk(q) && CacheOk(q)
    requires rec == Record(x.swIf, x.tunnelIndex, x.localSid, x.peerSid, KeyOf(p.tunnels[x.tunnelIndex]), rec.routes)
    ensures Settled(q, inst[IdOf(x) := rec]) && NoIdleTunnel(q)
    ensures VppTunnels(q) == VppTunnels(p) && Ends(q) == Ends(p)
    ensures LedgerOf(q) == AddAll(LedgerOf(p), rec.routes, x.swIf)
  {
    hide KeyIndexOk, SwIfIndexOk, Anchored, CountsOk, LocalIpsOk, TunnelKeysUnique, CacheOk, RecordsOk, RoutesOk;
    hide Ends, VppTunnels, NoIdleTunnel, Hosts, Paths, Prefixes, LedgerOf, DelAll, AddAll;
    RoutesFrame(m, q);
    DictionaryFrame(m, q);
    SameLedger(p, m);
    InstallKeepsSync(p, inst, idx, x, rec, q, LedgerOf(q));
  }

  lemma NothingGained(l: Ledger, before: Records, s: KernelSession)
    requires s.id in before
    ensures Prefixes(before[s.id].routes) == Prefixes(s.routes) ==> OneLedger(l, before, before, s, true) == l
  {
    if Prefixes(before[s.id].routes) == Prefixes(s.routes) {
      assert Gained(before, s, true) == {} && Lost(before, s, true) == {};
      NoPrefixes();
      PointMinus(l.cache, {}, {}, SwIfOf(before, s.id));
      assert {} * l.cache.Keys == {};
    }
  }

  /** What the last call of a removal leaves. */
  lemma SessionGone(p: Plugin, inst: Records, k: SessionId, m: Plugin, q: Plugin)
    requires Settled(p, inst) && k in inst && TablesOk(m) && CacheOk(m)
    requires Called(false, p, m, inst[k].routes, inst[k].swIf)
    requires q == Apply(m, SessionDel(inst[k].tunnelIndex, inst[k].sid)) && IndexesOk(q)
    requires NamesOwnTunnel(m, SessionDel(inst[k].tunnelIndex, inst[k].sid)) ==> TablesOk(q)
    ensures Settled(q, inst - {k}) && Ends(q) == Ends(p)
    ensures LedgerOf(q) == WithoutHosts(LedgerOf(p), inst[k].routes)
  {
    hide KeyIndexOk, SwIfIndexOk, Anchored, CountsOk, LocalIpsOk, TunnelKeysUnique, CacheOk, RecordsOk, RoutesOk;
    hide Ends, Hosts, Paths, LedgerOf, DelAll, WithoutHosts, AddAll;
    OwnId(p, inst, k);
    RoutesFrame(p, m);
    SessionDelSucceeds(m, SessionDel(inst[k].tunnelIndex, inst[k].sid));
    LedgerWithout(p, m, inst[k].routes, inst[k].swIf);
    RemoveKeepsSync(p, inst, k, m, q, LedgerOf(m));
    hide InSync;
    SameLedger(m, q);
    CacheOkFrame(m, q);
    DictionaryFrame(p, q);
  }

  lemma LedgerWithout(p: Plugin, m: Plugin, pfxs: seq<Prefix>, w: nat)
    requires Called(false, p, m, pfxs, w)
    ensures LedgerOf(m) == WithoutHosts(LedgerOf(p), pfxs)
  {
    hide LedgerOf, DelAll, Hosts, Paths;
    DelAllIs(LedgerOf(p), pfxs);
    WithoutIs(LedgerOf(p), pfxs);
  }

  lemma WithoutIs(l: Ledger, pfxs: seq<Prefix>)
    ensures WithoutHosts(l, pfxs) == Ledger(l.cache - Hosts(Prefixes(pfxs)), l.surplus)
  {}

  lemma TrimmedRecord(before: Records, now: Records, want: map<SessionId, KernelSession>, todo: set<SessionId>,
                      k: SessionId)
    requires Trimmed(before, now, want, todo) && k in todo
    ensures k in before && k in now && now[k] == before[k]
  {}

  lemma SubEndsSelf(ends: map<TunnelKey, Endpoint>)
    ensures SubEnds(ends, ends)
  {}

  lemma LoopStart(ends0: map<TunnelKey, Endpoint>, before: Records, want: map<SessionId, KernelSession>,
                  order: seq<SessionId>, sync: bool, fb: Fallback)
    requires forall i :: 0 <= i < |order| ==> order[i] in want
    ensures Handled(order[..0]) == {} && Mirrored(before, before, want, {}, sync)
    ensures |Handled(order[..0]) - before.Keys| == 0
    ensures EndsFrom(ends0, ends0, before, want, fb) && DialedKeys(before, want, order[..0], fb) == {}
  {
    assert Handled(order[..0]) - before.Keys == {};
  }

  lemma BlockedIff(tunnels: set<TunnelKey>, ends: map<TunnelKey, Endpoint>, before: Records,
                   want: map<SessionId, KernelSession>, order: seq<SessionId>, fb: Fallback, i: nat)
    requires i < |order| && order[i] in want
    requires ends.Keys == tunnels + DialedKeys(before, want, order[..i], fb)
    ensures Blocked(tunnels, before, want, order, fb, i)
            <==> order[i] !in before && TunnelKeyOf(want[order[i]]) !in ends && !Dialable(want[order[i]], fb)
  {}

  lemma LoopEnd(order: seq<SessionId>, want: map<SessionId, KernelSession>)
    requires Lists(order, want)
    ensures order[..|order|] == order && Handled(order) == want.Keys
  {}

  /** What a session gains and loses can be read off the records of the pass so far. */
  lemma MovesSoFar(before: Records, now: Records, s: KernelSession, sync: bool)
    requires s.id in now <==> s.id in before
    requires s.id in before ==> now[s.id] == before[s.id]
    ensures Gained(now, s, sync) == Gained(before, s, sync) && Lost(now, s, sync) == Lost(before, s, sync)
  {}

  lemma SameLedger(p: Plugin, q: Plugin)
    requires q.cache == p.cache && q.cacheCount == p.cacheCount
    ensures LedgerOf(q) == LedgerOf(p)
  {}

  /** The removals leave the interfaces of the wanted sessions as recorded. */
  lemma LedgerToTheEnd(l: Ledger, before: Records, mid: Records, now: Records, want: map<SessionId, KernelSession>,
                       order: seq<SessionId>, sync: bool)
    requires forall j :: 0 <= j < |order| ==> order[j] in want
    requires forall k :: k in want ==> want[k].id == k
    requires Mirrored(before, mid, want, want.Keys, sync) && Trimmed(mid, now, want, {})
    ensures LedgerAfter(l, before, now, want, order, sync) == LedgerAfter(l, before, mid, want, order, sync)
  {
    LedgerFrame(l, before, mid, now, want, order, sync);
  }

  lemma MidUnwanted(before: Records, mid: Records, want: map<SessionId, KernelSession>, sync: bool)
    requires Mirrored(before, mid, want, want.Keys, sync)
    ensures forall k :: k in before.Keys - want.Keys ==> k in before && k in mid && mid[k] == before[k]
    ensures mid.Keys - want.Keys == before.Keys - want.Keys
  {}

  /** What a pass leaves that was cut short at session `i` of the order: the sessions before it
      are handled, and nothing else has changed. In particular nothing is removed. */
  ghost predicate Interrupted(p: Plugin, before: Records, q: Plugin, now: Records,
                              want: map<SessionId, KernelSession>, order: seq<SessionId>, sync: bool, fb: Fallback,
                              i: nat)
    requires forall i :: 0 <= i < |order| ==> order[i] in want
  {
    && FirstBlocked(Ends(p).Keys, before, want, order, fb, i)
    && Mirrored(before, now, want, Handled(order[..i]), sync)
    && LedgerOf(q) == LedgerAfter(LedgerOf(p), before, now, want, order[..i], sync)
    && Ends(q).Keys == Ends(p).Keys + DialedKeys(before, want, order[..i], fb)
  }

  /** Nothing stands in the way of a pass over the wanted sessions. */
  ghost predicate Unblocked(p: Plugin, before: Records, want: map<SessionId, KernelSession>, order: seq<SessionId>,
                            fb: Fallback)
  {
    NoneBlocked(Ends(p).Keys, before, want, order, fb)
  }

  /** What handling one wanted session does that is not blocked. */
  ghost predicate OneMirrored(p: Plugin, before: Records, q: Plugin, now: Records, s: KernelSession, sync: bool,
                              fb: Fallback)
  {
    && s.id in now && now == before[s.id := now[s.id]]
    && (s.id !in before || sync ==> Prefixes(now[s.id].routes) == Prefixes(s.routes))
    && (s.id !in before ==> NamesPeer(now[s.id], s))
    && (s.id in before ==> now[s.id] == before[s.id].(routes := now[s.id].routes))
    && (s.id in before && !sync ==> now == before)
    && Ends(q) == (if s.id in before then Ends(p) else EndsWith(Ends(p), s, fb))
    && LedgerOf(q) == OneLedger(LedgerOf(p), before, now, s, sync)
  }

  /** The first half of a pass, before the session at `i`. */
  ghost predicate Halfway(p: Plugin, before: Records, q: Plugin, now: Records, want: map<SessionId, KernelSession>,
                          order: seq<SessionId>, sync: bool, fb: Fallback, i: nat)
    requires i <= |order| && forall j :: 0 <= j < |order| ==> order[j] in want
  {
    && Mirrored(before, now, want, Handled(order[..i]), sync)
    && LedgerOf(q) == LedgerAfter(LedgerOf(p), before, now, want, order[..i], sync)
    && EndsFrom(Ends(p), Ends(q), before, want, fb)
    && Ends(q).Keys == Ends(p).Keys + DialedKeys(before, want, order[..i], fb)
    && forall j :: 0 <= j < i ==> !Blocked(Ends(p).Keys, before, want, order, fb, j)
  }

  lemma HalfwayStart(p: Plugin, before: Records, want: map<SessionId, KernelSession>, order: seq<SessionId>,
                     sync: bool, fb: Fallback)
    requires forall j :: 0 <= j < |order| ==> order[j] in want
    ensures Halfway(p, before, p, before, want, order, sync, fb, 0)
    ensures |Handled(order[..0]) - before.Keys| == 0
  {
    hide Ends;
    LoopStart(Ends(p), before, want, order, sync, fb);
  }

  /** The session at `i`: blocked, or handled. */
  lemma HalfwayStep(p: Plugin, before: Records, q: Plugin, now: Records, r: Plugin, next: Records,
                    want: map<SessionId, KernelSession>, order: seq<SessionId>, sync: bool, fb: Fallback, i: nat)
    requires i < |order| && Lists(order, want) && forall j :: 0 <= j < |order| ==> order[j] in want
    requires forall k :: k in want ==> want[k].id == k
    requires Halfway(p, before, q, now, want, order, sync, fb, i)
    requires OneMirrored(q, now, r, next, want[order[i]], sync, fb)
    requires !Blocked(Ends(p).Keys, before, want, order, fb, i)
    ensures Halfway(p, before, r, next, want, order, sync, fb, i + 1)
  {
    hide Ends, EndsFrom, EndsWith, Handled, Gained, Lost, Hosts, Lists, DialedKeys, Blocked, LedgerOf, LedgerAfter;
    var k, done := order[i], Handled(order[..i]);
    HandledStep(order, want, i);
    assert Mirrored(before, next, want, Handled(order[..i + 1]), sync) by {
      KnownSoFar(before, now, want, done, k, sync);
      MirroredStep(before, now, next, want, done, k, sync);
    }
    LedgerAfterStep(LedgerOf(p), LedgerOf(q), LedgerOf(r), before, now, next, want, order, sync, i);
    hide Mirrored, OneLedger;
    if k !in before { EndsFromStep(Ends(p), Ends(q), before, want, fb, k); }
    DialedStep(Ends(p).Keys, Ends(q), before, want, order, fb, i);
  }

  lemma LedgerAfterStep(l: Ledger, m: Ledger, n: Ledger, before: Records, now: Records, next: Records,
                        want: map<SessionId, KernelSession>, order: seq<SessionId>, sync: bool, i: nat)
    requires i < |order| && Lists(order, want) && forall j :: 0 <= j < |order| ==> order[j] in want
    requires forall k :: k in want ==> want[k].id == k
    requires Mirrored(before, now, want, Handled(order[..i]), sync)
    requires m == LedgerAfter(l, before, now, want, order[..i], sync)
    requires order[i] in next && next == now[order[i] := next[order[i]]]
    requires n == OneLedger(m, now, next, want[order[i]], sync)
    ensures n == LedgerAfter(l, before, next, want, order[..i + 1], sync)
  {
    hide LedgerAfter, Gained, Lost, Hosts, Handled, Point, Readded;
    var k := order[i];
    forall j | 0 <= j < i ensures SwIfOf(next, order[..i][j]) == SwIfOf(now, order[..i][j]) {
      assert order[j] != k;
    }
    LedgerFrame(l, before, now, next, want, order[..i], sync);
    LedgerStep(l, before, next, want, order, sync, i);
    HandledStep(order, want, i);
    KnownSoFar(before, now, want, Handled(order[..i]), k, sync);
    MovesSoFar(before, now, want[k], sync);
  }

  /** What the first half of a pass leaves that was not cut short. */
  ghost predicate WantedMirrored(p: Plugin, before: Records, q: Plugin, now: Records,
                                 want: map<SessionId, KernelSession>, order: seq<SessionId>, sync: bool, fb: Fallback)
    requires forall i :: 0 <= i < |order| ==> order[i] in want
  {
    && Mirrored(before, now, want, want.Keys, sync)
    && LedgerOf(q) == LedgerAfter(LedgerOf(p), before, now, want, order, sync)
    && EndsFrom(Ends(p), Ends(q), before, want, fb)
  }

  /** A pass was cut short exactly if some session is blocked. */
  ghost predicate CutShort(p: Plugin, before: Records, q: Plugin, now: Records, want: map<SessionId, KernelSession>,
                           order: seq<SessionId>, sync: bool, fb: Fallback)
    requires forall i :: 0 <= i < |order| ==> order[i] in want
  {
    exists i: nat :: Interrupted(p, before, q, now, want, order, sync, fb, i)
  }

  /** What is known of the session at `i` before it is handled. */
  lemma HalfwayKnows(p: Plugin, before: Records, q: Plugin, now: Records, want: map<SessionId, KernelSession>,
                     order: seq<SessionId>, sync: bool, fb: Fallback, i: nat)
    requires i < |order| && Lists(order, want) && forall j :: 0 <= j < |order| ==> order[j] in want
    requires Halfway(p, before, q, now, want, order, sync, fb, i)
    ensures var k := order[i];
      && (k in now <==> k in before) && (k in before ==> now[k] == before[k])
      && (AlreadyMirrored(before, want, sync) ==> k in before && (sync ==> RoutesMatch(now, want, k)))
      && (Blocked(Ends(p).Keys, before, want, order, fb, i)
          <==> k !in now && TunnelKeyOf(want[k]) !in Ends(q) && !Dialable(want[k], fb))
  {
    hide Ends, Handled, LedgerOf, LedgerAfter, EndsFrom, DialedKeys, Blocked;
    HandledStep(order, want, i);
    KnownSoFar(before, now, want, Handled(order[..i]), order[i], sync);
    BlockedIff(Ends(p).Keys, Ends(q), before, want, order, fb, i);
  }

  lemma HalfwayStops(p: Plugin, before: Records, q: Plugin, now: Records, want: map<SessionId, KernelSession>,
                     order: seq<SessionId>, sync: bool, fb: Fallback, i: nat)
    requires i < |order| && forall j :: 0 <= j < |order| ==> order[j] in want
    requires Halfway(p, before, q, now, want, order, sync, fb, i)
    requires Blocked(Ends(p).Keys, before, want, order, fb, i)
    ensures CutShort(p, before, q, now, want, order, sync, fb) && !Unblocked(p, before, want, order, fb)
  {
    hide Ends, Blocked, LedgerOf, LedgerAfter, Mirrored, EndsFrom, Handled, DialedKeys;
    assert Interrupted(p, before, q, now, want, order, sync, fb, i);
  }

  lemma HalfwayEnds(p: Plugin, before: Records, q: Plugin, now: Records, want: map<SessionId, KernelSession>,
                    order: seq<SessionId>, sync: bool, fb: Fallback)
    requires Lists(order, want) && forall j :: 0 <= j < |order| ==> order[j] in want
    requires Halfway(p, before, q, now, want, order, sync, fb, |order|)
    ensures WantedMirrored(p, before, q, now, want, order, sync, fb) && Unblocked(p, before, want, order, fb)
  {
    hide Ends, Blocked, Lists, Handled;
    LoopEnd(order, want);
  }

  /** What a completed pass leads to, from tables `p` and records `before` to `q` and `now`. */
  ghost predicate PassLeaves(p: Plugin, before: Records, q: Plugin, now: Records, want: map<SessionId, KernelSession>,
                             order: seq<SessionId>, sync: bool, fb: Fallback)
    requires forall i :: 0 <= i < |order| ==> order[i] in want
  {
    // the records, and with route sync the tables, are those of the kernel's list
    && PassDone(before, now, want, sync)
    && (sync ==> Converged(q, now, want))
    // the peers are the kernel's if and only if nothing stood in the way
    && (AllPeersMatch(q, want, fb) <==> PeersWillMatch(p, before, want, fb))
    // the cache, and the locks it has lost, are what the calls leave in this order
    && LedgerOf(q) == LedgerAfterPass(LedgerOf(p), before, now, want, order, sync)
    && q.cache.Keys == CacheAfterPass(p.cache.Keys, before, want, order, sync)
    && LedgerOf(q).surplus == LedgerOf(p).surplus + LostLocks(p.cache.Keys, before, want, order, sync)
  }

  /** After a pass that was cut short, the next one over the same list is, at the same session. */
  lemma StuckAgain(p: Plugin, before: Records, q: Plugin, now: Records, want: map<SessionId, KernelSession>,
                   order: seq<SessionId>, sync: bool, fb: Fallback, at: nat)
    requires Lists(order, want) && forall i :: 0 <= i < |order| ==> order[i] in want
    requires CutShort(p, before, q, now, want, order, sync, fb)
    requires FirstBlocked(Ends(p).Keys, before, want, order, fb, at)
    ensures FirstBlocked(Ends(q).Keys, now, want, order, fb, at)
    ensures at < |order| && now.Keys == before.Keys + Handled(order[..at])
  {
    hide Ends, FirstBlocked, Lists, DialedKeys, LedgerAfter, LedgerOf;
    var i: nat :| Interrupted(p, before, q, now, want, order, sync, fb, i);
    OnlyFirst(Ends(p).Keys, before, want, order, fb, i, at);
    BlockedAgain(Ends(p).Keys, before, want, order, fb, at, Ends(q).Keys, now);
  }

  /** What a round leaves: what a completed pass does, or a pass that was cut short; and a
      converged state is left alone. */
  ghost predicate RoundLeaves(ok: bool, p: Plugin, before: Records, q: Plugin, now: Records,
                              want: map<SessionId, KernelSession>, order: seq<SessionId>, sync: bool, fb: Fallback)
    requires forall i :: 0 <= i < |order| ==> order[i] in want
  {
    && (ok ==> PassLeaves(p, before, q, now, want, order, sync, fb))
    && (!ok ==> CutShort(p, before, q, now, want, order, sync, fb))
    && (Converged(p, before, want) ==> ok && now == before && q == p)
  }

  lemma NothingToDo(p: Plugin, inst: Records, want: map<SessionId, KernelSession>, sync: bool)
    requires Converged(p, inst, want)
    ensures inst.Keys == want.Keys && AlreadyMirrored(inst, want, sync)
  {}

  lemma PassLeft(p: Plugin, before: Records, q: Plugin, now: Records, want: map<SessionId, KernelSession>,
                 order: seq<SessionId>, sync: bool, fb: Fallback)
    requires forall i :: 0 <= i < |order| ==> order[i] in want
    requires PassLeaves(p, before, q, now, want, order, sync, fb)
    ensures now.Keys == want.Keys && (sync ==> Converged(q, now, want))
    ensures AllPeersMatch(q, want, fb) <==> PeersWillMatch(p, before, want, fb)
  {}

  /** What a completed pass says about peers, and then all of it. */
  lemma PassPeers(p: Plugin, before: Records, q: Plugin, now: Records, want: map<SessionId, KernelSession>,
                  order: seq<SessionId>, sync: bool, fb: Fallback)
    requires Settled(p, before) && Settled(q, now) && PassDone(before, now, want, sync)
    requires NoIdleTunnel(q) && EndsFrom(Ends(p), Ends(q), before, want, fb)
    requires forall i :: 0 <= i < |order| ==> order[i] in want
    requires forall k :: k in want ==> want[k].id == k
    requires LedgerOf(q) == LedgerAfterPass(LedgerOf(p), before, now, want, order, sync)
    ensures PassLeaves(p, before, q, now, want, order, sync, fb)
  {
    hide TunnelKeysUnique, RecordsOk, RoutesOk, KeyIndexOk, SwIfIndexOk, Anchored, CountsOk, LocalIpsOk, CacheOk;
    hide Ends, EndsFrom, AllPeersMatch, PeersWillMatch, CacheAfterPass, NoIdleTunnel, LedgerAfterPass, LostLocks;
    PassLedger(LedgerOf(p), before, now, want, order, sync);
    if sync { PassConverged(q, before, now, want); }
    PassPeersIff(p, before, q, now, want, fb);
  }

  /** Every tunnel but `i` has a session. */
  predicate IdleOnly(p: Plugin, i: nat)
  {
    forall t :: t in p.tunnels && t != i ==> p.tunnels[t].nSessions != 0
  }

  /** ROUTE_RESYNC_EVERY is 6. */
  predicate SyncTick(tick: nat) { tick % 6 == 0 }

  /** Of any six ticks in a row exactly one syncs routes; the first tick of all does. */
  lemma OneSyncInSix(tick: nat)
    ensures SyncTick(0)
    ensures exists t: nat :: tick <= t < tick + 6 && SyncTick(t)
    ensures forall t: nat, u: nat ::
      tick <= t < tick + 6 && tick <= u < tick + 6 && SyncTick(t) && SyncTick(u) ==> t == u
  {
    var n := NextSync(tick);
    assert tick <= tick + n < tick + 6 && SyncTick(tick + n);
  }

  lemma NextSync(tick: nat) returns (n: nat)
    ensures n < 6 && SyncTick(tick + n)
  {
    n := (6 - tick % 6) % 6;
  }

  class Syncd {
    const vpp: L2tvppMain
    const fallback: Fallback   // our endpoint for tunnels that do not name one
    var installed: Records
    var tick: nat

    constructor (vpp: L2tvppMain, fallback: Fallback)
      ensures this.vpp == vpp && this.fallback == fallback && installed == map[] && tick == 0
      ensures vpp.State() == EMPTY ==> Valid()
    {
      this.vpp, this.fallback := vpp, fallback;
      installed, tick := map[], 0;
    }

    ghost predicate Valid()
      reads this, vpp
    {
      Settled(vpp.State(), installed) && NoIdleTunnel(vpp.State())
    }

    /** A known tunnel is returned as it is, whatever its endpoint; a new one is dialed. None
        stands for the exception raised when no local address is known. */
    method EnsureTunnel(s: KernelSession, cache: map<TunnelKey, nat>)
      returns (tidx: Option<nat>, cache': map<TunnelKey, nat>)
      requires Valid() && cache == VppTunnels(vpp.State())
      modifies vpp
      ensures Settled(vpp.State(), installed) && cache' == VppTunnels(vpp.State())
      ensures tidx.None? <==> TunnelKeyOf(s) !in cache && s.localIp.None? && fallback.ip.None?
      ensures tidx.Some? ==> tidx.value in vpp.tunnels
      ensures tidx.Some? && TunnelKeyOf(s) !in cache ==>
        vpp.tunnels[tidx.value] == Tunnel(
          if s.localIp.Some? then s.localIp.value else fallback.ip.value, s.peerIp,
          if s.localPort.Some? && s.localPort.value != 0 then s.localPort.value else fallback.port, s.peerPort,
          s.id.tid, s.peerTid, 0)
      ensures tidx.Some? ==> IsTunnel(vpp.State(), TunnelKeyOf(s), tidx.value) && IdleOnly(vpp.State(), tidx.value)
      ensures TunnelKeyOf(s) in cache || tidx.None? ==> vpp.State() == old(vpp.State())
      ensures Ends(vpp.State()) == EndsWith(old(Ends(vpp.State())), s, fallback)
      ensures LedgerOf(vpp.State()) == old(LedgerOf(vpp.State()))
    {
      hide KeyIndexOk, SwIfIndexOk, Anchored, CountsOk, LocalIpsOk, TunnelKeysUnique, CacheOk, RecordsOk, RoutesOk;
      var k := TunnelKeyOf(s);
      TunnelDictionary(vpp.State(), k);
      EndsKeys(vpp.State());
      if k in cache { return Some(cache[k]), cache; }
      if !Dialable(s, fallback) { return None, cache; }
      var i := CreateTunnel(s);
      return Some(i), cache[k := i];
    }

    /** The tunnel call for a key that is not in use: it always succeeds. */
    method CreateTunnel(s: KernelSession) returns (i: nat)
      requires Valid() && !HasTunnel(vpp.State(), TunnelKeyOf(s)) && Dialable(s, fallback)
      modifies vpp
      ensures Settled(vpp.State(), installed) && LedgerOf(vpp.State()) == old(LedgerOf(vpp.State()))
      ensures IsTunnel(vpp.State(), TunnelKeyOf(s), i) && IdleOnly(vpp.State(), i)
      ensures VppTunnels(vpp.State()) == old(VppTunnels(vpp.State()))[TunnelKeyOf(s) := i]
      ensures Ends(vpp.State()) == old(Ends(vpp.State()))[TunnelKeyOf(s) := Dialed(s, fallback)]
      ensures i in vpp.tunnels && vpp.tunnels[i] == Tunnel(
        LocalIp(s, fallback).value, s.peerIp, LocalPort(s, fallback), s.peerPort, s.id.tid, s.peerTid, 0)
    {
      hide KeyIndexOk, SwIfIndexOk, Anchored, CountsOk, LocalIpsOk, TunnelKeysUnique, CacheOk, InSync, NoIdleTunnel;
      hide LedgerOf, Ends, VppTunnels;
      var local, port := LocalIp(s, fallback).value, LocalPort(s, fallback);
      ghost var p := vpp.State();
      var rc;
      rc, i := vpp.TunnelAddDel(true, V4(local), V4(s.peerIp), port, s.peerPort, s.id.tid, s.peerTid);
      TunnelAddSucceeds(p, TunnelAdd(V4(local), V4(s.peerIp), port, s.peerPort, s.id.tid, s.peerTid, i));
      TunnelCreated(p, installed, i, Tunnel(local, s.peerIp, port, s.peerPort, s.id.tid, s.peerTid, 0));
      SameLedger(p, vpp.State());
    }

    /** _route: one call; on a live session interface it always succeeds. `p` is the state
        before the first call of a list, `done` the prefixes already called. */
    method RouteOne(isAdd: bool, x: Prefix, w: nat, ghost p: Plugin, ghost done: seq<Prefix>)
      requires TablesOk(vpp.State()) && CacheOk(vpp.State()) && w in p.bySwIf
      requires Called(isAdd, p, vpp.State(), done, w)
      modifies vpp
      ensures TablesOk(vpp.State()) && CacheOk(vpp.State())
      ensures Called(isAdd, p, vpp.State(), done + [x], w)
    {
      hide KeyIndexOk, SwIfIndexOk, Anchored, CountsOk, LocalIpsOk, TunnelKeysUnique, CacheOk;
      RoutesFrame(p, vpp.State());
      CalledStep(isAdd, p, vpp.State(), done, x, w);
      RouteCallSucceeds(vpp.State(), Route(x, w));
      var _ := vpp.RouteAddDel(isAdd, Route(x, w));
    }

    /** _route, for each prefix of a list in turn. */
    method RouteAll(isAdd: bool, pfxs: seq<Prefix>, w: nat)
      requires TablesOk(vpp.State()) && CacheOk(vpp.State()) && w in vpp.bySwIf
      modifies vpp
      ensures TablesOk(vpp.State()) && CacheOk(vpp.State())
      ensures Called(isAdd, old(vpp.State()), vpp.State(), pfxs, w)
    {
      hide KeyIndexOk, SwIfIndexOk, Anchored, CountsOk, LocalIpsOk, TunnelKeysUnique;
      hide CacheOk, RecordsOk, RoutesOk, NoIdleTunnel, Called;
      ghost var p := vpp.State();
      NothingCalled(isAdd, p, w);
      assert pfxs[..0] == [];
      for i := 0 to |pfxs|
        invariant TablesOk(vpp.State()) && CacheOk(vpp.State())
        invariant Called(isAdd, p, vpp.State(), pfxs[..i], w)
      {
        assert pfxs[..i + 1] == pfxs[..i] + [pfxs[i]];
        RouteOne(isAdd, pfxs[i], w, p, pfxs[..i]);
      }
      assert pfxs[..|pfxs|] == pfxs;
    }

    /** The session call of a new session: it always succeeds. */
    method CreateSession(s: KernelSession, tidx: nat)
      returns (w: nat, ghost idx: nat, ghost sess: Session)
      requires TablesOk(vpp.State()) && CacheOk(vpp.State()) && s.id !in vpp.byKey
      requires IsTunnel(vpp.State(), TunnelKeyOf(s), tidx)
      requires IdleOnly(vpp.State(), tidx)
      modifies vpp
      ensures TablesOk(vpp.State()) && CacheOk(vpp.State()) && NoIdleTunnel(vpp.State())
      ensures sess == Session(tidx, s.id.tid, s.id.sid, s.peerSid, false, false, w)
      ensures idx !in old(vpp.sessions) && w !in old(vpp.bySwIf) && w in vpp.bySwIf
      ensures vpp.State() == Tables.AddSession(old(vpp.State()), idx, sess)
      ensures VppTunnels(vpp.State()) == old(VppTunnels(vpp.State()))
      ensures Ends(vpp.State()) == old(Ends(vpp.State()))
    {
      hide KeyIndexOk, SwIfIndexOk, Anchored, CountsOk, LocalIpsOk, TunnelKeysUnique, CacheOk;
      ghost var p := vpp.State();
      var rc;
      rc, w, idx := vpp.SessionAddDel(true, tidx, s.id.sid, s.peerSid, false, false);
      SessionAddSucceeds(p, SessionAdd(tidx, s.id.sid, s.peerSid, false, false, idx, w));
      sess := Session(tidx, s.id.tid, s.id.sid, s.peerSid, false, false, w);
      SessionCreated(p, idx, sess);
    }

    /** Mirror one new session: tunnel, session, routes, record. */
    method AddSession(s: KernelSession, cache: map<TunnelKey, nat>)
      returns (ok: bool, cache': map<TunnelKey, nat>)
      requires Valid() && s.id !in installed && cache == VppTunnels(vpp.State())
      modifies this`installed, vpp
      ensures Valid() && cache' == VppTunnels(vpp.State())
      ensures !ok <==> TunnelKeyOf(s) !in cache && !Dialable(s, fallback)
      ensures !ok ==> installed == old(installed) && vpp.State() == old(vpp.State())
      ensures ok ==> s.id in installed && installed[s.id].routes == s.routes && NamesPeer(installed[s.id], s)
                     && installed == old(installed)[s.id := installed[s.id]]
      ensures Ends(vpp.State()) == EndsWith(old(Ends(vpp.State())), s, fallback)
      ensures ok ==> LedgerOf(vpp.State()) == AddAll(old(LedgerOf(vpp.State())), s.routes, installed[s.id].swIf)
    {
      hide SwIfIndexOk, CountsOk, LocalIpsOk, Anchored, CacheOk, NoIdleTunnel, Ends, Suits, AddAll, DelAll, Called;
      hide RoutesOk, LedgerOf, EndsWith, VppTunnels, TunnelKeysUnique, KeyIndexOk;
      var tidx;
      tidx, cache' := EnsureTunnel(s, cache);
      if tidx.None? { return false, cache'; }
      ghost var p := vpp.State();
      var w, idx, sess := CreateSession(s, tidx.value);
      ghost var m := vpp.State();
      RouteAll(true, s.routes, w);
      var rec := Record(w, tidx.value, s.id.sid, s.peerSid, TunnelKeyOf(s), s.routes);
      SessionMirrored(p, installed, idx, sess, m, vpp.State(), rec);
      installed := installed[s.id := rec];
      return true, cache';
    }

    /** A set as a list, in some order. */
    static method Enumerate(s: set<Prefix>) returns (q: seq<Prefix>)
      ensures Prefixes(q) == s && Mirror.Distinct(q)
    {
      q := [];
      var rest := s;
      while rest != {}
        invariant rest <= s && Prefixes(q) == s - rest && Mirror.Distinct(q)
        decreases rest
      {
        var x :| x in rest;
        assert Prefixes(q + [x]) == Prefixes(q) + {x} && x !in Prefixes(q);
        q, rest := q + [x], rest - {x};
      }
    }

    /** Bring an installed session's routes in line: missing ones first, then stale ones. */
    method SyncRoutes(s: KernelSession)
      requires Valid() && s.id in installed
      modifies this`installed, vpp
      ensures Valid()
      ensures s.id in installed && Prefixes(installed[s.id].routes) == Prefixes(s.routes)
      ensures installed[s.id] == old(installed)[s.id].(routes := installed[s.id].routes)
      ensures installed == old(installed)[s.id := installed[s.id]]
      ensures vpp.tunnels == old(vpp.tunnels)
      ensures LedgerOf(vpp.State()) == OneLedger(old(LedgerOf(vpp.State())), old(installed), installed, s, true)
      ensures Prefixes(old(installed)[s.id].routes) == Prefixes(s.routes) ==>
        installed == old(installed) && vpp.State() == old(vpp.State())
    {
      hide Settled, NoIdleTunnel, Hosts, Point;
      NothingGained(LedgerOf(vpp.State()), installed, s);
      if Prefixes(installed[s.id].routes) != Prefixes(s.routes) {
        AlignRoutes(s.id, Prefixes(s.routes));
      }
    }

    method AlignRoutes(k: SessionId, want: set<Prefix>)
      requires Valid() && k in installed
      modifies this`installed, vpp
      ensures Valid()
      ensures k in installed && Prefixes(installed[k].routes) == want
      ensures installed[k] == old(installed)[k].(routes := installed[k].routes)
      ensures installed == old(installed)[k := installed[k]]
      ensures vpp.tunnels == old(vpp.tunnels)
      ensures var have := Prefixes(old(installed)[k].routes);
        LedgerOf(vpp.State()) == Moved(old(LedgerOf(vpp.State())), want - have, have - want, installed[k].swIf)
    {
      hide CountsOk, LocalIpsOk, Anchored, TunnelKeysUnique, CacheOk, NoIdleTunnel;
      var rec := installed[k];
      var have := Prefixes(rec.routes);
      ghost var p := vpp.State();
      OwnInterface(p, installed, k);
      Reroute(rec.swIf, want - have, have - want);
      RoutesFrame(p, vpp.State());
      var sorted := Enumerate(want);
      RerouteKeepsSync(p, installed, k, rec.(routes := sorted), vpp.State(), LedgerOf(vpp.State()));
      installed := installed[k := rec.(routes := sorted)];
    }

    method Reroute(w: nat, missing: set<Prefix>, stale: set<Prefix>)
      requires TablesOk(vpp.State()) && CacheOk(vpp.State()) && w in vpp.bySwIf
      modifies vpp
      ensures TablesOk(vpp.State()) && CacheOk(vpp.State())
      ensures Rerouted(old(vpp.State()), vpp.State(), old(vpp.fib) + Paths(missing, w) - Paths(stale, w),
                       Moved(old(LedgerOf(vpp.State())), missing, stale, w))
    {
      hide KeyIndexOk, SwIfIndexOk, Anchored, CountsOk, LocalIpsOk, TunnelKeysUnique, CacheOk;
      ghost var p := vpp.State();
      var adds := Enumerate(missing);
      RouteAll(true, adds, w);
      ghost var m := vpp.State();
      RoutesFrame(p, m);
      var dels := Enumerate(stale);
      RouteAll(false, dels, w);
      AddAllIs(LedgerOf(p), adds, w);
      DistinctReadded(p.cache.Keys, adds);
      DelAllIs(LedgerOf(m), dels);
    }

    /** Remove a session: its routes first, then the session through its own tunnel. */
    method DelSession(k: SessionId)
      requires Settled(vpp.State(), installed) && k in installed
      modifies this`installed, vpp
      ensures Settled(vpp.State(), installed)
      ensures installed == old(installed) - {k}
      ensures Ends(vpp.State()) == old(Ends(vpp.State()))
      ensures LedgerOf(vpp.State()) == WithoutHosts(old(LedgerOf(vpp.State())), old(installed)[k].routes)
    {
      hide KeyIndexOk, SwIfIndexOk, CountsOk, LocalIpsOk, Anchored, TunnelKeysUnique, CacheOk, RecordsOk, RoutesOk;
      hide Ends, Called, LedgerOf, WithoutHosts;
      var rec := installed[k];
      ghost var p := vpp.State();
      OwnInterface(p, installed, k);
      RouteAll(false, rec.routes, rec.swIf);
      ghost var m := vpp.State();
      var rc, _, _ := vpp.SessionAddDel(false, rec.tunnelIndex, rec.sid, rec.peerSid, false, false);
      SessionGone(p, installed, k, m, vpp.State());
      installed := installed - {k};
    }

    /** Drop tunnels with no sessions left. Every delete it issues succeeds. */
    method PruneTunnels() returns (allOk: bool)
      requires Settled(vpp.State(), installed)
      modifies vpp
      ensures Valid() && allOk
      ensures vpp.State() == old(vpp.State()).(tunnels := vpp.tunnels)
      ensures vpp.tunnels.Keys == UsedTunnels(old(vpp.State()))
      ensures vpp.tunnels.Items <= old(vpp.tunnels).Items
      ensures SubEnds(Ends(vpp.State()), old(Ends(vpp.State())))
    {
      hide KeyIndexOk, SwIfIndexOk, Anchored, CountsOk, LocalIpsOk, TunnelKeysUnique;
      hide CacheOk, RecordsOk, RoutesOk, NoIdleTunnel, Left;
      ghost var p := vpp.State();
      var live := set i | i in vpp.sessions :: vpp.sessions[i].tunnelIndex;
      assert live == UsedTunnels(p);
      hide UsedTunnels;
      var dictionary := VppTunnels(vpp.State());
      var todo := dictionary.Keys;
      allOk := true;
      PruningStart(p);
      while todo != {}
        invariant todo <= dictionary.Keys && allOk
        invariant Pruning(p, vpp.State(), todo)
        decreases todo
      {
        var k :| k in todo;
        var tidx := dictionary[k];
        PruneStep(p, vpp.State(), todo, k, tidx);
        if tidx !in live {
          var rc := DropTunnel(k, tidx);
          allOk := allOk && rc == Ok;
        }
        todo := todo - {k};
      }
      PruneDone(p, vpp.State(), installed);
      PruneExact(p, vpp.State());
      PruneEnds(p, vpp.State());
    }

    /** The tunnel call for an unused tunnel: it always succeeds. */
    method DropTunnel(k: TunnelKey, ghost i: nat) returns (rc: Rc)
      requires TablesOk(vpp.State()) && IsTunnel(vpp.State(), k, i) && vpp.tunnels[i].nSessions == 0
      modifies vpp
      ensures rc == Ok && vpp.State() == DelTunnel(old(vpp.State()), i)
    {
      hide KeyIndexOk, SwIfIndexOk, Anchored, CountsOk, LocalIpsOk, TunnelKeysUnique;
      var local := if fallback.ip.Some? then fallback.ip.value else [0, 0, 0, 0];
      TunnelDelSucceeds(vpp.State(), TunnelDel(V4(local), V4(k.peer), k.port, k.tid), i);
      var noIndex;
      rc, noIndex := vpp.TunnelAddDel(false, V4(local), V4(k.peer), fallback.port, k.port, k.tid, 0);
    }

    /** One wanted session: installed if new, otherwise rerouted when routes are synced. */
    method MirrorOne(s: KernelSession, sync: bool, cache: map<TunnelKey, nat>)
      returns (ok: bool, isNew: bool, cache': map<TunnelKey, nat>)
      requires Valid() && cache == VppTunnels(vpp.State())
      modifies this`installed, vpp
      ensures Valid() && cache' == VppTunnels(vpp.State())
      ensures isNew <==> s.id !in old(installed)
      ensures !ok <==> isNew && TunnelKeyOf(s) !in old(Ends(vpp.State())) && !Dialable(s, fallback)
      ensures !ok ==> installed == old(installed) && vpp.State() == old(vpp.State())
      ensures ok ==> OneMirrored(old(vpp.State()), old(installed), vpp.State(), installed, s, sync, fallback)
      ensures !isNew && (!sync || Prefixes(old(installed)[s.id].routes) == Prefixes(s.routes)) ==>
        installed == old(installed) && vpp.State() == old(vpp.State())
    {
      hide KeyIndexOk, SwIfIndexOk, Anchored, CountsOk, LocalIpsOk, TunnelKeysUnique;
      hide CacheOk, InSync, NoIdleTunnel, Ends, VppTunnels, EndsWith, NamesPeer;
      ok, isNew, cache' := true, s.id !in installed, cache;
      ghost var p := vpp.State();
      EndsKeys(p);
      if isNew {
        ok, cache' := AddSession(s, cache);
      } else if sync {
        SyncRoutes(s);
        DictionaryFrame(p, vpp.State());
      }
    }

    /** The loop over the wanted sessions, in the dictionary's order. */
    method MirrorWanted(want: map<SessionId, KernelSession>, order: seq<SessionId>, sync: bool)
      returns (ok: bool, added: nat)
      requires Valid() && Lists(order, want)
      requires (forall i :: 0 <= i < |order| ==> order[i] in want) && forall k :: k in want ==> want[k].id == k
      modifies this`installed, vpp
      ensures Valid()
      ensures ok <==> Unblocked(old(vpp.State()), old(installed), want, order, fallback)
      ensures ok ==> added == |want.Keys - old(installed).Keys|
      ensures ok ==>
        WantedMirrored(old(vpp.State()), old(installed), vpp.State(), installed, want, order, sync, fallback)
      ensures !ok ==>
        CutShort(old(vpp.State()), old(installed), vpp.State(), installed, want, order, sync, fallback)
      ensures AlreadyMirrored(old(installed), want, sync) ==>
        ok && installed == old(installed) && vpp.State() == old(vpp.State())
    {
      hide KeyIndexOk, SwIfIndexOk, Anchored, CountsOk, LocalIpsOk, TunnelKeysUnique, CacheOk, InSync, NoIdleTunnel;
      hide Ends, AlreadyMirrored, Handled, Lists, Halfway, OneMirrored, CutShort, Unblocked, WantedMirrored;
      hide Blocked, VppTunnels, Dialable, TunnelKeyOf, Prefixes, Want;
      ghost var before, p := installed, vpp.State();
      var cache := VppTunnels(vpp.State());
      added := 0;
      HalfwayStart(p, before, want, order, sync, fallback);
      for i := 0 to |order|
        invariant Valid() && cache == VppTunnels(vpp.State())
        invariant Halfway(p, before, vpp.State(), installed, want, order, sync, fallback, i)
        invariant added == |Handled(order[..i]) - before.Keys|
        invariant AlreadyMirrored(before, want, sync) ==> installed == before && vpp.State() == p
      {
        var k := order[i];
        ghost var q, now := vpp.State(), installed;
        HandledStep(order, want, i);
        HalfwayKnows(p, before, q, now, want, order, sync, fallback, i);
        OneMoreNew(Handled(order[..i]), before.Keys, k);
        var isNew;
        ok, isNew, cache := MirrorOne(want[k], sync, cache);
        if !ok {
          HalfwayStops(p, before, q, now, want, order, sync, fallback, i);
          return false, added;
        }
        HalfwayStep(p, before, q, now, vpp.State(), installed, want, order, sync, fallback, i);
        if isNew { added := added + 1; }
      }
      LoopEnd(order, want);
      HalfwayEnds(p, before, vpp.State(), installed, want, order, sync, fallback);
      ok := true;
    }

    /** The loop over the installed sessions that are no longer wanted. */
    method RemoveUnwanted(want: map<SessionId, KernelSession>) returns (removed: nat)
      requires Settled(vpp.State(), installed)
      modifies this`installed, vpp
      ensures Settled(vpp.State(), installed)
      ensures Trimmed(old(installed), installed, want, {})
      ensures removed == |old(installed).Keys - want.Keys|
      ensures removed == 0 ==> installed == old(installed) && vpp.State() == old(vpp.State())
      ensures Ends(vpp.State()) == old(Ends(vpp.State()))
      ensures LedgerOf(vpp.State())
              == MinusHosts(old(LedgerOf(vpp.State())), HostsOf(old(installed), old(installed).Keys - want.Keys))
    {
      hide KeyIndexOk, SwIfIndexOk, Anchored, CountsOk, LocalIpsOk, TunnelKeysUnique;
      hide CacheOk, RecordsOk, RoutesOk, NoIdleTunnel, Trimmed, Ends, HostsOf, Hosts, Settled, Removing;
      hide LedgerOf, MinusHosts, Prefixes;
      ghost var before, p := installed, vpp.State();
      var todo := installed.Keys - want.Keys;
      removed := 0;
      TrimmedStart(before, want);
      RemovalStart(before, want, LedgerOf(p));
      while todo != {}
        invariant Settled(vpp.State(), installed)
        invariant Trimmed(before, installed, want, todo)
        invariant Removing(before, want, todo, removed, LedgerOf(p), LedgerOf(vpp.State()))
        invariant removed == 0 ==> installed == before && vpp.State() == p
        invariant Ends(vpp.State()) == Ends(p)
        decreases todo
      {
        var k :| k in todo;
        TrimmedStep(before, installed, want, todo, k);
        TrimmedRecord(before, installed, want, todo, k);
        RemovalStep(before, want, todo, removed, k, LedgerOf(p), LedgerOf(vpp.State()));
        DelSession(k);
        removed, todo := removed + 1, todo - {k};
      }
      RemovalDone(before, want, removed, LedgerOf(p), LedgerOf(vpp.State()));
    }

    /** One pass: make VPP match the kernel's sessions. None if it was cut short, exactly when
        the tunnel of some new session has no known local address by then; the sessions
        before it are then handled, none is removed, and the records describe the tables. */
    method Reconcile(ks: seq<KernelSession>, sync: bool) returns (r: Option<(nat, nat)>)
      requires Valid()
      modifies this`installed, vpp
      ensures Valid()
      ensures r.Some? <==> Unblocked(old(vpp.State()), old(installed), Want(ks), Order(ks), fallback)
      ensures r.None? ==>
        CutShort(old(vpp.State()), old(installed), vpp.State(), installed, Want(ks), Order(ks), sync, fallback)
      ensures r.Some? ==>
        && r.value == (|Want(ks).Keys - old(installed).Keys|, |old(installed).Keys - Want(ks).Keys|)
        && PassLeaves(old(vpp.State()), old(installed), vpp.State(), installed, Want(ks), Order(ks), sync, fallback)
      // nothing to do
      ensures old(installed).Keys == Want(ks).Keys && AlreadyMirrored(old(installed), Want(ks), sync) ==>
        r == Some((0, 0)) && installed == old(installed) && vpp.State() == old(vpp.State())
    {
      hide KeyIndexOk, SwIfIndexOk, Anchored, CountsOk, LocalIpsOk, TunnelKeysUnique;
      hide CacheOk, RecordsOk, RoutesOk, NoIdleTunnel, Ends, EndsFrom, SubEnds, PassLeaves, CutShort, Unblocked;
      hide Want, Order, Lists, Mirrored, AlreadyMirrored, Trimmed, PassDone, Converged, LedgerAfter, HostsOf, LedgerOf;
      ghost var before, p := installed, vpp.State();
      var want := Want(ks);
      WantKeyed(ks);
      OrderLists(ks);
      var ok, added := MirrorWanted(want, Order(ks), sync);
      if !ok { return None; }
      ghost var mid, midLedger := installed, LedgerOf(vpp.State());
      var removed := RemoveUnwanted(want);
      PassCompleted(before, mid, installed, want, sync);
      MidUnwanted(before, mid, want, sync);
      HostsOfFrame(before, mid, before.Keys - want.Keys);
      LedgerToTheEnd(LedgerOf(p), before, mid, installed, want, Order(ks), sync);
      ghost var all := Ends(vpp.State());
      assert SubEnds(all, all) by { SubEndsSelf(all); }
      if removed != 0 {
        ghost var q := vpp.State();
        var _ := PruneTunnels();
        SameLedger(q, vpp.State());
      }
      EndsFromSub(Ends(p), all, Ends(vpp.State()), before, want, fallback);
      PassPeers(p, before, vpp.State(), installed, want, Order(ks), sync, fallback);
      return Some((added, removed));
    }

    /** Once a pass with route sync has completed, another pass over the same list finds
        nothing to do, and changes nothing. */
    method ReconcileTwice(ks: seq<KernelSession>, sync: bool)
      returns (first: Option<(nat, nat)>, second: Option<(nat, nat)>)
      requires Valid()
      modifies this`installed, vpp
      ensures Valid()
      ensures first.Some? ==> Converged(vpp.State(), installed, Want(ks)) && second == Some((0, 0))
      ensures first.Some? <==> Unblocked(old(vpp.State()), old(installed), Want(ks), Order(ks), fallback)
    {
      hide KeyIndexOk, SwIfIndexOk, Anchored, CountsOk, LocalIpsOk, TunnelKeysUnique;
      hide CacheOk, RecordsOk, RoutesOk, NoIdleTunnel, AllPeersMatch, PeersWillMatch, CacheAfterPass, Ends;
      hide Unblocked, CutShort;
      first := Reconcile(ks, true);
      if first.None? { return first, None; }
      ghost var inst, p := installed, vpp.State();
      second := Reconcile(ks, sync);
      assert installed == inst && vpp.State() == p;
    }

    /** Nothing stands in the way of a pass over the list. */
    ghost predicate Clear(ks: seq<KernelSession>)
      reads this, vpp
    {
      Unblocked(vpp.State(), installed, Want(ks), Order(ks), fallback)
    }

    /** One round of run_daemon, on whatever list the kernel has by then: routes are synced on
        every sixth tick, and a pass that is cut short is logged and does not advance the tick. */
    method Round(ks: seq<KernelSession>) returns (ok: bool)
      requires Valid()
      modifies this`installed, this`tick, vpp
      ensures Valid() && tick == old(tick) + if ok then 1 else 0
      ensures ok <==> old(Clear(ks))
      ensures RoundLeaves(ok, old(vpp.State()), old(installed), vpp.State(), installed, Want(ks), Order(ks),
                          SyncTick(old(tick)), fallback)
    {
      hide Settled, Converged, NoIdleTunnel, PassLeaves, CutShort, Unblocked, AlreadyMirrored, Want, Order, Ends;
      ghost var before, p, sync := installed, vpp.State(), SyncTick(tick);
      if Converged(p, before, Want(ks)) { NothingToDo(p, before, Want(ks), sync); }
      var r := Reconcile(ks, SyncTick(tick));
      if r.Some? { tick := tick + 1; }
      return r.Some?;
    }

    /** run_daemon from any point on, while the kernel's list stays unchanged. If nothing stands
        in the way of the first pass, all complete, and after six, from whatever tick, tables
        and records have converged. Otherwise none ever completes: sessions that are no
        longer listed stay, and the blocked session and those behind it are never added. */
    method RunDaemon(ks: seq<KernelSession>, rounds: nat) returns (completed: nat)
      requires Valid()
      modifies this`installed, this`tick, vpp
      ensures Valid() && tick == old(tick) + completed
      ensures completed == if old(Clear(ks)) then rounds else 0
      ensures completed >= 1 ==> installed.Keys == Want(ks).Keys
      ensures completed >= 6 ==> Converged(vpp.State(), installed, Want(ks))
      ensures rounds >= 1 ==> forall i: nat :: old(StopsAt(ks, i)) ==>
        installed.Keys == old(installed).Keys + Handled(Order(ks)[..i])
    {
      hide Settled, Converged, NoIdleTunnel, Want, Order, SyncTick, Ends, FirstBlocked, NoneBlocked, CutShort, Handled;
      hide PassLeaves;
      completed := 0;
      ghost var synced := false;
      ghost var untilSync := NextSync(tick);
      ghost var clear, before := Clear(ks), installed;
      ghost var at: nat := 0;
      OrderLists(ks);
      if !clear { at := StopsSomewhere(ks); }
      for i := 0 to rounds
        invariant Valid() && tick == old(tick) + completed
        invariant completed == if clear then i else 0
        invariant clear ==> Clear(ks) && (i >= 1 ==> installed.Keys == Want(ks).Keys)
        invariant synced ==> Converged(vpp.State(), installed, Want(ks))
        invariant clear && !synced ==> completed <= untilSync
        invariant !clear ==> StopsAt(ks, at)
        invariant !clear && i >= 1 ==> installed.Keys == before.Keys + Handled(Order(ks)[..at])
        invariant i == 0 ==> installed == before
      {
        ghost var syncing, p, now := SyncTick(tick), vpp.State(), installed;
        if !clear { StopsNotClear(ks, at); }
        var ok := Round(ks);
        if ok {
          PassLeft(p, now, vpp.State(), installed, Want(ks), Order(ks), syncing, fallback);
          completed := completed + 1;
          synced := synced || syncing;
          NeverBlocked(Ends(vpp.State()).Keys, installed, Want(ks), Order(ks), fallback);
        } else {
          StuckAgain(p, now, vpp.State(), installed, Want(ks), Order(ks), syncing, fallback, at);
        }
      }
      forall i: nat | old(StopsAt(ks, i)) && rounds >= 1
        ensures installed.Keys == before.Keys + Handled(Order(ks)[..i])
      {
        OnlyFirst(old(Ends(vpp.State()).Keys), before, Want(ks), Order(ks), fallback, i, i);
        OnlyFirst(old(Ends(vpp.State()).Keys), before, Want(ks), Order(ks), fallback, i, at);
      }
    }

    /** The session at which a pass over the list would be cut short. */
    ghost predicate StopsAt(ks: seq<KernelSession>, i: nat)
      reads this, vpp
    {
      i < |Order(ks)| && FirstBlocked(Ends(vpp.State()).Keys, installed, Want(ks), Order(ks), fallback, i)
    }

    lemma StopsSomewhere(ks: seq<KernelSession>) returns (i: nat)
      requires !Clear(ks)
      ensures StopsAt(ks, i)
    {
      hide Ends, Want, Order, Blocked;
      var tunnels := Ends(vpp.State()).Keys;
      var n :| 0 <= n < |Order(ks)| && Blocked(tunnels, installed, Want(ks), Order(ks), fallback, n);
      i := FirstOne(tunnels, installed, Want(ks), Order(ks), fallback, n);
    }

    lemma StopsNotClear(ks: seq<KernelSession>, i: nat)
      requires StopsAt(ks, i)
      ensures !Clear(ks)
    {
      hide Ends, Want, Order;
      OnlyFirst(Ends(vpp.State()).Keys, installed, Want(ks), Order(ks), fallback, i, i);
    }
  }

  /** Of the tunnels of `p`, those whose key is still to be looked at and those in use are
      left, unchanged. */
  ghost predicate Left(p: Plugin, left: map<nat, Tunnel>, todo: set<TunnelKey>)
  {
    && (forall t :: t in left <==> t in p.tunnels && (KeyOf(p.tunnels[t]) in todo || t in UsedTunnels(p)))
    && (forall t :: t in left ==> left[t] == p.tunnels[t])
  }

  /** Partway through pruning: nothing but tunnels has changed. */
  ghost predicate Pruning(p: Plugin, q: Plugin, todo: set<TunnelKey>)
  {
    TablesOk(q) && q == p.(tunnels := q.tunnels) && Left(p, q.tunnels, todo)
  }

  lemma PruningStart(p: Plugin)
    requires TablesOk(p)
    ensures Pruning(p, p, VppTunnels(p).Keys)
  {
    hide CountsOk, SwIfIndexOk, KeyIndexOk, LocalIpsOk;
    forall t | t in p.tunnels ensures KeyOf(p.tunnels[t]) in VppTunnels(p) {
      DictionaryEntry(p, KeyOf(p.tunnels[t]), t);
    }
  }

  /** The tunnels that are left have the ends they had. */
  lemma PruneEnds(p: Plugin, q: Plugin)
    requires TunnelKeysUnique(p) && Pruning(p, q, {})
    ensures SubEnds(Ends(q), Ends(p))
  {
    hide TablesOk;
    assert IndexesOk(q) by { TablesIndexes(q); }
    forall k | k in Ends(q) ensures k in Ends(p) && Ends(q)[k] == Ends(p)[k] {
      var i := VppTunnels(q)[k];
      EndOf(p, k, i);
    }
  }

  lemma TablesIndexes(p: Plugin)
    requires TablesOk(p)
    ensures IndexesOk(p)
  {}

  lemma LeftStep(p: Plugin, left: map<nat, Tunnel>, todo: set<TunnelKey>, k: TunnelKey, i: nat)
    requires TunnelKeysUnique(p) && Left(p, left, todo) && k in todo && IsTunnel(p, k, i)
    ensures i in left && left[i] == p.tunnels[i]
    ensures Left(p, if i in UsedTunnels(p) then left else left - {i}, todo - {k})
  {
    hide UsedTunnels;
    forall t | t in p.tunnels ensures KeyOf(p.tunnels[t]) in todo - {k} <==> KeyOf(p.tunnels[t]) in todo && t != i {}
  }

  lemma PruneStep(p: Plugin, q: Plugin, todo: set<TunnelKey>, k: TunnelKey, i: nat)
    requires TablesOk(p) && Pruning(p, q, todo) && k in todo && IsTunnel(p, k, i)
    ensures i in UsedTunnels(p) ==> Pruning(p, q, todo - {k})
    ensures i !in UsedTunnels(p) ==>
      IsTunnel(q, k, i) && q.tunnels[i].nSessions == 0 && Pruning(p, DelTunnel(q, i), todo - {k})
  {
    hide KeyIndexOk, SwIfIndexOk, Anchored, LocalIpsOk, TunnelKeysUnique, CountsOk, Left, UsedTunnels;
    LeftStep(p, q.tunnels, todo, k, i);
    if i !in UsedTunnels(p) {
      UnusedCountsZero(p, i);
      DelTunnelKeeps(q, i);
    }
  }

  lemma UnusedCountsZero(p: Plugin, i: nat)
    requires CountsOk(p) && i in p.tunnels && i !in UsedTunnels(p)
    ensures p.tunnels[i].nSessions == 0
  {
    assert forall j :: j in p.sessions ==> p.sessions[j].tunnelIndex in UsedTunnels(p);
    assert SessionsOf(p.sessions, i) == {};
  }

  lemma PruneExact(p: Plugin, q: Plugin)
    requires Anchored(p) && Pruning(p, q, {})
    ensures q.tunnels.Keys == UsedTunnels(p) && q.tunnels.Items <= p.tunnels.Items
  {
    hide TablesOk;
    forall t | t in UsedTunnels(p) ensures t in q.tunnels {
      var i :| i in p.sessions && p.sessions[i].tunnelIndex == t;
    }
  }

  lemma PruneDone(p: Plugin, q: Plugin, inst: Records)
    requires Settled(p, inst) && Pruning(p, q, {})
    ensures Settled(q, inst) && NoIdleTunnel(q)
  {
    CacheOkFrame(p, q);
    InSyncFrame(p, q, inst);
    PruneExact(p, q);
    NoIdleIsExact(q);
  }

  // ----- peers that change ----------------------------------------------------

  const FIRST: KernelSession :=
    KernelSession(SessionId(7, 5), LAC_A, 1701, Some(HERE), Some(1701), 70, 50, true, [])
  /** The same session after the LAC has reconnected it under another session id. */
  const RENUMBERED: KernelSession := FIRST.(peerSid := 51)
  /** Another session of that tunnel, listed after the LAC has renumbered the tunnel. */
  const LATER: KernelSession :=
    KernelSession(SessionId(7, 6), LAC_A, 1701, Some(HERE), Some(1701), 71, 60, true, [])

  lemma WantOne(s: KernelSession)
    requires s.hasIf
    ensures Want([s]) == map[s.id := s]
  {
    assert [s][..0] == [];
  }

  lemma WantTwo(s: KernelSession, t: KernelSession)
    requires s.hasIf && t.hasIf
    ensures Want([s, t]) == map[s.id := s][t.id := t]
  {
    WantOne(s);
    assert [s, t][..1] == [s];
  }

  lemma NothingInTheWay(want: map<SessionId, KernelSession>, fb: Fallback)
    requires want == map[FIRST.id := FIRST]
    ensures PeersWillMatch(EMPTY, map[], want, fb)
  {
    hide Ends, Suits;
    NoEnds();
    assert forall k :: k in want ==> want[k] == FIRST;
  }

  lemma NoEnds()
    ensures Ends(EMPTY) == map[]
  {
    assert VppTunnels(EMPTY) == map[];
  }

  lemma PeerIds(p: Plugin, k: SessionId, s: KernelSession, t: KernelSession, fb: Fallback)
    requires PeersMatch(p, k, s, fb) && t.id == s.id && PeersMatch(p, k, t, fb)
    ensures s.peerSid == t.peerSid && s.peerTid == t.peerTid
  {}

  /** A known tunnel is joined as it is. */
  lemma JoinedTunnel(p: Plugin, before: Records, want: map<SessionId, KernelSession>, fb: Fallback)
    requires TunnelKeysUnique(p) && PeersMatch(p, FIRST.id, FIRST, fb)
    requires LATER.id !in before && want == map[FIRST.id := FIRST][LATER.id := LATER]
    ensures !PeersWillMatch(p, before, want, fb)
  {
    hide TunnelKeysUnique, Ends;
    var i := p.sessions[p.byKey[FIRST.id]].tunnelIndex;
    EndOf(p, TunnelKeyOf(FIRST), i);
    assert IsNew(before, want, LATER.id) && TunnelKeyOf(LATER) == TunnelKeyOf(FIRST);
    assert want[LATER.id] == LATER;
  }

  /** Two ways in which the plugin and the kernel part, although every pass completes and
      tables and records converge: a known session whose peer id changes, and a new session
      that joins a known tunnel whose peer id has changed. */
  method StalePeers(fb: Fallback) returns (known: Syncd, joined: Syncd)
    ensures fresh(known) && known.fallback == fb && Converged(known.vpp.State(), known.installed, Want([RENUMBERED]))
    ensures !PeersMatch(known.vpp.State(), RENUMBERED.id, RENUMBERED, fb)
    ensures fresh(joined) && joined.fallback == fb
    ensures Converged(joined.vpp.State(), joined.installed, Want([FIRST, LATER]))
    ensures !AllPeersMatch(joined.vpp.State(), Want([FIRST, LATER]), fb)
  {
    known := KnownPeerChanges(fb);
    joined := TunnelPeerChanges(fb);
  }

  method Started(fb: Fallback) returns (d: Syncd)
    ensures fresh(d) && fresh(d.vpp) && d.fallback == fb && d.Valid()
    ensures d.installed.Keys == {FIRST.id} && PeersMatch(d.vpp.State(), FIRST.id, FIRST, fb)
  {
    hide KeyIndexOk, SwIfIndexOk, Anchored, CountsOk, LocalIpsOk, TunnelKeysUnique;
    hide CacheOk, RecordsOk, RoutesOk, NoIdleTunnel, Ends, CacheAfterPass, Converged, PeersMatch, CutShort;
    hide PeersWillMatch, Want, Order, NoneBlocked, PassLeaves;
    var vpp := new L2tvppMain();
    d := new Syncd(vpp, fb);
    WantOne(FIRST);
    NothingInTheWay(Want([FIRST]), fb);
    NeverBlocked(Ends(vpp.State()).Keys, d.installed, Want([FIRST]), Order([FIRST]), fb);
    var r := d.Reconcile([FIRST], true);
    PassLeft(EMPTY, map[], d.vpp.State(), d.installed, Want([FIRST]), Order([FIRST]), true, fb);
  }

  method KnownPeerChanges(fb: Fallback) returns (d: Syncd)
    ensures fresh(d) && fresh(d.vpp) && d.fallback == fb && Converged(d.vpp.State(), d.installed, Want([RENUMBERED]))
    ensures !PeersMatch(d.vpp.State(), RENUMBERED.id, RENUMBERED, fb)
  {
    hide KeyIndexOk, SwIfIndexOk, Anchored, CountsOk, LocalIpsOk, TunnelKeysUnique;
    hide CacheOk, RecordsOk, RoutesOk, NoIdleTunnel, Ends, CacheAfterPass, Converged, PeersMatch, Want, Order;
    hide NoneBlocked, PassLeaves, Settled, NoIdleTunnel, CutShort;
    d := Started(fb);
    WantOne(RENUMBERED);
    if PeersMatch(d.vpp.State(), RENUMBERED.id, RENUMBERED, fb) {
      PeerIds(d.vpp.State(), FIRST.id, FIRST, RENUMBERED, fb);
    }
    NeverBlocked(Ends(d.vpp.State()).Keys, d.installed, Want([RENUMBERED]), Order([RENUMBERED]), fb);
    ghost var p, before := d.vpp.State(), d.installed;
    var r := d.Reconcile([RENUMBERED], true);
    PassLeft(p, before, d.vpp.State(), d.installed, Want([RENUMBERED]), Order([RENUMBERED]), true, fb);
  }

  method TunnelPeerChanges(fb: Fallback) returns (d: Syncd)
    ensures fresh(d) && fresh(d.vpp) && d.fallback == fb && Converged(d.vpp.State(), d.installed, Want([FIRST, LATER]))
    ensures !AllPeersMatch(d.vpp.State(), Want([FIRST, LATER]), fb)
  {
    hide KeyIndexOk, SwIfIndexOk, Anchored, CountsOk, LocalIpsOk, TunnelKeysUnique, CutShort, PeersWillMatch;
    hide CacheOk, RecordsOk, RoutesOk, NoIdleTunnel, Ends, CacheAfterPass, Converged, PeersMatch, Want, Order;
    hide NoneBlocked, PassLeaves, InSync, CacheOk;
    d := Started(fb);
    WantTwo(FIRST, LATER);
    JoinedTunnel(d.vpp.State(), d.installed, Want([FIRST, LATER]), fb);
    NeverBlocked(Ends(d.vpp.State()).Keys, d.installed, Want([FIRST, LATER]), Order([FIRST, LATER]), fb);
    ghost var p, before := d.vpp.State(), d.installed;
    var r := d.Reconcile([FIRST, LATER], true);
    PassLeft(p, before, d.vpp.State(), d.installed, Want([FIRST, LATER]), Order([FIRST, LATER]), true, fb);
  }

  // ----- a session that blocks all passes -------------------------------------

  /** A session for which the kernel names no local address, on a tunnel of its own. */
  const NOWHERE: KernelSession :=
    KernelSession(SessionId(8, 1), LAC_B, 1701, None, None, 80, 11, true, [])

  lemma OrderOne(s: KernelSession)
    requires s.hasIf
    ensures Order([s]) == [s.id]
  {
    assert [s][..0] == [];
  }

  /** With one session there is one tunnel, its own. */
  lemma OnlyTunnel(p: Plugin, inst: Records, fb: Fallback, t: nat)
    requires Settled(p, inst) && NoIdleTunnel(p) && inst.Keys == {FIRST.id} && PeersMatch(p, FIRST.id, FIRST, fb)
    requires t in p.tunnels
    ensures KeyOf(p.tunnels[t]) == TunnelKeyOf(FIRST)
  {
    hide SwIfIndexOk, LocalIpsOk, Anchored, CacheOk, RoutesOk, TunnelKeysUnique, CountsOk;
    NoIdleIsExact(p);
    assert t in UsedTunnels(p);
    var i :| i in p.sessions && p.sessions[i].tunnelIndex == t;
    assert IdOf(p.sessions[i]) in p.byKey.Keys;
  }

  lemma NoSuchTunnel(p: Plugin, inst: Records, fb: Fallback)
    requires Settled(p, inst) && NoIdleTunnel(p) && inst.Keys == {FIRST.id} && PeersMatch(p, FIRST.id, FIRST, fb)
    ensures TunnelKeyOf(NOWHERE) !in Ends(p).Keys
  {
    hide Ends, NoIdleTunnel, PeersMatch, InSync;
    forall t | t in p.tunnels ensures KeyOf(p.tunnels[t]) == TunnelKeyOf(FIRST) {
      OnlyTunnel(p, inst, fb, t);
    }
    EndsKeys(p);
  }

  /** Without a fallback address, one such session on the list ends every round early: the
      session that is no longer listed stays installed, however many rounds go by. */
  method DeadSessionStays(rounds: nat) returns (d: Syncd, completed: nat)
    requires rounds >= 1
    ensures fresh(d) && completed == 0 && FIRST.id !in Want([NOWHERE])
    ensures d.installed.Keys == {FIRST.id}
  {
    hide KeyIndexOk, SwIfIndexOk, Anchored, CountsOk, LocalIpsOk, TunnelKeysUnique;
    hide CacheOk, RecordsOk, RoutesOk, NoIdleTunnel, Ends, Converged, PeersMatch, Want, Order;
    d := Started(Fallback(None, 1701));
    WantOne(NOWHERE);
    OrderOne(NOWHERE);
    NoSuchTunnel(d.vpp.State(), d.installed, d.fallback);
    assert DialedKeys(d.installed, Want([NOWHERE]), Order([NOWHERE])[..0], d.fallback) == {};
    assert d.StopsAt([NOWHERE], 0);
    d.StopsNotClear([NOWHERE], 0);
    assert Handled(Order([NOWHERE])[..0]) == {};
    completed := d.RunDaemon([NOWHERE], rounds);
  }
}
