/** Which addresses a reconcile pass leaves in the encap cache (l2tvppd.py driving the route
    calls of l2tvpp.c): a delete empties an entry whichever session it was for, so what
    stays cached depends on the order in which sessions are handled. */
module Shortcuts {
  import opened Bytes
  import opened Header
  import opened Tables
  import opened Input
  import opened EncapCache
  import opened Mirror

  /** The prefixes a session gains in the first half of a pass. */
  function Gained(before: Records, s: KernelSession, sync: bool): set<Prefix>
  {
    if s.id !in before then Prefixes(s.routes)
    else if sync then Prefixes(s.routes) - Prefixes(before[s.id].routes)
    else {}
  }

  /** The prefixes a session loses in the first half of a pass. */
  function Lost(before: Records, s: KernelSession, sync: bool): set<Prefix>
  {
    if s.id in before && sync then Prefixes(before[s.id].routes) - Prefixes(s.routes) else {}
  }

  /** The cached addresses after the wanted sessions in `order`, one after another. */
  function CacheAfter(cached: set<Ip4>, before: Records, want: map<SessionId, KernelSession>,
                      order: seq<SessionId>, sync: bool): set<Ip4>
    requires forall i :: 0 <= i < |order| ==> order[i] in want
  {
    if order == [] then cached
    else
      var n := |order| - 1;
      var s := want[order[n]];
      CacheAfter(cached, before, want, order[..n], sync) + Hosts(Gained(before, s, sync)) - Hosts(Lost(before, s, sync))
  }

  /** The host addresses recorded for the sessions in `gone`. */
  function HostsOf(before: Records, gone: set<SessionId>): set<Ip4>
  {
    set k, x | k in gone && k in before && x in before[k].routes && Cacheable(x) :: x.ip4
  }

  /** The cached addresses after a pass: then the unwanted sessions go. */
  function CacheAfterPass(cached: set<Ip4>, before: Records, want: map<SessionId, KernelSession>,
                          order: seq<SessionId>, sync: bool): set<Ip4>
    requires forall i :: 0 <= i < |order| ==> order[i] in want
  {
    CacheAfter(cached, before, want, order, sync) - HostsOf(before, before.Keys - want.Keys)
  }

  // ----- the cache itself, and its locks --------------------------------------

  /** The interface on record for a session. */
  function SwIfOf(now: Records, k: SessionId): nat { if k in now then now[k].swIf else 0 }

  /** What one wanted session does: a new one adds its routes in order; a known one adds what
      it gains and then deletes what it loses. */
  function OneLedger(l: Ledger, before: Records, now: Records, s: KernelSession, sync: bool): Ledger
  {
    if s.id !in before then AddAll(l, s.routes, SwIfOf(now, s.id))
    else if sync then
      var gained := Hosts(Gained(before, s, sync));
      Ledger(Point(l.cache, gained, SwIfOf(now, s.id)) - Hosts(Lost(before, s, sync)),
             l.surplus + |gained * l.cache.Keys|)
    else l
  }

  function LedgerAfter(l: Ledger, before: Records, now: Records, want: map<SessionId, KernelSession>,
                       order: seq<SessionId>, sync: bool): Ledger
    requires forall i :: 0 <= i < |order| ==> order[i] in want
  {
    if order == [] then l
    else
      var n := |order| - 1;
      OneLedger(LedgerAfter(l, before, now, want, order[..n], sync), before, now, want[order[n]], sync)
  }

  /** After a whole pass: the removed sessions' addresses are gone as well. */
  function LedgerAfterPass(l: Ledger, before: Records, now: Records, want: map<SessionId, KernelSession>,
                           order: seq<SessionId>, sync: bool): Ledger
    requires forall i :: 0 <= i < |order| ==> order[i] in want
  {
    MinusHosts(LedgerAfter(l, before, now, want, order, sync), HostsOf(before, before.Keys - want.Keys))
  }

  /** The adds of one session that hit a cached address. */
  function OneLeak(cached: set<Ip4>, before: Records, s: KernelSession, sync: bool): nat
  {
    if s.id !in before then Readded(cached, s.routes)
    else if sync then |Hosts(Gained(before, s, sync)) * cached|
    else 0
  }

  /** The adds of a pass that hit a cached address. */
  function LostLocks(cached: set<Ip4>, before: Records, want: map<SessionId, KernelSession>, order: seq<SessionId>,
                 sync: bool): nat
    requires forall i :: 0 <= i < |order| ==> order[i] in want
  {
    if order == [] then 0
    else
      var n := |order| - 1;
      LostLocks(cached, before, want, order[..n], sync)
      + OneLeak(CacheAfter(cached, before, want, order[..n], sync), before, want[order[n]], sync)
  }

  lemma OneLedgerIs(l: Ledger, before: Records, now: Records, s: KernelSession, sync: bool)
    ensures var q := OneLedger(l, before, now, s, sync);
      && q.cache == Point(l.cache, Hosts(Gained(before, s, sync)), SwIfOf(now, s.id)) - Hosts(Lost(before, s, sync))
      && q.cache.Keys == l.cache.Keys + Hosts(Gained(before, s, sync)) - Hosts(Lost(before, s, sync))
      && q.surplus == l.surplus + OneLeak(l.cache.Keys, before, s, sync)
  {
    hide Prefixes, Point, Hosts, Readded;
    var w, g, h := SwIfOf(now, s.id), Hosts(Gained(before, s, sync)), Hosts(Lost(before, s, sync));
    NoPrefixes();
    PointMinus(l.cache, g, h, w);
    if s.id !in before {
      AddAllIs(l, s.routes, w);
      PointMinus(l.cache, g, {}, w);
    } else if !sync {
      PointMinus(l.cache, {}, {}, w);
    }
  }

  lemma NoPrefixes()
    ensures Hosts({}) == {}
  {}

  lemma PointMinus(c: map<Ip4, Adjacency>, g: set<Ip4>, h: set<Ip4>, w: nat)
    ensures (Point(c, g, w) - h).Keys == c.Keys + g - h
    ensures Point(c, g, w) - {} == Point(c, g, w) && Point(c, {}, w) - {} == c
  {
    assert Point(c, {}, w) == c;
  }

  /** The addresses cached after the wanted sessions are those of `CacheAfter`, and the locks
      lost are the adds of addresses that were cached by then. */
  lemma {:induction false} LedgerKeys(l: Ledger, before: Records, now: Records, want: map<SessionId, KernelSession>,
                                      order: seq<SessionId>, sync: bool)
    requires forall i :: 0 <= i < |order| ==> order[i] in want && want[order[i]].id == order[i]
    ensures var q := LedgerAfter(l, before, now, want, order, sync);
      && q.cache.Keys == CacheAfter(l.cache.Keys, before, want, order, sync)
      && q.surplus == l.surplus + LostLocks(l.cache.Keys, before, want, order, sync)
  {
    hide OneLedger, OneLeak, Hosts, Gained, Lost;
    if order != [] {
      var n := |order| - 1;
      LedgerKeys(l, before, now, want, order[..n], sync);
      OneLedgerIs(LedgerAfter(l, before, now, want, order[..n], sync), before, now, want[order[n]], sync);
    }
  }

  /** And after a whole pass. */
  lemma PassLedger(l: Ledger, before: Records, now: Records, want: map<SessionId, KernelSession>,
                   order: seq<SessionId>, sync: bool)
    requires forall i :: 0 <= i < |order| ==> order[i] in want && want[order[i]].id == order[i]
    ensures var q := LedgerAfterPass(l, before, now, want, order, sync);
      && q.cache.Keys == CacheAfterPass(l.cache.Keys, before, want, order, sync)
      && q.surplus == l.surplus + LostLocks(l.cache.Keys, before, want, order, sync)
  {
    hide HostsOf, LedgerAfter, CacheAfter, LostLocks;
    LedgerKeys(l, before, now, want, order, sync);
  }

  /** Records that agree on the interfaces of the handled sessions make the same cache. */
  lemma {:induction false} LedgerFrame(l: Ledger, before: Records, now: Records, next: Records,
                                       want: map<SessionId, KernelSession>, order: seq<SessionId>, sync: bool)
    requires forall i :: 0 <= i < |order| ==> order[i] in want && want[order[i]].id == order[i]
    requires forall i :: 0 <= i < |order| ==> SwIfOf(next, order[i]) == SwIfOf(now, order[i])
    ensures LedgerAfter(l, before, next, want, order, sync) == LedgerAfter(l, before, now, want, order, sync)
  {
    if order != [] {
      LedgerFrame(l, before, now, next, want, order[..|order| - 1], sync);
    }
  }

  lemma LedgerStep(l: Ledger, before: Records, now: Records, want: map<SessionId, KernelSession>,
                   order: seq<SessionId>, sync: bool, i: nat)
    requires i < |order| && forall j :: 0 <= j < |order| ==> order[j] in want
    ensures LedgerAfter(l, before, now, want, order[..i + 1], sync)
            == OneLedger(LedgerAfter(l, before, now, want, order[..i], sync), before, now, want[order[i]], sync)
  {
    assert order[..i + 1][..i] == order[..i];
  }

  /** Which session a cached address belongs to: the last one that gains it. */
  lemma {:induction false} LastGainerOwns(l: Ledger, before: Records, now: Records,
                                          want: map<SessionId, KernelSession>, order: seq<SessionId>, sync: bool,
                                          d: Ip4, i: nat)
    requires forall j :: 0 <= j < |order| ==> order[j] in want && want[order[j]].id == order[j]
    requires i < |order| && Gains(before, want[order[i]], sync, d)
    requires forall j :: i < j < |order| ==> !Gains(before, want[order[j]], sync, d)
    requires d in LedgerAfter(l, before, now, want, order, sync).cache
    ensures LedgerAfter(l, before, now, want, order, sync).cache[d] == Adjacency(d, SwIfOf(now, order[i]))
  {
    hide OneLedger, Gained, Lost, Hosts, Gains, Loses;
    var n := |order| - 1;
    var s := want[order[n]];
    OneLedgerIs(LedgerAfter(l, before, now, want, order[..n], sync), before, now, s, sync);
    HostIn(Gained(before, s, sync), d);
    GainsLoses(before, s, sync, d);
    if i < n { LastGainerOwns(l, before, now, want, order[..n], sync, d, i); }
  }

  /** If no session gains it, a cached address keeps its entry. */
  lemma {:induction false} UngainedStays(l: Ledger, before: Records, now: Records,
                                         want: map<SessionId, KernelSession>, order: seq<SessionId>, sync: bool,
                                         d: Ip4)
    requires forall j :: 0 <= j < |order| ==> order[j] in want && want[order[j]].id == order[j]
    requires forall j :: 0 <= j < |order| ==> !Gains(before, want[order[j]], sync, d)
    requires d in LedgerAfter(l, before, now, want, order, sync).cache
    ensures d in l.cache && LedgerAfter(l, before, now, want, order, sync).cache[d] == l.cache[d]
  {
    hide OneLedger, Gained, Lost, Hosts, Gains, Loses;
    if order != [] {
      var n := |order| - 1;
      var s := want[order[n]];
      OneLedgerIs(LedgerAfter(l, before, now, want, order[..n], sync), before, now, s, sync);
      HostIn(Gained(before, s, sync), d);
      GainsLoses(before, s, sync, d);
      UngainedStays(l, before, now, want, order[..n], sync, d);
    }
  }

  /** A pass loses no lock exactly if no host address is added while it is cached. */
  lemma {:induction false} NoLeakIff(cached: set<Ip4>, before: Records, want: map<SessionId, KernelSession>,
                                     order: seq<SessionId>, sync: bool)
    requires forall i :: 0 <= i < |order| ==> order[i] in want
    ensures LostLocks(cached, before, want, order, sync) == 0 <==>
      forall i :: 0 <= i < |order| ==>
        OneLeak(CacheAfter(cached, before, want, order[..i], sync), before, want[order[i]], sync) == 0
  {
    hide OneLeak, CacheAfter;
    if order != [] {
      var n := |order| - 1;
      NoLeakIff(cached, before, want, order[..n], sync);
      assert forall i :: 0 <= i < n ==> order[..n][..i] == order[..i];
    }
  }

  lemma OneMoreGone(before: Records, gone: set<SessionId>, k: SessionId)
    requires k in before
    ensures HostsOf(before, gone + {k}) == HostsOf(before, gone) + Hosts(Prefixes(before[k].routes))
  {
    var a, b := HostsOf(before, gone + {k}), HostsOf(before, gone) + Hosts(Prefixes(before[k].routes));
    forall d ensures d in a <==> d in b {
      if d in a {
        var j, x :| j in gone + {k} && j in before && x in before[j].routes && Cacheable(x) && x.ip4 == d;
        if j == k { assert x in Prefixes(before[k].routes); }
      }
      if d in Hosts(Prefixes(before[k].routes)) {
        var x :| x in Prefixes(before[k].routes) && Cacheable(x) && x.ip4 == d;
        assert x in before[k].routes;
      }
    }
  }

  function MinusHosts(l: Ledger, hosts: set<Ip4>): Ledger { Ledger(l.cache - hosts, l.surplus) }

  function WithoutHosts(l: Ledger, pfxs: seq<Prefix>): Ledger { MinusHosts(l, Hosts(Prefixes(pfxs))) }

  /** Partway through the second half: `todo` are still to go, `removed` are gone. */
  predicate Removing(before: Records, want: map<SessionId, KernelSession>, todo: set<SessionId>, removed: nat,
                     l: Ledger, now: Ledger)
  {
    var all := before.Keys - want.Keys;
    && todo <= all && removed + |todo| == |all|
    && now == MinusHosts(l, HostsOf(before, all - todo))
  }

  lemma RemovalStart(before: Records, want: map<SessionId, KernelSession>, l: Ledger)
    ensures Removing(before, want, before.Keys - want.Keys, 0, l, l)
  {
    var all := before.Keys - want.Keys;
    assert all - all == {};
    NoneGone(before);
    assert l.cache - {} == l.cache;
  }

  lemma RemovalStep(before: Records, want: map<SessionId, KernelSession>, todo: set<SessionId>, removed: nat,
                    k: SessionId, l: Ledger, now: Ledger)
    requires Removing(before, want, todo, removed, l, now) && k in todo
    ensures k in before
    ensures Removing(before, want, todo - {k}, removed + 1, l, WithoutHosts(now, before[k].routes))
  {
    hide Hosts, HostsOf;
    var all := before.Keys - want.Keys;
    OneLessToDo(all, todo, k);
    OneMoreGone(before, all - todo, k);
    MinusTwice(l.cache, HostsOf(before, all - todo), Hosts(Prefixes(before[k].routes)));
  }

  lemma OneLessToDo(all: set<SessionId>, todo: set<SessionId>, k: SessionId)
    requires todo <= all && k in todo
    ensures todo - {k} <= all && |todo - {k}| == |todo| - 1 && all - (todo - {k}) == (all - todo) + {k}
  {}

  lemma MinusTwice(c: map<Ip4, Adjacency>, g: set<Ip4>, h: set<Ip4>)
    ensures c - g - h == c - (g + h)
  {}

  lemma RemovalDone(before: Records, want: map<SessionId, KernelSession>, removed: nat, l: Ledger, now: Ledger)
    requires Removing(before, want, {}, removed, l, now)
    ensures removed == |before.Keys - want.Keys|
    ensures now == MinusHosts(l, HostsOf(before, before.Keys - want.Keys))
  {
    var all := before.Keys - want.Keys;
    assert all - {} == all;
  }

  lemma NoneGone(before: Records)
    ensures HostsOf(before, {}) == {}
  {}

  /** Records that agree on the sessions in `gone` have the same host addresses for them. */
  lemma HostsOfFrame(before: Records, now: Records, gone: set<SessionId>)
    requires forall k :: k in gone ==> k in before && k in now && now[k] == before[k]
    ensures HostsOf(now, gone) == HostsOf(before, gone)
  {}

  // ----- one address ----------------------------------------------------------

  function Host(d: Ip4): Prefix { Prefix4(d, 32) }

  predicate Gains(before: Records, s: KernelSession, sync: bool, d: Ip4) { Host(d) in Gained(before, s, sync) }

  predicate Loses(before: Records, s: KernelSession, sync: bool, d: Ip4) { Host(d) in Lost(before, s, sync) }

  lemma HostIn(pfxs: set<Prefix>, d: Ip4)
    ensures d in Hosts(pfxs) <==> Host(d) in pfxs
  {
    if d in Hosts(pfxs) {
      var x :| x in pfxs && Cacheable(x) && x.ip4 == d;
      assert x == Host(d);
    }
    if Host(d) in pfxs { assert Cacheable(Host(d)); }
  }

  /** Every session that loses `d` is followed by one that gains it. */
  ghost predicate RegainedAfter(before: Records, want: map<SessionId, KernelSession>, order: seq<SessionId>,
                                sync: bool, d: Ip4)
    requires forall i :: 0 <= i < |order| ==> order[i] in want
  {
    forall i :: 0 <= i < |order| && Loses(before, want[order[i]], sync, d) ==>
      GainedBehind(before, want, order, sync, d, i)
  }

  ghost predicate GainedBehind(before: Records, want: map<SessionId, KernelSession>, order: seq<SessionId>,
                               sync: bool, d: Ip4, i: int)
    requires forall i :: 0 <= i < |order| ==> order[i] in want
  {
    exists j :: 0 <= i < j < |order| && Gains(before, want[order[j]], sync, d)
  }

  ghost predicate SomeoneGains(before: Records, want: map<SessionId, KernelSession>, order: seq<SessionId>,
                               sync: bool, d: Ip4)
    requires forall i :: 0 <= i < |order| ==> order[i] in want
  {
    exists i :: 0 <= i < |order| && Gains(before, want[order[i]], sync, d)
  }

  /** What the first half of a pass leaves cached, exactly: the addresses that were cached or
      are gained, unless a session that loses the address is handled after the last one
      that gains it. */
  lemma {:induction false} CachedIff(cached: set<Ip4>, before: Records, want: map<SessionId, KernelSession>,
                                     order: seq<SessionId>, sync: bool, d: Ip4)
    requires forall i :: 0 <= i < |order| ==> order[i] in want
    ensures d in CacheAfter(cached, before, want, order, sync) <==>
      (d in cached || SomeoneGains(before, want, order, sync, d)) && RegainedAfter(before, want, order, sync, d)
  {
    hide Gains, Loses, Hosts, Gained, Lost;
    if order != [] {
      var n := |order| - 1;
      var s, rest := want[order[n]], order[..n];
      CachedIff(cached, before, want, rest, sync, d);
      HostIn(Gained(before, s, sync), d);
      HostIn(Lost(before, s, sync), d);
      GainsLoses(before, s, sync, d);
      if Gains(before, s, sync, d) {
        assert SomeoneGains(before, want, order, sync, d);
        forall i | 0 <= i < |order| && Loses(before, want[order[i]], sync, d)
          ensures GainedBehind(before, want, order, sync, d, i)
        {
          assert i < n && Gains(before, want[order[n]], sync, d);
        }
      } else if Loses(before, s, sync, d) {
        assert !GainedBehind(before, want, order, sync, d, n);
      } else {
        QuietStep(before, want, order, sync, d);
      }
    }
  }

  lemma GainsLoses(before: Records, s: KernelSession, sync: bool, d: Ip4)
    ensures Gains(before, s, sync, d) <==> Host(d) in Gained(before, s, sync)
    ensures Loses(before, s, sync, d) <==> Host(d) in Lost(before, s, sync)
    ensures !(Gains(before, s, sync, d) && Loses(before, s, sync, d))
  {}

  lemma QuietStep(before: Records, want: map<SessionId, KernelSession>, order: seq<SessionId>, sync: bool, d: Ip4)
    requires order != [] && forall i :: 0 <= i < |order| ==> order[i] in want
    requires var s := want[order[|order| - 1]]; !Gains(before, s, sync, d) && !Loses(before, s, sync, d)
    ensures var rest := order[..|order| - 1];
      && (SomeoneGains(before, want, order, sync, d) <==> SomeoneGains(before, want, rest, sync, d))
      && (RegainedAfter(before, want, order, sync, d) <==> RegainedAfter(before, want, rest, sync, d))
  {
    hide Gains, Loses, GainedBehind;
    var n := |order| - 1;
    var rest := order[..n];
    forall i | 0 <= i < n
      ensures GainedBehind(before, want, order, sync, d, i) <==> GainedBehind(before, want, rest, sync, d, i)
    {
      QuietBehind(before, want, order, sync, d, i);
    }
    assert forall i :: 0 <= i < n ==> rest[i] == order[i];
    QuietGains(before, want, order, sync, d);
  }

  lemma QuietBehind(before: Records, want: map<SessionId, KernelSession>, order: seq<SessionId>, sync: bool, d: Ip4,
                    i: int)
    requires order != [] && forall i :: 0 <= i < |order| ==> order[i] in want
    requires !Gains(before, want[order[|order| - 1]], sync, d) && 0 <= i < |order| - 1
    ensures GainedBehind(before, want, order, sync, d, i)
            <==> GainedBehind(before, want, order[..|order| - 1], sync, d, i)
  {
    hide Gains;
    var n := |order| - 1;
    var rest := order[..n];
    if GainedBehind(before, want, order, sync, d, i) {
      var j :| 0 <= i < j < |order| && Gains(before, want[order[j]], sync, d);
      assert Gains(before, want[rest[j]], sync, d);
    }
    if GainedBehind(before, want, rest, sync, d, i) {
      var j :| 0 <= i < j < n && Gains(before, want[rest[j]], sync, d);
      assert Gains(before, want[order[j]], sync, d);
    }
  }

  lemma QuietGains(before: Records, want: map<SessionId, KernelSession>, order: seq<SessionId>, sync: bool, d: Ip4)
    requires order != [] && forall i :: 0 <= i < |order| ==> order[i] in want
    requires !Gains(before, want[order[|order| - 1]], sync, d)
    ensures SomeoneGains(before, want, order, sync, d) <==> SomeoneGains(before, want, order[..|order| - 1], sync, d)
  {
    hide Gains;
    var n := |order| - 1;
    var rest := order[..n];
    if SomeoneGains(before, want, rest, sync, d) {
      var i :| 0 <= i < n && Gains(before, want[rest[i]], sync, d);
      assert Gains(before, want[order[i]], sync, d);
    }
    if SomeoneGains(before, want, order, sync, d) {
      var i :| 0 <= i < |order| && Gains(before, want[order[i]], sync, d);
      assert Gains(before, want[rest[i]], sync, d);
    }
  }

  /** A session that is removed in the pass had the address. */
  predicate RemovedHad(before: Records, want: map<SessionId, KernelSession>, d: Ip4)
  {
    exists k :: k in before && k !in want && Host(d) in before[k].routes
  }

  /** What a whole pass leaves cached, exactly. */
  lemma CachedAfterPassIff(cached: set<Ip4>, before: Records, want: map<SessionId, KernelSession>,
                           order: seq<SessionId>, sync: bool, d: Ip4)
    requires forall i :: 0 <= i < |order| ==> order[i] in want
    ensures d in CacheAfterPass(cached, before, want, order, sync) <==>
      && (d in cached || SomeoneGains(before, want, order, sync, d))
      && RegainedAfter(before, want, order, sync, d)
      && !RemovedHad(before, want, d)
  {
    hide CacheAfter, SomeoneGains, RegainedAfter;
    CachedIff(cached, before, want, order, sync, d);
    var gone := before.Keys - want.Keys;
    if d in HostsOf(before, gone) {
      var k, x :| k in gone && k in before && x in before[k].routes && Cacheable(x) && x.ip4 == d;
      assert x == Host(d);
    }
    if RemovedHad(before, want, d) {
      var k :| k in before && k !in want && Host(d) in before[k].routes;
      assert k in gone && Cacheable(Host(d));
    }
  }

  /** Every recorded host route has its shortcut. */
  predicate Complete(cached: set<Ip4>, inst: Records)
  {
    forall k, x :: k in inst && x in inst[k].routes && Cacheable(x) ==> x.ip4 in cached
  }

  /** No host address that one session gives up in this pass is on record for another after it. */
  ghost predicate NoMoves(before: Records, now: Records)
  {
    forall j, k, x :: GivesUp(before, now, j, x) && Cacheable(x) && k in now ==> x !in now[k].routes
  }

  predicate GivesUp(before: Records, now: Records, j: SessionId, x: Prefix)
  {
    j in before && x in before[j].routes && (j in now ==> x !in now[j].routes)
  }

  /** As long as no host address moves between sessions, the cache stays complete: if every
      recorded host route had its shortcut before a pass, every one has after it. */
  lemma CompleteUnlessMoved(cached: set<Ip4>, before: Records, now: Records, want: map<SessionId, KernelSession>,
                            order: seq<SessionId>, sync: bool)
    requires Lists(order, want) && (forall j :: j in want ==> want[j].id == j) && PassDone(before, now, want, sync)
    requires Complete(cached, before) && NoMoves(before, now)
    ensures (forall i :: 0 <= i < |order| ==> order[i] in want)
    ensures Complete(CacheAfterPass(cached, before, want, order, sync), now)
  {
    hide CacheAfterPass, NoMoves, PassDone, Complete, Lists;
    InWant(order, want);
    forall k, d: Ip4 | k in now && Host(d) in now[k].routes
      ensures d in CacheAfterPass(cached, before, want, order, sync)
    {
      StaysCached(cached, before, now, want, order, sync, k, d);
    }
    ByHost(CacheAfterPass(cached, before, want, order, sync), now);
  }

  lemma InWant(order: seq<SessionId>, want: map<SessionId, KernelSession>)
    requires Lists(order, want)
    ensures forall i :: 0 <= i < |order| ==> order[i] in want
  {
    forall i | 0 <= i < |order| ensures order[i] in want { assert order[i] in order; }
  }

  lemma ByHost(cached: set<Ip4>, inst: Records)
    requires forall k, d: Ip4 :: k in inst && Host(d) in inst[k].routes ==> d in cached
    ensures Complete(cached, inst)
  {
    forall k, x | k in inst && x in inst[k].routes && Cacheable(x) ensures x.ip4 in cached {
      assert x == Host(x.ip4);
    }
  }

  lemma StaysCached(cached: set<Ip4>, before: Records, now: Records, want: map<SessionId, KernelSession>,
                    order: seq<SessionId>, sync: bool, k: SessionId, d: Ip4)
    requires Lists(order, want) && (forall j :: j in want ==> want[j].id == j) && PassDone(before, now, want, sync)
    requires Complete(cached, before) && NoMoves(before, now)
    requires forall i :: 0 <= i < |order| ==> order[i] in want
    requires k in now && Host(d) in now[k].routes
    ensures d in CacheAfterPass(cached, before, want, order, sync)
  {
    hide CacheAfterPass;
    CachedAfterPassIff(cached, before, want, order, sync, d);
    var x := Host(d);
    assert Cacheable(x);
    assert forall j :: !GivesUp(before, now, j, x);
    forall i | 0 <= i < |order| ensures !Loses(before, want[order[i]], sync, d) {
      var j := order[i];
      assert !GivesUp(before, now, j, x);
      assert sync ==> RoutesMatch(now, want, j);
      assert x in Prefixes(want[j].routes) <==> x in want[j].routes;
    }
    forall j | j in before && j !in want ensures x !in before[j].routes {
      assert !GivesUp(before, now, j, x);
    }
    if d !in cached {
      assert k in order;
      var i :| 0 <= i < |order| && order[i] == k;
      assert RoutesMatch(now, want, k);
      assert x in Prefixes(now[k].routes);
      assert Gains(before, want[order[i]], sync, d);
    }
  }

  /** A host address that moves from session `a` to session `b` in one pass with route sync
      keeps its shortcut if and only if `a` is still wanted and comes before `b` in the
      kernel's list. (Its route always ends up on `b`.) */
  lemma MovedHostIff(cached: set<Ip4>, before: Records, want: map<SessionId, KernelSession>, order: seq<SessionId>,
                     d: Ip4, a: SessionId, b: SessionId, at: nat)
    requires Lists(order, want) && (forall j :: j in want ==> want[j].id == j)
    requires a in before && Host(d) in before[a].routes && a != b
    requires forall j :: j in before && Host(d) in before[j].routes ==> j == a
    requires at < |order| && order[at] == b
    requires forall j :: j in want ==> (Host(d) in want[j].routes <==> j == b)
    ensures (forall i :: 0 <= i < |order| ==> order[i] in want)
    ensures d in CacheAfterPass(cached, before, want, order, true) <==> a in order[..at]
  {
    hide CacheAfterPass;
    forall i | 0 <= i < |order| ensures order[i] in want { assert order[i] in order; }
    CachedAfterPassIff(cached, before, want, order, true, d);
    forall i | 0 <= i < |order|
      ensures Gains(before, want[order[i]], true, d) <==> i == at
      ensures Loses(before, want[order[i]], true, d) <==> order[i] == a
    {
      OneMover(before, want[order[i]], d, a, b);
    }
    assert RemovedHad(before, want, d) <==> a !in want;
    if a in order[..at] {
      forall i | 0 <= i < |order| && Loses(before, want[order[i]], true, d)
        ensures GainedBehind(before, want, order, true, d, i)
      {
        var m :| 0 <= m < at && order[..at][m] == a;
        assert i == m && Gains(before, want[order[at]], true, d);
      }
    } else if a in want {
      assert a in order;
      var i :| 0 <= i < |order| && order[i] == a;
      assert forall m :: 0 <= m < at ==> order[m] in order[..at];
      assert !GainedBehind(before, want, order, true, d, i);
    }
  }

  lemma OneMover(before: Records, s: KernelSession, d: Ip4, a: SessionId, b: SessionId)
    requires a in before && Host(d) in before[a].routes && a != b
    requires forall j :: j in before && Host(d) in before[j].routes ==> j == a
    requires Host(d) in s.routes <==> s.id == b
    ensures Gains(before, s, true, d) <==> s.id == b
    ensures Loses(before, s, true, d) <==> s.id == a
  {}

  // ----- the cache against the FIB --------------------------------------------

  /** With records and tables in sync and every recorded host route cached, the cached addresses
      are exactly those with a host route of the plugin. */
  lemma CacheIsFib(p: Plugin, inst: Records, d: Ip4)
    requires Settled(p, inst) && Complete(p.cache.Keys, inst)
    ensures d in p.cache <==> FibChoices(p, d) != {}
    ensures d in p.cache ==> p.cache[d].swIf in FibChoices(p, d)
  {
    hide TunnelKeysUnique, KeyIndexOk, CountsOk, LocalIpsOk, Anchored, RecordsOk;
    if d in p.cache {
      assert Route(Host(d), p.cache[d].swIf) in p.fib;
      assert p.cache[d].swIf in FibChoices(p, d);
    }
    if FibChoices(p, d) != {} {
      var w :| w in FibChoices(p, d);
      var r :| r in p.fib && r.pfx == Host(d);
      assert Recorded(p, inst, r) && Cacheable(r.pfx);
      assert r.pfx in inst[Owner(p, r.swIf)].routes;
    }
  }

  /** And then the shortcut takes exactly the plain IPv4 packets for whose destination the
      plugin has a host route, and sends them over one of its paths. */
  lemma ShortcutsExact(p: Plugin, inst: Records, b: Buffer)
    requires Settled(p, inst) && Complete(p.cache.Keys, inst)
    ensures var f := Current(b); var (next, c) := Shortcut(b, p.cache);
      && (next.Ip4Midchain? <==> PlainIp4(f) && FibChoices(p, f[30..34]) != {})
      && (next.Ip4Midchain? ==> next.adj.swIf in FibChoices(p, f[30..34]) && next.adj.dst == f[30..34]
                                && c == b.(pos := b.pos + 14, len := b.len - 14))
      && (!next.Ip4Midchain? ==> c == b)
  {
    hide Shortcut, InSync, Complete, FibChoices, TablesOk;
    var f := Current(b);
    ShortcutIff(b, p.cache);
    if PlainIp4(f) { CacheIsFib(p, inst, f[30..34]); }
  }
}
