/** Worker distribution as a protocol: one receiving thread feeds FIFO queues that drop
    when full, and workers drain them, in any interleaving. */
module Fabric {
  import opened Bytes

  /** `arrived` and `done` are the histories at the receiving thread and at the consumer of
      each channel; `dropped` are the packets refused by a full queue. */
  datatype State<P, C(==)> = State(
    arrived: seq<P>, queues: map<C, seq<P>>, done: map<C, seq<P>>, dropped: seq<P>)

  /** A packet arrives and is offered to the queue of its channel, or the consumer of a channel
      takes the oldest one. `room` is false when the queue cannot take the packet although
      it holds fewer than its depth, as consumers free their slots with a delay. */
  datatype Event<P, C> = Arrive(p: P, room: bool) | Serve(c: C)

  function At<P, C>(m: map<C, seq<P>>, c: C): seq<P> { if c in m then m[c] else [] }

  /** The packets that belong to channel `c`. */
  function On<P, C(==)>(chan: P -> C, c: C): P -> bool { (p: P) => chan(p) == c }

  function Start<P, C(==)>(): State<P, C> { State([], map[], map[], []) }

  /** A queue of bounded depth may refuse at any time and must refuse when full; a channel
      without a depth is no queue between threads and never refuses. */
  predicate Accepts(depth: Option<nat>, queued: nat, room: bool)
  {
    depth.None? || (room && queued < depth.value)
  }

  function Step<P, C(==)>(chan: P -> C, depth: C -> Option<nat>, s: State<P, C>, e: Event<P, C>): State<P, C>
  {
    match e
    case Arrive(p, room) =>
      var c := chan(p);
      if Accepts(depth(c), |At(s.queues, c)|, room) then
        s.(arrived := s.arrived + [p], queues := s.queues[c := At(s.queues, c) + [p]])
      else
        s.(arrived := s.arrived + [p], dropped := s.dropped + [p])
    case Serve(c) =>
      var q := At(s.queues, c);
      if q == [] then s
      else s.(queues := s.queues[c := q[1..]], done := s.done[c := At(s.done, c) + [q[0]]])
  }

  /** The state after `events`, from `s`. */
  function After<P, C(==)>(chan: P -> C, depth: C -> Option<nat>, s: State<P, C>, events: seq<Event<P, C>>): State<P, C>
  {
    if events == [] then s
    else Step(chan, depth, After(chan, depth, s, events[..|events| - 1]), events[|events| - 1])
  }

  function Run<P, C(==)>(chan: P -> C, depth: C -> Option<nat>, events: seq<Event<P, C>>): State<P, C>
  {
    After(chan, depth, Start(), events)
  }

  /** A frame offered to the queues, packet by packet. */
  function Arrivals<P, C>(ps: seq<P>, room: seq<bool>): (es: seq<Event<P, C>>)
    requires |room| == |ps|
    ensures |es| == |ps|
  {
    seq(|ps|, i requires 0 <= i < |ps| => Arrive(ps[i], room[i]))
  }

  lemma OneMoreArrival<P, C>(chan: P -> C, depth: C -> Option<nat>, s: State<P, C>, ps: seq<P>, room: seq<bool>, i: nat)
    requires i < |ps| == |room|
    ensures After(chan, depth, s, Arrivals(ps[..i + 1], room[..i + 1]))
            == Step(chan, depth, After(chan, depth, s, Arrivals(ps[..i], room[..i])), Arrive(ps[i], room[i]))
  {
    assert Arrivals<P, C>(ps[..i + 1], room[..i + 1])[..i] == Arrivals(ps[..i], room[..i]);
  }

  /** vlib_buffer_enqueue_to_thread: offer a frame to the queues of the chosen channels and
      count what they took. */
  method Enqueue<P, C(==)>(ps: seq<P>, targets: seq<C>, room: seq<bool>, ghost chan: P -> C, depth: C -> Option<nat>,
                           s: State<P, C>)
    returns (s': State<P, C>, enqueued: nat)
    requires |room| == |targets| == |ps| && forall i :: 0 <= i < |ps| ==> targets[i] == chan(ps[i])
    ensures s' == After(chan, depth, s, Arrivals(ps, room))
    ensures enqueued <= |ps| && enqueued + |s'.dropped| == |s.dropped| + |ps|
  {
    hide After, Arrivals;
    s', enqueued := s, 0;
    assert After(chan, depth, s, Arrivals(ps[..0], room[..0])) == s by { NoArrivals(chan, depth, s, ps, room); }
    for i := 0 to |ps|
      invariant s' == After(chan, depth, s, Arrivals(ps[..i], room[..i]))
      invariant enqueued <= i && enqueued + |s'.dropped| == |s.dropped| + i
    {
      OneMoreArrival(chan, depth, s, ps, room, i);
      var c := targets[i];
      if Accepts(depth(c), |At(s'.queues, c)|, room[i]) {
        s' := s'.(arrived := s'.arrived + [ps[i]], queues := s'.queues[c := At(s'.queues, c) + [ps[i]]]);
        enqueued := enqueued + 1;
      } else {
        s' := s'.(arrived := s'.arrived + [ps[i]], dropped := s'.dropped + [ps[i]]);
      }
    }
    assert ps[..|ps|] == ps && room[..|ps|] == room;
  }

  lemma NoArrivals<P, C>(chan: P -> C, depth: C -> Option<nat>, s: State<P, C>, ps: seq<P>, room: seq<bool>)
    ensures After(chan, depth, s, Arrivals(ps[..0], room[..0])) == s
  {}

  // ----- what a channel has seen ----------------------------------------------

  /** Of the packets `mine`, `seen` were accepted, in the same order, and `lost` were not. */
  ghost predicate LaneOk<P>(seen: seq<P>, mine: seq<P>, lost: seq<P>)
  {
    IsSubsequence(seen, mine) && multiset(mine) == multiset(seen) + multiset(lost)
  }

  lemma LaneTake<P>(seen: seq<P>, mine: seq<P>, lost: seq<P>, p: P)
    requires LaneOk(seen, mine, lost)
    ensures LaneOk(seen + [p], mine + [p], lost)
  {
    SubsequenceTake(seen, mine, p);
  }

  lemma LaneDrop<P>(seen: seq<P>, mine: seq<P>, lost: seq<P>, p: P)
    requires LaneOk(seen, mine, lost)
    ensures LaneOk(seen, mine + [p], lost + [p])
  {
    SubsequenceSkip(seen, mine, p);
  }

  /** What channel `c` has seen: consumed and queued packets, in this order, are some of its
      arrivals in arrival order; the queue fits; and every arrival of the channel is
      consumed, queued or dropped, exactly once. */
  ghost predicate ChannelOk<P, C>(chan: P -> C, depth: C -> Option<nat>, s: State<P, C>, c: C)
  {
    && LaneOk(At(s.done, c) + At(s.queues, c), Filter(s.arrived, On(chan, c)), Filter(s.dropped, On(chan, c)))
    && (depth(c).Some? ==> |At(s.queues, c)| <= depth(c).value)
  }

  /** What an arrival does at channel `c`. */
  lemma ArriveAt<P, C>(chan: P -> C, depth: C -> Option<nat>, s: State<P, C>, p: P, room: bool, c: C)
    ensures var t := Step(chan, depth, s, Arrive(p, room));
      var taken := Accepts(depth(c), |At(s.queues, c)|, room);
      && t.arrived == s.arrived + [p] && At(t.done, c) == At(s.done, c)
      && (chan(p) == c && taken ==> At(t.queues, c) == At(s.queues, c) + [p] && t.dropped == s.dropped)
      && (chan(p) == c && !taken ==> At(t.queues, c) == At(s.queues, c) && t.dropped == s.dropped + [p])
      && (chan(p) != c ==> At(t.queues, c) == At(s.queues, c) && t.dropped in [s.dropped, s.dropped + [p]])
  {}

  lemma FitsOneMore(depth: Option<nat>, queued: nat, room: bool)
    requires Accepts(depth, queued, room)
    ensures depth.Some? ==> queued + 1 <= depth.value
  {}

  lemma ArriveKeeps<P, C>(chan: P -> C, depth: C -> Option<nat>, s: State<P, C>, p: P, room: bool, c: C)
    requires ChannelOk(chan, depth, s, c)
    ensures ChannelOk(chan, depth, Step(chan, depth, s, Arrive(p, room)), c)
  {
    hide LaneOk, Filter, Step, Accepts, At;
    var seen := At(s.done, c) + At(s.queues, c);
    var mine, lost := Filter(s.arrived, On(chan, c)), Filter(s.dropped, On(chan, c));
    ArriveAt(chan, depth, s, p, room, c);
    FilterSnoc(s.arrived, p, On(chan, c));
    FilterSnoc(s.dropped, p, On(chan, c));
    assert mine + [] == mine && lost + [] == lost;
    if chan(p) == c {
      if Accepts(depth(c), |At(s.queues, c)|, room) {
        FitsOneMore(depth(c), |At(s.queues, c)|, room);
        LaneTake(seen, mine, lost, p);
        assert At(s.done, c) + (At(s.queues, c) + [p]) == seen + [p];
      } else {
        LaneDrop(seen, mine, lost, p);
      }
    }
  }

  lemma ServeKeeps<P, C>(chan: P -> C, depth: C -> Option<nat>, s: State<P, C>, e: C, c: C)
    requires ChannelOk(chan, depth, s, c)
    ensures ChannelOk(chan, depth, Step(chan, depth, s, Serve(e)), c)
  {
    hide LaneOk, Filter;
    var q := At(s.queues, c);
    if e == c && q != [] {
      assert At(s.done, c) + [q[0]] + q[1..] == At(s.done, c) + q;
    }
  }

  lemma {:induction false} AfterKeepsChannel<P, C>(chan: P -> C, depth: C -> Option<nat>, s: State<P, C>,
                                                   events: seq<Event<P, C>>, c: C)
    requires ChannelOk(chan, depth, s, c)
    ensures ChannelOk(chan, depth, After(chan, depth, s, events), c)
  {
    hide ChannelOk;
    if events != [] {
      var n := |events| - 1;
      AfterKeepsChannel(chan, depth, s, events[..n], c);
      match events[n]
      case Arrive(p, room) => ArriveKeeps(chan, depth, After(chan, depth, s, events[..n]), p, room, c);
      case Serve(e) => ServeKeeps(chan, depth, After(chan, depth, s, events[..n]), e, c);
    }
  }

  lemma RunKeepsChannel<P, C>(chan: P -> C, depth: C -> Option<nat>, events: seq<Event<P, C>>, c: C)
    ensures ChannelOk(chan, depth, Run(chan, depth, events), c)
  {
    AfterKeepsChannel(chan, depth, Start(), events, c);
  }

  // ----- order ----------------------------------------------------------------

  /** `received` lists the arrivals; channel by channel it is the order they were offered in. */
  ghost predicate SameArrivals<P, C(!new)>(chan: P -> C, s: State<P, C>, received: seq<P>)
  {
    forall c: C :: Filter(s.arrived, On(chan, c)) == Filter(received, On(chan, c))
  }

  /** Packets that all map to one channel are consumed there and nowhere else, in an order
      that is a subsequence of the order in which they were received. */
  lemma InOrder<P, C(!new)>(chan: P -> C, depth: C -> Option<nat>, s: State<P, C>, received: seq<P>,
                            kin: P -> bool, home: C)
    requires forall c: C :: ChannelOk(chan, depth, s, c)
    requires SameArrivals(chan, s, received)
    requires forall p :: p in received && kin(p) ==> chan(p) == home
    ensures IsSubsequence(Filter(At(s.done, home), kin), Filter(received, kin))
    ensures forall c :: c != home ==> Filter(At(s.done, c), kin) == []
  {
    hide Filter, IsSubsequence;
    var mine := Filter(received, On(chan, home));
    assert ChannelOk(chan, depth, s, home);
    SubsequencePrefix(At(s.done, home), At(s.queues, home), mine);
    SubsequenceFilter(At(s.done, home), mine, kin);
    FilterFilter(received, On(chan, home), kin);
    forall c | c != home ensures Filter(At(s.done, c), kin) == [] {
      NotElsewhere(chan, depth, s, received, kin, c);
    }
  }

  lemma NotElsewhere<P, C(!new)>(chan: P -> C, depth: C -> Option<nat>, s: State<P, C>, received: seq<P>,
                                 kin: P -> bool, c: C)
    requires ChannelOk(chan, depth, s, c) && SameArrivals(chan, s, received)
    requires forall p :: p in received && kin(p) ==> chan(p) != c
    ensures Filter(At(s.done, c), kin) == []
  {
    hide Filter, IsSubsequence;
    SubsequencePrefix(At(s.done, c), At(s.queues, c), Filter(received, On(chan, c)));
    SubsequenceMembers(At(s.done, c), Filter(received, On(chan, c)));
    FilterKeeps(received, On(chan, c));
    FilterEmpty(At(s.done, c), kin);
  }

  /** Order over whole runs of arrivals and consumers. */
  lemma ConsumedInOrder<P, C(!new)>(chan: P -> C, depth: C -> Option<nat>, events: seq<Event<P, C>>,
                                    kin: P -> bool, home: C)
    requires forall p :: p in Run(chan, depth, events).arrived && kin(p) ==> chan(p) == home
    ensures var s := Run(chan, depth, events);
      && IsSubsequence(Filter(At(s.done, home), kin), Filter(s.arrived, kin))
      && forall c :: c != home ==> Filter(At(s.done, c), kin) == []
  {
    var s := Run(chan, depth, events);
    forall c: C ensures ChannelOk(chan, depth, s, c) {
      RunKeepsChannel(chan, depth, events, c);
    }
    InOrder(chan, depth, s, s.arrived, kin, home);
  }

  // ----- channels do not interfere --------------------------------------------

  /** The events that concern channel `c`. */
  function Concerns<P, C(==)>(chan: P -> C, c: C): Event<P, C> -> bool
  {
    (e: Event<P, C>) => match e case Arrive(p, _) => chan(p) == c case Serve(d) => d == c
  }

  /** Two states that channel `c` cannot tell apart. */
  ghost predicate AgreeAt<P, C>(chan: P -> C, s: State<P, C>, t: State<P, C>, c: C)
  {
    && At(s.queues, c) == At(t.queues, c) && At(s.done, c) == At(t.done, c)
    && Filter(s.arrived, On(chan, c)) == Filter(t.arrived, On(chan, c))
    && Filter(s.dropped, On(chan, c)) == Filter(t.dropped, On(chan, c))
  }

  lemma StepElsewhere<P, C>(chan: P -> C, depth: C -> Option<nat>, s: State<P, C>, e: Event<P, C>, c: C)
    requires !Concerns(chan, c)(e)
    ensures AgreeAt(chan, Step(chan, depth, s, e), s, c)
  {
    hide Filter;
    if e.Arrive? {
      FilterSnoc(s.arrived, e.p, On(chan, c));
      FilterSnoc(s.dropped, e.p, On(chan, c));
    }
  }

  lemma StepAlike<P, C>(chan: P -> C, depth: C -> Option<nat>, s: State<P, C>, t: State<P, C>, e: Event<P, C>, c: C)
    requires AgreeAt(chan, s, t, c) && Concerns(chan, c)(e)
    ensures AgreeAt(chan, Step(chan, depth, s, e), Step(chan, depth, t, e), c)
  {
    hide Filter;
    if e.Arrive? {
      FilterSnoc(s.arrived, e.p, On(chan, c));
      FilterSnoc(s.dropped, e.p, On(chan, c));
      FilterSnoc(t.arrived, e.p, On(chan, c));
      FilterSnoc(t.dropped, e.p, On(chan, c));
    }
  }

  /** For channel `c` the events that concern it are all that matters. */
  lemma {:induction false} Projected<P, C>(chan: P -> C, depth: C -> Option<nat>, s: State<P, C>,
                                           events: seq<Event<P, C>>, c: C)
    ensures AgreeAt(chan, After(chan, depth, s, events), After(chan, depth, s, Filter(events, Concerns(chan, c))), c)
  {
    hide AgreeAt, Step;
    if events == [] {
      assert AgreeAt(chan, s, s, c) by { Reflexive(chan, s, c); }
    } else {
      var n := |events| - 1;
      var e, mine := events[n], Filter(events[..n], Concerns(chan, c));
      var u, v := After(chan, depth, s, events[..n]), After(chan, depth, s, mine);
      Projected(chan, depth, s, events[..n], c);
      if Concerns(chan, c)(e) {
        StepAlike(chan, depth, u, v, e, c);
        assert (mine + [e])[..|mine|] == mine;
      } else {
        StepElsewhere(chan, depth, u, e, c);
        Transitive(chan, Step(chan, depth, u, e), u, v, c);
        assert mine + [] == mine;
      }
    }
  }

  lemma Reflexive<P, C>(chan: P -> C, s: State<P, C>, c: C)
    ensures AgreeAt(chan, s, s, c)
  {}

  lemma Transitive<P, C>(chan: P -> C, s: State<P, C>, t: State<P, C>, u: State<P, C>, c: C)
    requires AgreeAt(chan, s, t, c) && AgreeAt(chan, t, u, c)
    ensures AgreeAt(chan, s, u, c) && AgreeAt(chan, u, s, c)
  {}

  /** Two schedules with the same events for channel `c`, in the same order, leave it alike. */
  lemma SameForChannel<P, C>(chan: P -> C, depth: C -> Option<nat>, s: State<P, C>,
                             es: seq<Event<P, C>>, fs: seq<Event<P, C>>, c: C)
    requires Filter(es, Concerns(chan, c)) == Filter(fs, Concerns(chan, c))
    ensures AgreeAt(chan, After(chan, depth, s, es), After(chan, depth, s, fs), c)
  {
    hide AgreeAt;
    var u, v := After(chan, depth, s, es), After(chan, depth, s, fs);
    var m := After(chan, depth, s, Filter(es, Concerns(chan, c)));
    Projected(chan, depth, s, es, c);
    Projected(chan, depth, s, fs, c);
    Transitive(chan, v, m, m, c) by { Reflexive(chan, m, c); }
    Transitive(chan, u, m, v, c);
  }

  /** States alike on every channel have dropped the same packets. */
  lemma SameDrops<P, C(!new)>(chan: P -> C, s: State<P, C>, t: State<P, C>)
    requires forall c: C :: AgreeAt(chan, s, t, c)
    ensures multiset(s.dropped) == multiset(t.dropped) && |s.dropped| == |t.dropped|
  {
    forall p: P ensures multiset(s.dropped)[p] == multiset(t.dropped)[p] {
      assert AgreeAt(chan, s, t, chan(p));
      FilterCount(s.dropped, On(chan, chan(p)), p);
      FilterCount(t.dropped, On(chan, chan(p)), p);
    }
    assert multiset(s.dropped) == multiset(t.dropped);
    assert |s.dropped| == |multiset(s.dropped)| && |t.dropped| == |multiset(t.dropped)|;
  }

  lemma {:induction false} ArrivedInOrder<P, C>(chan: P -> C, depth: C -> Option<nat>, s: State<P, C>,
                                                ps: seq<P>, room: seq<bool>)
    requires |room| == |ps|
    ensures After(chan, depth, s, Arrivals(ps, room)).arrived == s.arrived + ps
  {
    if ps != [] {
      var n := |ps| - 1;
      ArrivedInOrder(chan, depth, s, ps[..n], room[..n]);
      assert Arrivals<P, C>(ps, room)[..n] == Arrivals(ps[..n], room[..n]);
      assert ps == ps[..n] + [ps[n]];
    }
  }

  // ----- service --------------------------------------------------------------

  /** An arrival is queued behind what its channel holds, unless its queue is full or has no
      room for it, when it is dropped. Other channels see nothing of it. */
  lemma OfferExact<P, C>(chan: P -> C, depth: C -> Option<nat>, s: State<P, C>, p: P, room: bool)
    ensures var t := Step(chan, depth, s, Arrive(p, room)); var c := chan(p); var q := At(s.queues, c);
      && t.arrived == s.arrived + [p] && t.done == s.done
      && (if depth(c).None? || (room && |q| < depth(c).value)
          then t.queues == s.queues[c := q + [p]] && t.dropped == s.dropped
          else t.queues == s.queues && t.dropped == s.dropped + [p])
  {}

  lemma OneTaken<P, C>(chan: P -> C, depth: C -> Option<nat>, s: State<P, C>, c: C)
    ensures var t := Step(chan, depth, s, Serve(c)); var q := At(s.queues, c);
      && t.arrived == s.arrived && t.dropped == s.dropped
      && (q == [] ==> t == s)
      && (q != [] ==> At(t.queues, c) == q[1..] && At(t.done, c) == At(s.done, c) + [q[0]])
      && forall d :: d != c ==> At(t.queues, d) == At(s.queues, d) && At(t.done, d) == At(s.done, d)
  {}

  /** A consumer that takes some packets takes the oldest ones, in order, and nothing else. */
  lemma {:induction false} Drains<P, C>(chan: P -> C, depth: C -> Option<nat>, s: State<P, C>, c: C,
                                        takes: seq<Event<P, C>>)
    requires |takes| <= |At(s.queues, c)| && forall i :: 0 <= i < |takes| ==> takes[i] == Serve(c)
    ensures var t := After(chan, depth, s, takes); var n := |takes|;
      && At(t.queues, c) == At(s.queues, c)[n..]
      && At(t.done, c) == At(s.done, c) + At(s.queues, c)[..n]
      && t.arrived == s.arrived && t.dropped == s.dropped
      && forall d :: d != c ==> At(t.queues, d) == At(s.queues, d) && At(t.done, d) == At(s.done, d)
  {
    hide Step, At;
    if takes != [] {
      var n := |takes| - 1;
      Drains(chan, depth, s, c, takes[..n]);
      OneTaken(chan, depth, After(chan, depth, s, takes[..n]), c);
      OneMoreTaken(At(s.queues, c), n);
    }
  }

  lemma OneMoreTaken<P>(q: seq<P>, n: nat)
    requires n < |q|
    ensures q[n..][0] == q[n] && q[n..][1..] == q[n + 1..] && q[..n] + [q[n]] == q[..n + 1]
  {}

  /** The queue of `c` never lacks room. */
  ghost predicate AlwaysRoom<P, C>(chan: P -> C, events: seq<Event<P, C>>, c: C)
  {
    forall i :: 0 <= i < |events| && events[i].Arrive? && chan(events[i].p) == c ==> events[i].room
  }

  /** Nothing is dropped without need: while no more packets have come in than a queue can
      hold, and it has room, every one of them is consumed or queued, in order. */
  lemma {:induction false} NothingDropped<P, C>(chan: P -> C, depth: C -> Option<nat>, events: seq<Event<P, C>>, c: C)
    requires AlwaysRoom(chan, events, c)
    requires depth(c).Some? ==> |Filter(Run(chan, depth, events).arrived, On(chan, c))| <= depth(c).value
    ensures var s := Run(chan, depth, events);
      && Filter(s.dropped, On(chan, c)) == []
      && At(s.done, c) + At(s.queues, c) == Filter(s.arrived, On(chan, c))
  {
    if events != [] {
      var n := |events| - 1;
      var u, e := Run(chan, depth, events[..n]), events[n];
      ArrivalsGrow(chan, depth, u, e, c);
      NothingDropped(chan, depth, events[..n], c);
      StaysLossless(chan, depth, u, e, c);
    }
  }

  lemma ArrivalsGrow<P, C>(chan: P -> C, depth: C -> Option<nat>, u: State<P, C>, e: Event<P, C>, c: C)
    ensures |Filter(u.arrived, On(chan, c))| <= |Filter(Step(chan, depth, u, e).arrived, On(chan, c))|
  {
    hide Filter;
    if e.Arrive? { FilterSnoc(u.arrived, e.p, On(chan, c)); }
  }

  /** One event more without a loss. */
  lemma StaysLossless<P, C>(chan: P -> C, depth: C -> Option<nat>, u: State<P, C>, e: Event<P, C>, c: C)
    requires Filter(u.dropped, On(chan, c)) == []
    requires At(u.done, c) + At(u.queues, c) == Filter(u.arrived, On(chan, c))
    requires e.Arrive? && chan(e.p) == c ==> e.room
    requires depth(c).Some? ==> |Filter(Step(chan, depth, u, e).arrived, On(chan, c))| <= depth(c).value
    ensures var s := Step(chan, depth, u, e);
      && Filter(s.dropped, On(chan, c)) == []
      && At(s.done, c) + At(s.queues, c) == Filter(s.arrived, On(chan, c))
  {
    hide Filter, Step;
    var q := At(u.queues, c);
    match e
    case Arrive(p, room) =>
      FilterSnoc(u.arrived, p, On(chan, c));
      FilterSnoc(u.dropped, p, On(chan, c));
      OfferExact(chan, depth, u, p, room);
      if chan(p) == c { assert At(u.done, c) + q + [p] == At(u.done, c) + (q + [p]); }
    case Serve(d) =>
      OneTaken(chan, depth, u, d);
      if d == c && q != [] { assert At(u.done, c) + [q[0]] + q[1..] == At(u.done, c) + q; }
  }

  /** A channel without a depth never loses a packet. */
  lemma {:induction false} DirectNeverDrops<P, C>(chan: P -> C, depth: C -> Option<nat>, s: State<P, C>,
                                                  events: seq<Event<P, C>>, c: C)
    requires depth(c).None?
    ensures Filter(After(chan, depth, s, events).dropped, On(chan, c)) == Filter(s.dropped, On(chan, c))
  {
    if events != [] {
      hide Filter;
      var n := |events| - 1;
      var u, e := After(chan, depth, s, events[..n]), events[n];
      DirectNeverDrops(chan, depth, s, events[..n], c);
      if e.Arrive? {
        FilterSnoc(u.dropped, e.p, On(chan, c));
        OfferExact(chan, depth, u, e.p, e.room);
      }
    }
  }
}
