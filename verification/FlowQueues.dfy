/** The l2tvpp-flow-handoff node and its queues over whole runs (flow_handoff.c): the three
    output sets are handed over one after another, yet every queue sees frame order. */
module FlowQueues {
  import opened Bytes
  import opened Input
  import opened Classify
  import opened Fabric
  import opened FlowNode

  /** Where a packet waits next: a next node of this thread, or a frame queue of another. */
  datatype Channel = Channel(output: Output, fast: bool, thread: u16)

  /** What does not change during a run. The frame queues have a depth each. */
  datatype Config = Config(localIps: seq<Ip4>, thisThread: u16, crc: seq<byte> -> u32, ethDepth: nat, l2tpDepth: nat)

  function ChannelFor(cfg: Config, kind: Kind, thread: u16): Channel
  {
    Channel(if thread == cfg.thisThread then ThisThread else if kind == Fast then L2tpQueue else EthernetQueue,
            kind == Fast, thread)
  }

  function ChannelOf(cfg: Config): Decision -> Channel { (d: Decision) => ChannelFor(cfg, d.cls.kind, d.thread) }

  /** vlib_buffer_enqueue_to_next stays on this thread and never refuses. */
  function Depths(cfg: Config): Channel -> Option<nat>
  {
    (c: Channel) => match c.output
      case ThisThread => None
      case EthernetQueue => Some(cfg.ethDepth)
      case L2tpQueue => Some(cfg.l2tpDepth)
  }

  function Dispatched(cfg: Config, frame: seq<Buffer>, ifs: map<nat, IfData>): (r: (seq<Decision>, map<nat, IfData>))
    requires forall b :: b in frame ==> b.rxIf in ifs
    ensures |r.0| == |frame| && r.1.Keys == ifs.Keys
  {
    Dispatch(frame, ifs, cfg.localIps, cfg.thisThread, cfg.crc)
  }

  // ----- handing over a frame -------------------------------------------------

  function Select<T>(s: seq<T>, idx: seq<nat>): (r: seq<T>)
    requires forall j :: 0 <= j < |idx| ==> idx[j] < |s|
    ensures |r| == |idx|
  {
    seq(|idx|, j requires 0 <= j < |idx| => s[idx[j]])
  }

  function ToOutput(o: Output, thisThread: u16): Event<Decision, Channel> -> bool
  {
    (e: Event<Decision, Channel>) => e.Arrive? && OutputOf(e.p, thisThread) == o
  }

  /** The arrivals of one output set, in frame order. */
  function SetOf(ds: seq<Decision>, room: seq<bool>, o: Output, thisThread: u16): seq<Event<Decision, Channel>>
    requires |room| == |ds|
  {
    Filter(Arrivals(ds, room), ToOutput(o, thisThread))
  }

  /** The order in which the node offers a frame: the local set, then the two queues'. */
  function HandOver(ds: seq<Decision>, room: seq<bool>, thisThread: u16): seq<Event<Decision, Channel>>
    requires |room| == |ds|
  {
    SetOf(ds, room, ThisThread, thisThread) + SetOf(ds, room, EthernetQueue, thisThread)
    + SetOf(ds, room, L2tpQueue, thisThread)
  }

  lemma PicksInRange(ds: seq<Decision>, o: Output, thisThread: u16)
    ensures var idx := Picks(ds, o, thisThread); forall j :: 0 <= j < |idx| ==> idx[j] < |ds|
  {
    PicksExact(ds, o, thisThread);
  }

  /** The index lists of the node select exactly these arrivals. */
  lemma {:induction false} PicksSelectSet(ds: seq<Decision>, room: seq<bool>, o: Output, thisThread: u16)
    requires |room| == |ds|
    ensures var idx := Picks(ds, o, thisThread);
      && (forall j :: 0 <= j < |idx| ==> idx[j] < |ds|)
      && Arrivals(Select(ds, idx), Select(room, idx)) == SetOf(ds, room, o, thisThread)
  {
    hide OutputOf;
    PicksInRange(ds, o, thisThread);
    if ds != [] {
      var n := |ds| - 1;
      var idx, before := Picks(ds, o, thisThread), Picks(ds[..n], o, thisThread);
      PicksInRange(ds[..n], o, thisThread);
      PicksSelectSet(ds[..n], room[..n], o, thisThread);
      assert Arrivals<Decision, Channel>(ds, room)[..n] == Arrivals(ds[..n], room[..n]);
      assert Select(ds[..n], before) == Select(ds, idx)[..|before|];
      assert Select(room[..n], before) == Select(room, idx)[..|before|];
      assert Arrivals<Decision, Channel>(Select(ds, idx), Select(room, idx))[..|before|]
          == Arrivals(Select(ds[..n], before), Select(room[..n], before));
    }
  }

  /** For one channel only its own output set matters, in frame order. */
  lemma SetForChannel(cfg: Config, ds: seq<Decision>, room: seq<bool>, o: Output, c: Channel)
    requires |room| == |ds|
    ensures Filter(SetOf(ds, room, o, cfg.thisThread), Concerns(ChannelOf(cfg), c))
            == if o == c.output then Filter(Arrivals(ds, room), Concerns(ChannelOf(cfg), c)) else []
  {
    hide Filter;
    var es, out := Arrivals<Decision, Channel>(ds, room), ToOutput(o, cfg.thisThread);
    var mine := Concerns(ChannelOf(cfg), c);
    if o == c.output {
      forall e | e in es && mine(e) ensures out(e) {}
      FilterFilter(es, out, mine);
    } else {
      FilterKeeps(es, out);
      FilterEmpty(Filter(es, out), mine);
    }
  }

  lemma HandOverForChannel(cfg: Config, ds: seq<Decision>, room: seq<bool>, c: Channel)
    requires |room| == |ds|
    ensures Filter(HandOver(ds, room, cfg.thisThread), Concerns(ChannelOf(cfg), c))
            == Filter(Arrivals(ds, room), Concerns(ChannelOf(cfg), c))
  {
    hide Filter, SetOf;
    var t, mine := cfg.thisThread, Concerns(ChannelOf(cfg), c);
    var x, y, z := SetOf(ds, room, ThisThread, t), SetOf(ds, room, EthernetQueue, t), SetOf(ds, room, L2tpQueue, t);
    FilterCat(x + y, z, mine);
    FilterCat(x, y, mine);
    SetForChannel(cfg, ds, room, ThisThread, c);
    SetForChannel(cfg, ds, room, EthernetQueue, c);
    SetForChannel(cfg, ds, room, L2tpQueue, c);
  }

  /** Handing the three sets over one after another is, for every channel, the same as
      offering the frame packet by packet in frame order; and the same packets are dropped. */
  lemma HandOverIsFrameOrder(cfg: Config, ds: seq<Decision>, room: seq<bool>, s: State<Decision, Channel>)
    requires |room| == |ds|
    ensures var u := After(ChannelOf(cfg), Depths(cfg), s, HandOver(ds, room, cfg.thisThread));
      var v := After(ChannelOf(cfg), Depths(cfg), s, Arrivals(ds, room));
      && (forall c: Channel :: AgreeAt(ChannelOf(cfg), u, v, c))
      && multiset(u.dropped) == multiset(v.dropped) && |u.dropped| == |v.dropped|
  {
    hide After, AgreeAt, HandOver;
    var u := After(ChannelOf(cfg), Depths(cfg), s, HandOver(ds, room, cfg.thisThread));
    var v := After(ChannelOf(cfg), Depths(cfg), s, Arrivals(ds, room));
    forall c: Channel ensures AgreeAt(ChannelOf(cfg), u, v, c) {
      HandOverForChannel(cfg, ds, room, c);
      SameForChannel(ChannelOf(cfg), Depths(cfg), s, HandOver(ds, room, cfg.thisThread), Arrivals(ds, room), c);
    }
    SameDrops(ChannelOf(cfg), u, v);
  }

  // ----- the node -------------------------------------------------------------

  lemma {:induction false} AfterCat<P, C>(chan: P -> C, depth: C -> Option<nat>, s: State<P, C>,
                                          es: seq<Event<P, C>>, fs: seq<Event<P, C>>)
    ensures After(chan, depth, s, es + fs) == After(chan, depth, After(chan, depth, s, es), fs)
  {
    hide Step;
    if fs == [] {
      assert es + fs == es;
    } else {
      var n := |fs| - 1;
      AfterCat(chan, depth, s, es, fs[..n]);
      assert (es + fs)[..|es| + n] == es + fs[..n];
    }
  }

  /** One output set of a frame, offered in turn. */
  method OfferSet(cfg: Config, ds: seq<Decision>, room: seq<bool>, bi: seq<nat>, o: Output, s: State<Decision, Channel>)
    returns (s': State<Decision, Channel>, enqueued: nat)
    requires |room| == |ds| && bi == Picks(ds, o, cfg.thisThread)
    ensures s' == After(ChannelOf(cfg), Depths(cfg), s, SetOf(ds, room, o, cfg.thisThread))
    ensures enqueued <= |bi| && enqueued + |s'.dropped| == |s.dropped| + |bi|
  {
    hide After, Picks;
    PicksSelectSet(ds, room, o, cfg.thisThread);
    var ps := Select(ds, bi);
    var targets := seq(|ps|, j requires 0 <= j < |ps| => ChannelFor(cfg, ps[j].cls.kind, ps[j].thread));
    s', enqueued := Enqueue(ps, targets, Select(room, bi), ChannelOf(cfg), Depths(cfg), s);
  }

  /** The whole node: sort the frame into three sets, then hand these over, the local one
      first, and count what the two queues refused. */
  method NodeWithQueues(cfg: Config, fm: FlowHandoffMain, frame: array<Buffer>, room: seq<bool>,
                        s: State<Decision, Channel>)
    returns (s': State<Decision, Channel>, congestion: nat)
    requires |room| == frame.Length && forall i :: 0 <= i < frame.Length ==> frame[i].rxIf in fm.ifData
    modifies fm`ifData, frame
    ensures var (ds, ifs) := Dispatched(cfg, old(frame[..]), old(fm.ifData));
      && fm.ifData == ifs
      && s' == After(ChannelOf(cfg), Depths(cfg), s, HandOver(ds, room, cfg.thisThread))
    ensures congestion == |s'.dropped| - |s.dropped|
  {
    hide After, Dispatch, SetOf, Aimed, Directed;
    var ds, localBi, ethBi, l2tpBi, localNext, ethTi, l2tpTi := fm.Node(frame, cfg.localIps, cfg.thisThread, cfg.crc);
    var t, chan, depth := cfg.thisThread, ChannelOf(cfg), Depths(cfg);
    var s1, n1 := OfferSet(cfg, ds, room, localBi, ThisThread, s);
    var s2, n2 := OfferSet(cfg, ds, room, ethBi, EthernetQueue, s1);
    var n3;
    s', n3 := OfferSet(cfg, ds, room, l2tpBi, L2tpQueue, s2);
    LocalNeverDrops(cfg, ds, room, s);
    congestion := (|ethBi| - n2) + (|l2tpBi| - n3);
    ghost var x, y := SetOf(ds, room, ThisThread, t), SetOf(ds, room, EthernetQueue, t);
    ghost var z := SetOf(ds, room, L2tpQueue, t);
    AfterCat(chan, depth, s, x, y);
    AfterCat(chan, depth, s, x + y, z);
  }

  lemma {:induction false} Undropped(cfg: Config, s: State<Decision, Channel>, es: seq<Event<Decision, Channel>>)
    requires forall e :: e in es ==> e.Arrive? && OutputOf(e.p, cfg.thisThread) == ThisThread
    ensures After(ChannelOf(cfg), Depths(cfg), s, es).dropped == s.dropped
  {
    if es != [] { Undropped(cfg, s, es[..|es| - 1]); }
  }

  lemma LocalNeverDrops(cfg: Config, ds: seq<Decision>, room: seq<bool>, s: State<Decision, Channel>)
    requires |room| == |ds|
    ensures After(ChannelOf(cfg), Depths(cfg), s, SetOf(ds, room, ThisThread, cfg.thisThread)).dropped == s.dropped
  {
    var es, out := Arrivals<Decision, Channel>(ds, room), ToOutput(ThisThread, cfg.thisThread);
    FilterKeeps(es, out);
    forall e | e in Filter(es, out) ensures e.Arrive? && OutputOf(e.p, cfg.thisThread) == ThisThread {
      assert out(e);
    }
    Undropped(cfg, s, Filter(es, out));
  }

  // ----- whole runs -----------------------------------------------------------

  /** The node gets a frame, or the consumer of a channel takes its oldest packet. */
  datatype NodeEvent = Rx(frame: seq<Buffer>, room: seq<bool>) | Take(c: Channel)

  /** `received` lists the node's decisions in the order the packets came in. */
  datatype NodeState = NodeState(ifs: map<nat, IfData>, net: State<Decision, Channel>, received: seq<Decision>)

  /** Frames come from interfaces the feature is enabled on. */
  predicate Fits(ifs: map<nat, IfData>, e: NodeEvent)
  {
    e.Rx? ==> |e.room| == |e.frame| && forall b :: b in e.frame ==> b.rxIf in ifs.Keys
  }

  predicate AllFit(ifs: map<nat, IfData>, events: seq<NodeEvent>)
  {
    forall i :: 0 <= i < |events| ==> Fits(ifs, events[i])
  }

  function NodeStep(cfg: Config, s: NodeState, e: NodeEvent): (t: NodeState)
    requires Fits(s.ifs, e)
    ensures t.ifs.Keys == s.ifs.Keys
  {
    match e
    case Rx(frame, room) =>
      var (ds, ifs) := Dispatched(cfg, frame, s.ifs);
      NodeState(ifs, After(ChannelOf(cfg), Depths(cfg), s.net, HandOver(ds, room, cfg.thisThread)), s.received + ds)
    case Take(c) => s.(net := Step(ChannelOf(cfg), Depths(cfg), s.net, Serve(c)))
  }

  function NodeRun(cfg: Config, ifs: map<nat, IfData>, events: seq<NodeEvent>): (s: NodeState)
    requires AllFit(ifs, events)
    ensures s.ifs.Keys == ifs.Keys
  {
    if events == [] then NodeState(ifs, Start(), [])
    else NodeStep(cfg, NodeRun(cfg, ifs, events[..|events| - 1]), events[|events| - 1])
  }

  /** All frames of a run, one after another. */
  function AllFrames(events: seq<NodeEvent>): (f: seq<Buffer>)
  {
    if events == [] then []
    else
      AllFrames(events[..|events| - 1])
      + match events[|events| - 1] case Rx(frame, _) => frame case Take(_) => []
  }

  lemma StepKeepsChannels(cfg: Config, s: NodeState, e: NodeEvent)
    requires Fits(s.ifs, e) && SameArrivals(ChannelOf(cfg), s.net, s.received)
    requires forall c: Channel :: ChannelOk(ChannelOf(cfg), Depths(cfg), s.net, c)
    ensures var t := NodeStep(cfg, s, e);
      && SameArrivals(ChannelOf(cfg), t.net, t.received)
      && forall c: Channel :: ChannelOk(ChannelOf(cfg), Depths(cfg), t.net, c)
  {
    hide ChannelOk, After, HandOver, Filter;
    var chan, depth, t := ChannelOf(cfg), Depths(cfg), NodeStep(cfg, s, e);
    match e
    case Take(c0) =>
      forall c: Channel ensures ChannelOk(chan, depth, t.net, c) { ServeKeeps(chan, depth, s.net, c0, c); }
    case Rx(frame, room) =>
      var ds := Dispatched(cfg, frame, s.ifs).0;
      var es := HandOver(ds, room, cfg.thisThread);
      HandOverIsFrameOrder(cfg, ds, room, s.net);
      ArrivedInOrder(chan, depth, s.net, ds, room);
      forall c: Channel
        ensures ChannelOk(chan, depth, t.net, c)
        ensures Filter(t.net.arrived, On(chan, c)) == Filter(t.received, On(chan, c))
      {
        AfterKeepsChannel(chan, depth, s.net, es, c);
        assert AgreeAt(chan, After(chan, depth, s.net, es), After(chan, depth, s.net, Arrivals(ds, room)), c);
        FilterCat(s.net.arrived, ds, On(chan, c));
        FilterCat(s.received, ds, On(chan, c));
      }
  }

  /** In every run and every mode, each channel is offered its packets in the order in which
      the node received them, consumes a subsequence of them in that order, keeps within
      its depth, and accounts for every packet exactly once. */
  lemma {:induction false} RunKeepsChannels(cfg: Config, ifs: map<nat, IfData>, events: seq<NodeEvent>)
    requires AllFit(ifs, events)
    ensures var s := NodeRun(cfg, ifs, events);
      && SameArrivals(ChannelOf(cfg), s.net, s.received)
      && forall c: Channel :: ChannelOk(ChannelOf(cfg), Depths(cfg), s.net, c)
  {
    hide NodeStep;
    if events == [] {
      StartOk(cfg);
    } else {
      hide ChannelOk, SameArrivals;
      var n := |events| - 1;
      RunKeepsChannels(cfg, ifs, events[..n]);
      StepKeepsChannels(cfg, NodeRun(cfg, ifs, events[..n]), events[n]);
    }
  }

  lemma StartOk(cfg: Config)
    ensures forall c: Channel :: ChannelOk(ChannelOf(cfg), Depths(cfg), Start(), c)
    ensures SameArrivals(ChannelOf(cfg), Start(), [])
  {}

  /** The two frame queues keep within their own depths, and packets for this thread are never
      dropped, in any run. */
  lemma QueueDepths(cfg: Config, ifs: map<nat, IfData>, events: seq<NodeEvent>, c: Channel)
    requires AllFit(ifs, events)
    ensures var net := NodeRun(cfg, ifs, events).net;
      && (c.output == EthernetQueue ==> |At(net.queues, c)| <= cfg.ethDepth)
      && (c.output == L2tpQueue ==> |At(net.queues, c)| <= cfg.l2tpDepth)
      && (c.output == ThisThread ==> Filter(net.dropped, On(ChannelOf(cfg), c)) == [])
  {
    hide NodeRun, Filter, LaneOk;
    RunKeepsChannels(cfg, ifs, events);
    assert ChannelOk(ChannelOf(cfg), Depths(cfg), NodeRun(cfg, ifs, events).net, c);
    if c.output == ThisThread { LocalKept(cfg, ifs, events, c); }
  }

  lemma {:induction false} LocalKept(cfg: Config, ifs: map<nat, IfData>, events: seq<NodeEvent>, c: Channel)
    requires AllFit(ifs, events) && c.output == ThisThread
    ensures Filter(NodeRun(cfg, ifs, events).net.dropped, On(ChannelOf(cfg), c)) == []
  {
    hide After, HandOver, Dispatched;
    if events == [] {
      assert Filter<Decision>([], On(ChannelOf(cfg), c)) == [];
    } else {
      hide Filter;
      var n := |events| - 1;
      var s := NodeRun(cfg, ifs, events[..n]);
      LocalKept(cfg, ifs, events[..n], c);
      if events[n].Rx? {
        var ds := Dispatched(cfg, events[n].frame, s.ifs).0;
        DirectNeverDrops(ChannelOf(cfg), Depths(cfg), s.net, HandOver(ds, events[n].room, cfg.thisThread), c);
      }
    }
  }

  // ----- flows ----------------------------------------------------------------

  /** The packets of one flow: received on one interface, same treatment, same flow key. */
  function InFlow(w: nat, kind: Kind, key: Option<seq<byte>>): Decision -> bool
  {
    (d: Decision) => d.buffer.rxIf == w && d.cls.kind == kind && d.cls.key == key
  }

  /** Where a flow goes. */
  function Home(cfg: Config, ifd: IfData, kind: Kind, key: Option<seq<byte>>): Channel
  {
    ChannelFor(cfg, kind, ChooseThread(ifd, Class(kind, key, false, 0), cfg.thisThread, cfg.crc))
  }

  /** Decisions on packets of interface `w` were taken under the settings `ifd`. */
  predicate UnderSettings(cfg: Config, ifd: IfData, w: nat, d: Decision)
  {
    d.buffer.rxIf == w ==> d.thread == ChooseThread(ifd, d.cls, cfg.thisThread, cfg.crc)
  }

  /** On an interface without spray the settings stay, whatever the modes of the others. */
  lemma {:induction false} HashRun(cfg: Config, ifs: map<nat, IfData>, events: seq<NodeEvent>, w: nat)
    requires w in ifs && !ifs[w].spray && AllFit(ifs, events)
    ensures var s := NodeRun(cfg, ifs, events);
      s.ifs[w] == ifs[w] && forall d :: d in s.received ==> UnderSettings(cfg, ifs[w], w, d)
  {
    hide After, HandOver, Step, UnderSettings, Dispatched;
    if events != [] {
      var n := |events| - 1;
      HashRun(cfg, ifs, events[..n], w);
      if events[n].Rx? { HashFrame(cfg, NodeRun(cfg, ifs, events[..n]).ifs, events[n].frame, w); }
    }
  }

  lemma HashFrame(cfg: Config, ifs: map<nat, IfData>, frame: seq<Buffer>, w: nat)
    requires w in ifs && !ifs[w].spray && forall b :: b in frame ==> b.rxIf in ifs
    ensures var (ds, t) := Dispatched(cfg, frame, ifs);
      t[w] == ifs[w] && forall d :: d in ds ==> UnderSettings(cfg, ifs[w], w, d)
  {
    hide Dispatch, ClassOf, ChooseThread;
    HashModeIsStateless(frame, ifs, w, cfg.localIps, cfg.thisThread, cfg.crc);
    DispatchKeepsRxIf(frame, ifs, cfg.localIps, cfg.thisThread, cfg.crc);
    var ds := Dispatched(cfg, frame, ifs).0;
    forall d | d in ds ensures UnderSettings(cfg, ifs[w], w, d) {
      var i :| 0 <= i < |ds| && ds[i] == d;
    }
  }

  /** On an interface in hash mode, whatever the modes of the others, a flow stays in order
      over whole runs, across frames, drops, output sets and interleavings: it is consumed
      from one channel, in a subsequence of the order in which its packets came in. */
  lemma FlowOrder(cfg: Config, ifs: map<nat, IfData>, events: seq<NodeEvent>, w: nat, kind: Kind,
                  key: Option<seq<byte>>)
    requires w in ifs && !ifs[w].spray && AllFit(ifs, events)
    ensures var s := NodeRun(cfg, ifs, events); var flow := InFlow(w, kind, key);
      var home := Home(cfg, ifs[w], kind, key);
      && IsSubsequence(Filter(At(s.net.done, home), flow), Filter(s.received, flow))
      && forall c: Channel :: c != home ==> Filter(At(s.net.done, c), flow) == []
  {
    hide NodeRun, ChooseThread, Filter, IsSubsequence, ChannelOk, SameArrivals;
    var s, flow, home := NodeRun(cfg, ifs, events), InFlow(w, kind, key), Home(cfg, ifs[w], kind, key);
    RunKeepsChannels(cfg, ifs, events);
    HashRun(cfg, ifs, events, w);
    forall d | d in s.received && flow(d) ensures ChannelOf(cfg)(d) == home {
      assert UnderSettings(cfg, ifs[w], w, d);
      SameFlowSameThread(ifs[w], d.cls, Class(kind, key, false, 0), cfg.thisThread, cfg.crc);
    }
    InOrder(ChannelOf(cfg), Depths(cfg), s.net, s.received, flow, home);
  }

  // ----- a run is one long frame ----------------------------------------------

  lemma {:induction false} DispatchCat(cfg: Config, f: seq<Buffer>, g: seq<Buffer>, ifs: map<nat, IfData>)
    requires forall b :: b in f + g ==> b.rxIf in ifs
    ensures (forall b :: b in f ==> b.rxIf in ifs) && (forall b :: b in g ==> b.rxIf in ifs)
    ensures var (ds, t) := Dispatched(cfg, f, ifs); var (es, u) := Dispatched(cfg, g, t);
      Dispatched(cfg, f + g, ifs) == (ds + es, u)
    decreases |g|
  {
    hide Decide, ClassOf, AfterChoice;
    forall b | b in f ensures b.rxIf in ifs { assert b in f + g; }
    forall b | b in g ensures b.rxIf in ifs { assert b in f + g; }
    if g == [] {
      assert f + g == f;
      var (ds, t) := Dispatched(cfg, f, ifs);
      NoFrame(cfg, t);
      assert ds + [] == ds;
    } else {
      var n := |g| - 1;
      assert (f + g)[..|f| + n] == f + g[..n];
      forall b | b in f + g[..n] ensures b.rxIf in ifs { assert b in f + g; }
      DispatchCat(cfg, f, g[..n], ifs);
      var (ds, t) := Dispatched(cfg, f, ifs);
      var (es, u) := Dispatched(cfg, g[..n], t);
      assert (f + g)[|f| + n] == g[n];
      var d := Decide(u[g[n].rxIf], g[n], cfg.localIps, cfg.thisThread, cfg.crc);
      assert Dispatched(cfg, g, t).0 == es + [d];
      assert ds + (es + [d]) == ds + es + [d];
    }
  }

  /** Whatever happens at the queues, the node decides on the frames of a run as on one long
      frame. */
  lemma {:induction false} RunIsOneFrame(cfg: Config, ifs: map<nat, IfData>, events: seq<NodeEvent>)
    requires AllFit(ifs, events)
    ensures forall b :: b in AllFrames(events) ==> b.rxIf in ifs
    ensures var s := NodeRun(cfg, ifs, events); Dispatched(cfg, AllFrames(events), ifs) == (s.received, s.ifs)
  {
    hide Dispatched, After, HandOver, Step;
    if events == [] {
      assert Dispatched(cfg, [], ifs) == ([], ifs) by { NoFrame(cfg, ifs); }
    } else {
      var n := |events| - 1;
      RunIsOneFrame(cfg, ifs, events[..n]);
      if events[n].Rx? {
        DispatchCat(cfg, AllFrames(events[..n]), events[n].frame, ifs);
      } else {
        assert AllFrames(events) == AllFrames(events[..n]);
      }
    }
  }

  lemma NoFrame(cfg: Config, ifs: map<nat, IfData>)
    ensures Dispatched(cfg, [], ifs) == ([], ifs)
  {}
}
