/** The l2tvpp-flow-handoff node (flow_handoff.c): target choice, the three output sets,
    and enabling the feature on an interface. */
module FlowNode {
  import opened Bytes
  import opened Header
  import opened Input
  import opened Classify
  import Printer
  import Bits

  /** Per-interface settings; `rr` is the 32-bit round-robin cursor of spray mode. */
  datatype IfData = IfData(workers: seq<u16>, rr: u32, enabled: bool, fastpath: bool, spray: bool)

  const DISABLED: IfData := IfData([], 0, false, false, false)

  /** The output sets: processed on this thread, or handed to one of the two frame queues. */
  datatype Output = ThisThread | EthernetQueue | L2tpQueue

  /** Where a packet that stays on this thread goes next. */
  datatype LocalNext = ToEthernetInput | ToL2tvppInput

  datatype Decision = Decision(cls: Class, thread: u16, buffer: Buffer)

  function WantHash(ifd: IfData): bool { !ifd.spray && |ifd.workers| > 1 }

  /** The slot of the worker list picked by a flow hash: a mask for powers of two. */
  function Slot(hash: u32, nw: nat): (i: nat)
    requires nw > 0
    ensures i < nw && i == hash % nw
  {
    if Bits.IsPow2(nw) then Bits.MaskIsModulo(hash, nw); Bits.And(hash, nw - 1) else hash % nw
  }

  function FlowHash(key: Option<seq<byte>>, crc: seq<byte> -> u32): u32
  {
    if key.Some? then crc(key.value) else 0
  }

  function ChooseThread(ifd: IfData, c: Class, thisThread: u16, crc: seq<byte> -> u32): u16
  {
    var nw := |ifd.workers|;
    if c.kind == Local || nw == 0 then thisThread
    else if ifd.spray then ifd.workers[ifd.rr % nw]
    else if nw == 1 then ifd.workers[0]
    else ifd.workers[Slot(FlowHash(c.key, crc), nw)]
  }

  /** Only a sprayed packet moves the cursor. */
  function AfterChoice(ifd: IfData, c: Class): IfData
  {
    if c.kind != Local && |ifd.workers| != 0 && ifd.spray then ifd.(rr := (ifd.rr + 1) % 0x1_0000_0000) else ifd
  }

  function ClassOf(ifd: IfData, b: Buffer, localIps: seq<Ip4>): (c: Class)
    ensures c.kind == Fast ==> c.l2tp <= b.len
  {
    EligibleIffOuterChecks(Current(b), localIps, ifd.fastpath, WantHash(ifd));
    ClassifyFrame(Current(b), localIps, ifd.fastpath, WantHash(ifd))
  }

  /** One buffer: its class, its thread, and the buffer as it goes on. */
  function Decide(ifd: IfData, b: Buffer, localIps: seq<Ip4>, thisThread: u16, crc: seq<byte> -> u32): Decision
  {
    var c := ClassOf(ifd, b, localIps);
    Decision(c, ChooseThread(ifd, c, thisThread, crc),
             if c.kind == Fast then FastBuffer(b, c) else Mark(b, c))
  }

  function OutputOf(d: Decision, thisThread: u16): Output
  {
    if d.thread == thisThread then ThisThread
    else if d.cls.kind == Fast then L2tpQueue else EthernetQueue
  }

  // ----- a frame --------------------------------------------------------------

  /** The decisions for a frame, with the cursors moving along. */
  function Dispatch(frame: seq<Buffer>, ifs: map<nat, IfData>, localIps: seq<Ip4>, thisThread: u16,
                    crc: seq<byte> -> u32): (r: (seq<Decision>, map<nat, IfData>))
    requires forall b :: b in frame ==> b.rxIf in ifs
    ensures |r.0| == |frame| && r.1.Keys == ifs.Keys
  {
    if frame == [] then ([], ifs)
    else
      var n := |frame| - 1;
      var (ds, t) := Dispatch(frame[..n], ifs, localIps, thisThread, crc);
      var b := frame[n];
      (ds + [Decide(t[b.rxIf], b, localIps, thisThread, crc)],
       t[b.rxIf := AfterChoice(t[b.rxIf], ClassOf(t[b.rxIf], b, localIps))])
  }

  /** The positions of a frame that go to output set `o`, in frame order. */
  function Picks(ds: seq<Decision>, o: Output, thisThread: u16): seq<nat>
  {
    if ds == [] then []
    else
      var n := |ds| - 1;
      Picks(ds[..n], o, thisThread) + if OutputOf(ds[n], thisThread) == o then [n] else []
  }

  class FlowHandoffMain {
    var ifData: map<nat, IfData>
    var sessionHandoff: bool   // handoff_enabled of the plugin

    constructor ()
      ensures ifData == map[] && !sessionHandoff
    {
      ifData, sessionHandoff := map[], false;
    }

    /** The node's loop over a frame: classify, choose, advance and sort into three sets. */
    method Node(frame: array<Buffer>, localIps: seq<Ip4>, thisThread: u16, crc: seq<byte> -> u32)
      returns (ds: seq<Decision>, localBi: seq<nat>, ethBi: seq<nat>, l2tpBi: seq<nat>,
               localNext: seq<LocalNext>, ethTi: seq<u16>, l2tpTi: seq<u16>)
      requires forall i :: 0 <= i < frame.Length ==> frame[i].rxIf in ifData
      modifies this`ifData, frame
      ensures (ds, ifData) == Dispatch(old(frame[..]), old(ifData), localIps, thisThread, crc)
      ensures
        && (forall i :: 0 <= i < frame.Length ==> frame[i] == ds[i].buffer)
        && localBi == Picks(ds, ThisThread, thisThread) && Directed(localBi, localNext, ds)
        && ethBi == Picks(ds, EthernetQueue, thisThread) && Aimed(ethBi, ethTi, ds)
        && l2tpBi == Picks(ds, L2tpQueue, thisThread) && Aimed(l2tpBi, l2tpTi, ds)
    {
      hide Decide, ClassOf, AfterChoice, Dispatch, Picks, Aimed, Directed, NextFor, OutputOf;
      ghost var was, ifs0 := frame[..], ifData;
      NothingYet(ifs0, localIps, thisThread, crc);
      assert was[..0] == [];
      localBi, ethBi, l2tpBi, localNext, ethTi, l2tpTi := [], [], [], [], [], [];
      ds := [];
      var i := 0;
      while i < frame.Length
        invariant 0 <= i <= frame.Length && |ds| == i
        invariant (ds, ifData) == Dispatch(was[..i], ifs0, localIps, thisThread, crc)
        invariant forall j :: 0 <= j < i ==> frame[j] == ds[j].buffer
        invariant forall j :: i <= j < frame.Length ==> frame[j] == was[j]
        invariant localBi == Picks(ds, ThisThread, thisThread) && Directed(localBi, localNext, ds)
        invariant ethBi == Picks(ds, EthernetQueue, thisThread) && Aimed(ethBi, ethTi, ds)
        invariant l2tpBi == Picks(ds, L2tpQueue, thisThread) && Aimed(l2tpBi, l2tpTi, ds)
      {
        var b := frame[i];
        var ifd := ifData[b.rxIf];
        var d := Decide(ifd, b, localIps, thisThread, crc);
        DispatchStep(was, i, ifs0, localIps, thisThread, crc);
        PicksStep(ds, d, thisThread);
        DirectedStep(localBi, localNext, ds, d);
        AimedStep(ethBi, ethTi, ds, d);
        AimedStep(l2tpBi, l2tpTi, ds, d);
        ifData := ifData[b.rxIf := AfterChoice(ifd, ClassOf(ifd, b, localIps))];
        frame[i] := d.buffer;
        match OutputOf(d, thisThread) {
          case ThisThread => localBi, localNext := localBi + [i], localNext + [NextFor(d)];
          case EthernetQueue => ethBi, ethTi := ethBi + [i], ethTi + [d.thread];
          case L2tpQueue => l2tpBi, l2tpTi := l2tpBi + [i], l2tpTi + [d.thread];
        }
        ds := ds + [d];
        i := i + 1;
      }
      assert was[..i] == was;
    }

    /** l2tvpp_flow_handoff_enable_disable, the state part. `bitmap` holds worker numbers. */
    method EnableDisable(swIf: nat, isHardware: bool, bitmap: Option<set<nat>>, fastpath: bool, spray: bool,
                         enable: bool, nWorkers: nat)
      returns (accepted: bool)
      requires nWorkers < 0xFFFF
      modifies this
      ensures accepted <==> isHardware && (enable && bitmap.Some? ==>
        bitmap.value != {} && forall w :: w in bitmap.value ==> w < nWorkers)
      ensures !accepted ==> ifData == old(ifData) && sessionHandoff == old(sessionHandoff)
      ensures accepted ==>
        && swIf in ifData && ifData == old(ifData)[swIf := ifData[swIf]]
        && ifData[swIf].enabled == enable
        && (enable ==> ifData[swIf] == IfData(
             if bitmap.Some? then Threads(bitmap.value, nWorkers) else [], 0, true, fastpath, spray))
        && (!enable ==> ifData[swIf] == if swIf in old(ifData) && !old(ifData)[swIf].enabled
                                        then old(ifData)[swIf] else DISABLED)
        && sessionHandoff == (old(sessionHandoff) && !enable)
    {
      if !isHardware { return false; }
      if enable && bitmap.Some? && (bitmap.value == {} || exists w :: w in bitmap.value && w >= nWorkers) {
        return false;
      }
      var ifd := if swIf in ifData then ifData[swIf] else DISABLED;
      if !enable && !ifd.enabled {
        ifData := ifData[swIf := ifd];
        return true;
      }
      var workers: seq<u16> := [];
      if enable && bitmap.Some? {
        for i := 0 to nWorkers
          invariant workers == Threads(bitmap.value, i)
        {
          if i in bitmap.value { workers := workers + [1 + i]; }
        }
      }
      ifData := ifData[swIf := IfData(workers, 0, enable, enable && fastpath, enable && spray)];
      if enable { sessionHandoff := false; }
      return true;
    }
  }

  /** Thread numbers of the workers below `n` in a bitmap, ascending. */
  function Threads(bitmap: set<nat>, n: nat): (ts: seq<u16>)
    requires n < 0xFFFF
    ensures forall t :: t in ts ==> 1 <= t <= n && t - 1 in bitmap
  {
    if n == 0 then [] else Threads(bitmap, n - 1) + if n - 1 in bitmap then [n] else []
  }

  function NextFor(d: Decision): LocalNext { if d.cls.kind == Fast then ToL2tvppInput else ToEthernetInput }

  predicate Directed(bi: seq<nat>, nexts: seq<LocalNext>, ds: seq<Decision>)
  {
    |nexts| == |bi| && forall j :: 0 <= j < |bi| ==> bi[j] < |ds| && nexts[j] == NextFor(ds[bi[j]])
  }

  predicate Aimed(bi: seq<nat>, ti: seq<u16>, ds: seq<Decision>)
  {
    |ti| == |bi| && forall j :: 0 <= j < |bi| ==> bi[j] < |ds| && ti[j] == ds[bi[j]].thread
  }

  lemma DispatchStep(frame: seq<Buffer>, i: nat, ifs: map<nat, IfData>, localIps: seq<Ip4>, thisThread: u16,
                     crc: seq<byte> -> u32)
    requires i < |frame| && forall b :: b in frame ==> b.rxIf in ifs
    ensures var (ds, t) := Dispatch(frame[..i], ifs, localIps, thisThread, crc);
      var ifd := t[frame[i].rxIf];
      Dispatch(frame[..i + 1], ifs, localIps, thisThread, crc)
      == (ds + [Decide(ifd, frame[i], localIps, thisThread, crc)],
          t[frame[i].rxIf := AfterChoice(ifd, ClassOf(ifd, frame[i], localIps))])
  {
    hide Decide, ClassOf, AfterChoice;
    assert frame[..i + 1][..i] == frame[..i];
  }

  lemma NothingYet(ifs: map<nat, IfData>, localIps: seq<Ip4>, thisThread: u16, crc: seq<byte> -> u32)
    ensures Dispatch([], ifs, localIps, thisThread, crc) == ([], ifs)
    ensures forall o :: Picks([], o, thisThread) == []
    ensures Aimed([], [], []) && Directed([], [], [])
  {}

  lemma DirectedStep(bi: seq<nat>, nexts: seq<LocalNext>, ds: seq<Decision>, d: Decision)
    requires Directed(bi, nexts, ds)
    ensures Directed(bi, nexts, ds + [d]) && Directed(bi + [|ds|], nexts + [NextFor(d)], ds + [d])
  {}

  lemma AimedStep(bi: seq<nat>, ti: seq<u16>, ds: seq<Decision>, d: Decision)
    requires Aimed(bi, ti, ds)
    ensures Aimed(bi, ti, ds + [d]) && Aimed(bi + [|ds|], ti + [d.thread], ds + [d])
  {}

  lemma PicksStep(ds: seq<Decision>, d: Decision, thisThread: u16)
    ensures forall o :: Picks(ds + [d], o, thisThread)
                        == Picks(ds, o, thisThread) + if OutputOf(d, thisThread) == o then [|ds|] else []
  {
    assert (ds + [d])[..|ds|] == ds;
  }

  // ----- the partition --------------------------------------------------------

  /** An output set holds exactly the positions decided for it, each once, in frame order. */
  lemma {:induction false} PicksExact(ds: seq<Decision>, o: Output, thisThread: u16)
    ensures var ps := Picks(ds, o, thisThread);
      && (forall i :: i in ps <==> 0 <= i < |ds| && OutputOf(ds[i], thisThread) == o)
      && (forall j, k :: 0 <= j < k < |ps| ==> ps[j] < ps[k])
  {
    if ds != [] {
      hide OutputOf;
      var n := |ds| - 1;
      PicksExact(ds[..n], o, thisThread);
      var before := Picks(ds[..n], o, thisThread);
      assert forall j :: 0 <= j < |before| ==> before[j] in before;
    }
  }

  /** Every buffer of a frame is in exactly one of the three output sets, exactly once. */
  lemma FramePartition(ds: seq<Decision>, thisThread: u16, i: nat)
    requires i < |ds|
    ensures multiset(Picks(ds, ThisThread, thisThread) + Picks(ds, EthernetQueue, thisThread)
                     + Picks(ds, L2tpQueue, thisThread))[i] == 1
  {
    var a, b := Picks(ds, ThisThread, thisThread), Picks(ds, EthernetQueue, thisThread);
    var c := Picks(ds, L2tpQueue, thisThread);
    PicksExact(ds, ThisThread, thisThread);
    PicksExact(ds, EthernetQueue, thisThread);
    PicksExact(ds, L2tpQueue, thisThread);
    IncreasingOnce(a, i);
    IncreasingOnce(b, i);
    IncreasingOnce(c, i);
  }

  lemma {:induction false} IncreasingOnce(ps: seq<nat>, i: nat)
    requires forall j, k :: 0 <= j < k < |ps| ==> ps[j] < ps[k]
    ensures multiset(ps)[i] == if i in ps then 1 else 0
  {
    if ps != [] {
      var n := |ps| - 1;
      IncreasingOnce(ps[..n], i);
      assert ps == ps[..n] + [ps[n]];
    }
  }

  // ----- hash mode ------------------------------------------------------------

  /** Interfaces do not interfere: an interface without spray keeps its settings, and each
      decision on its packets depends on the packet alone, whatever arrives on others. */
  lemma {:induction false} HashModeIsStateless(frame: seq<Buffer>, ifs: map<nat, IfData>, w: nat,
                                               localIps: seq<Ip4>, thisThread: u16, crc: seq<byte> -> u32)
    requires w in ifs && !ifs[w].spray && forall b :: b in frame ==> b.rxIf in ifs
    ensures var (ds, t) := Dispatch(frame, ifs, localIps, thisThread, crc);
      && t[w] == ifs[w]
      && forall i :: 0 <= i < |frame| && frame[i].rxIf == w ==>
           ds[i] == Decide(ifs[w], frame[i], localIps, thisThread, crc)
  {
    hide Decide, ClassOf, AfterChoice;
    if frame != [] {
      var n := |frame| - 1;
      HashModeIsStateless(frame[..n], ifs, w, localIps, thisThread, crc);
      CursorRests(ifs[w], ClassOf(ifs[w], frame[n], localIps));
    }
  }

  /** A decision hands its buffer on as received on the same interface. */
  lemma {:induction false} DispatchKeepsRxIf(frame: seq<Buffer>, ifs: map<nat, IfData>, localIps: seq<Ip4>,
                                             thisThread: u16, crc: seq<byte> -> u32)
    requires forall b :: b in frame ==> b.rxIf in ifs
    ensures var ds := Dispatch(frame, ifs, localIps, thisThread, crc).0;
      forall i :: 0 <= i < |frame| ==> ds[i].buffer.rxIf == frame[i].rxIf
  {
    hide Decide, ClassOf, AfterChoice;
    if frame != [] {
      var n := |frame| - 1;
      DispatchKeepsRxIf(frame[..n], ifs, localIps, thisThread, crc);
      var t := Dispatch(frame[..n], ifs, localIps, thisThread, crc).1;
      HandedOnWhereItBelongs(t[frame[n].rxIf], frame[n], localIps, thisThread, crc);
    }
  }

  lemma CursorRests(ifd: IfData, c: Class)
    requires !ifd.spray
    ensures AfterChoice(ifd, c) == ifd
  {}

  /** In hash mode, packets with equal flow key and equal kind go to the same thread. */
  lemma SameFlowSameThread(ifd: IfData, c: Class, d: Class, thisThread: u16, crc: seq<byte> -> u32)
    requires !ifd.spray && c.kind == d.kind && c.key == d.key
    ensures ChooseThread(ifd, c, thisThread, crc) == ChooseThread(ifd, d, thisThread, crc)
  {}

  /** All encapsulations of one inner packet, whatever their outer headers, sessions and
      framings, are sent to the same thread. */
  lemma FramingsSameThread(ifd: IfData, localIps: seq<Ip4>, thisThread: u16, crc: seq<byte> -> u32, inner: seq<byte>,
                           f: seq<byte>, fr: Printer.Framing, id: SessionId, proto: u16,
                           g: seq<byte>, gr: Printer.Framing, jd: SessionId, qroto: u16)
    requires !ifd.spray && FlowKey(inner, 0).Some? && proto in {PPP_IP4, PPP_IP6} && qroto in {PPP_IP4, PPP_IP6}
    requires Printer.IsData(fr) && DataAt(f).Some? && f[DataAt(f).value..] == Printer.Print(fr, id, proto, inner)
    requires Printer.IsData(gr) && DataAt(g).Some? && g[DataAt(g).value..] == Printer.Print(gr, jd, qroto, inner)
    ensures ChooseThread(ifd, ClassifyFrame(f, localIps, ifd.fastpath, WantHash(ifd)), thisThread, crc)
            == ChooseThread(ifd, ClassifyFrame(g, localIps, ifd.fastpath, WantHash(ifd)), thisThread, crc)
  {
    hide ClassifyFrame, FlowKey, DataAt;
    hide Printer.Print;
    if WantHash(ifd) {
      Printer.FramingsHashAlike(f, fr, id, proto, inner, localIps, ifd.fastpath);
      Printer.FramingsHashAlike(g, gr, jd, qroto, inner, localIps, ifd.fastpath);
    } else {
      DataIsNeverLocal(f, localIps, ifd.fastpath);
      DataIsNeverLocal(g, localIps, ifd.fastpath);
    }
  }

  /** What the node hands on for a frame that is not KIND_FAST: the same memory, at the same
      position and length, for ethernet-input. A KIND_FAST frame goes to l2tvpp-input at its
      L2TP header. */
  lemma HandedOnWhereItBelongs(ifd: IfData, b: Buffer, localIps: seq<Ip4>, thisThread: u16, crc: seq<byte> -> u32)
    ensures var d := Decide(ifd, b, localIps, thisThread, crc);
      && d.buffer.data == b.data && d.buffer.rxIf == b.rxIf
      && (if ifd.fastpath && OuterChecks(Current(b), localIps)
          then d.buffer.l2 == b.pos && d.buffer.l3 == b.pos + 14 && d.buffer.l4 == b.pos + 34
          else d.buffer.l2 == b.l2 && d.buffer.l3 == b.l3 && d.buffer.l4 == b.l4)
      && d.buffer.txIf == (if d.cls.kind == Fast then 0xFFFF_FFFF else b.txIf)
      && (d.cls.kind != Fast ==>
            && d.buffer.pos == b.pos && d.buffer.len == b.len && Current(d.buffer) == Current(b)
            && NextFor(d) == ToEthernetInput && OutputOf(d, thisThread) != L2tpQueue)
      && (d.cls.kind == Fast ==>
            && b.len >= 42 && d.buffer.pos == b.pos + 42 && Current(d.buffer) == Current(b)[42..]
            && NextFor(d) == ToL2tvppInput && OutputOf(d, thisThread) != EthernetQueue)
  {
    hide ClassifyFrame, OuterChecks;
    var c := ClassOf(ifd, b, localIps);
    EligibleIffOuterChecks(Current(b), localIps, ifd.fastpath, WantHash(ifd));
    if c.kind == Fast { CurrentAfterAdvance(Mark(b, c), 42); }
  }

  // ----- targets --------------------------------------------------------------

  /** With the worker list of any accepted bitmap, a packet stays on its thread or goes to a
      worker thread 1..n of that bitmap. */
  lemma TargetIsWorker(bitmap: set<nat>, nWorkers: nat, ifd: IfData, c: Class, thisThread: u16,
                       crc: seq<byte> -> u32)
    requires nWorkers < 0xFFFF && ifd.workers == Threads(bitmap, nWorkers)
    ensures var t := ChooseThread(ifd, c, thisThread, crc);
      t == thisThread || (1 <= t <= nWorkers && t - 1 in bitmap)
  {
    hide Slot, Threads;
    var t := ChooseThread(ifd, c, thisThread, crc);
    assert t == thisThread || t in ifd.workers;
  }

  /** The worker list is complete, ascending and free of repetitions. */
  lemma {:induction false} ThreadsExact(bitmap: set<nat>, n: nat)
    requires n < 0xFFFF
    ensures forall t: u16 :: t in Threads(bitmap, n) <==> 1 <= t <= n && t - 1 in bitmap
    ensures forall i, j :: 0 <= i < j < |Threads(bitmap, n)| ==> Threads(bitmap, n)[i] < Threads(bitmap, n)[j]
  {
    if n != 0 {
      ThreadsExact(bitmap, n - 1);
      var ts := Threads(bitmap, n - 1);
      assert forall i :: 0 <= i < |ts| ==> ts[i] in ts;
    }
  }
}
