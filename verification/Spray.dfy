/** Spray mode of l2tvpp-flow-handoff (flow_handoff.c): the round-robin cursor gives every
    worker its turn, over whole runs and whatever else arrives in between. */
module Spray {
  import opened Bytes
  import opened Input
  import opened Classify
  import opened FlowNode
  import opened FlowQueues
  import Bits

  /** A packet that moves the cursor of interface `w`: received there and not kept local. */
  predicate Sprayed(cfg: Config, ifd: IfData, w: nat, b: Buffer)
  {
    b.rxIf == w && ClassOf(ifd, b, cfg.localIps).kind != Local
  }

  /** How many packets of a frame move the cursor. */
  function Turns(cfg: Config, ifd: IfData, w: nat, frame: seq<Buffer>): nat
  {
    if frame == [] then 0
    else Turns(cfg, ifd, w, frame[..|frame| - 1]) + if Sprayed(cfg, ifd, w, frame[|frame| - 1]) then 1 else 0
  }

  /** How many of them were sent to thread `t`. */
  function SentTo(cfg: Config, ifd: IfData, w: nat, frame: seq<Buffer>, ds: seq<Decision>, t: u16): nat
    requires |ds| == |frame|
  {
    if frame == [] then 0
    else
      var n := |frame| - 1;
      SentTo(cfg, ifd, w, frame[..n], ds[..n], t)
      + if Sprayed(cfg, ifd, w, frame[n]) && ds[n].thread == t then 1 else 0
  }

  /** The slot whose turn is number `j`, the 32-bit cursor starting at `rr`. */
  function TurnSlot(rr: nat, j: nat, nw: nat): nat
    requires nw > 0
  {
    (rr + j) % 0x1_0000_0000 % nw
  }

  function Turn(workers: seq<u16>, rr: nat, j: nat): u16
    requires |workers| > 0
  {
    workers[TurnSlot(rr, j, |workers|)]
  }

  predicate Spraying(ifs: map<nat, IfData>, w: nat, frame: seq<Buffer>)
  {
    && w in ifs && ifs[w].spray && |ifs[w].workers| > 0
    && (forall b :: b in frame ==> b.rxIf in ifs)
  }

  /** The settings after `j` turns. */
  function CursorAt(ifd: IfData, j: nat): IfData { ifd.(rr := (ifd.rr + j) % 0x1_0000_0000) }

  /** Turn `j`. The class of a packet does not depend on the cursor. */
  lemma OneTurn(cfg: Config, ifd: IfData, w: nat, j: nat, b: Buffer)
    requires ifd.spray && |ifd.workers| > 0 && Sprayed(cfg, ifd, w, b)
    ensures var at := CursorAt(ifd, j);
      && Decide(at, b, cfg.localIps, cfg.thisThread, cfg.crc).thread == Turn(ifd.workers, ifd.rr, j)
      && AfterChoice(at, ClassOf(at, b, cfg.localIps)) == CursorAt(ifd, j + 1)
  {
    hide ClassifyFrame, TurnSlot;
    SlotOfCursor(ifd, j);
    NextCursor(ifd, j);
  }

  lemma SlotOfCursor(ifd: IfData, j: nat)
    requires |ifd.workers| > 0
    ensures CursorAt(ifd, j).rr % |ifd.workers| == TurnSlot(ifd.rr, j, |ifd.workers|)
  {}

  lemma NextCursor(ifd: IfData, j: nat)
    ensures CursorAt(ifd, j).(rr := (CursorAt(ifd, j).rr + 1) % 0x1_0000_0000) == CursorAt(ifd, j + 1)
  {}

  lemma NoTurn(cfg: Config, ifd: IfData, w: nat, j: nat, b: Buffer)
    requires b.rxIf == w && !Sprayed(cfg, ifd, w, b)
    ensures var at := CursorAt(ifd, j); AfterChoice(at, ClassOf(at, b, cfg.localIps)) == at
  {
    hide ClassifyFrame;
  }

  lemma BeforeTheFirst(ifd: IfData)
    ensures CursorAt(ifd, 0) == ifd
  {}

  /** The cursor of `w` after a frame, and the thread of the frame's last packet if sprayed. */
  lemma {:induction false} CursorMoves(cfg: Config, ifs: map<nat, IfData>, w: nat, frame: seq<Buffer>)
    requires Spraying(ifs, w, frame)
    ensures var (ds, t) := Dispatched(cfg, frame, ifs);
      && t[w] == CursorAt(ifs[w], Turns(cfg, ifs[w], w, frame))
      && (frame != [] && Sprayed(cfg, ifs[w], w, frame[|frame| - 1]) ==>
            ds[|frame| - 1].thread
            == Turn(ifs[w].workers, ifs[w].rr, Turns(cfg, ifs[w], w, frame[..|frame| - 1])))
  {
    hide ClassOf, Decide, AfterChoice, Turn, Sprayed, CursorAt;
    if frame == [] {
      BeforeTheFirst(ifs[w]);
    } else {
      var n := |frame| - 1;
      CursorMoves(cfg, ifs, w, frame[..n]);
      var j := Turns(cfg, ifs[w], w, frame[..n]);
      if Sprayed(cfg, ifs[w], w, frame[n]) {
        SprayedHere(cfg, ifs[w], w, frame[n]);
        OneTurn(cfg, ifs[w], w, j, frame[n]);
      } else if frame[n].rxIf == w {
        NoTurn(cfg, ifs[w], w, j, frame[n]);
      }
    }
  }

  lemma SprayedHere(cfg: Config, ifd: IfData, w: nat, b: Buffer)
    requires Sprayed(cfg, ifd, w, b)
    ensures b.rxIf == w
  {}

  /** In any frame, whatever else it holds, the j-th sprayed packet of an interface goes to
      the worker whose turn is j, and the cursor counts the sprayed packets, modulo 2^32. */
  lemma {:induction false} SprayTakesTurns(cfg: Config, ifs: map<nat, IfData>, w: nat, frame: seq<Buffer>)
    requires Spraying(ifs, w, frame)
    ensures var (ds, t) := Dispatched(cfg, frame, ifs);
      && t[w] == CursorAt(ifs[w], Turns(cfg, ifs[w], w, frame))
      && forall i :: 0 <= i < |frame| && Sprayed(cfg, ifs[w], w, frame[i]) ==>
           ds[i].thread == Turn(ifs[w].workers, ifs[w].rr, Turns(cfg, ifs[w], w, frame[..i]))
  {
    hide ClassOf, Decide, AfterChoice, Turn, Sprayed;
    CursorMoves(cfg, ifs, w, frame);
    if frame != [] {
      var n := |frame| - 1;
      SprayTakesTurns(cfg, ifs, w, frame[..n]);
      forall i | 0 <= i < n ensures frame[..n][..i] == frame[..i] {}
    }
  }

  // ----- counting turns -------------------------------------------------------

  /** How many of `m` turns a slot gets. */
  function TurnCount(rr: nat, m: nat, nw: nat, slot: nat): nat
    requires nw > 0
  {
    if m == 0 then 0 else TurnCount(rr, m - 1, nw, slot) + if TurnSlot(rr, m - 1, nw) == slot then 1 else 0
  }

  /** An equal share of `m` turns, up to one. */
  predicate Fair(rr: nat, m: nat, nw: nat, slot: nat)
    requires nw > 0
  {
    m / nw <= TurnCount(rr, m, nw, slot) <= m / nw + if m % nw == 0 then 0 else 1
  }

  /** Reducing modulo 2^32 first does not matter to a divisor of 2^32: a power of two. */
  lemma WrapUnnoticed(x: nat, nw: nat)
    requires nw > 0 && 0x1_0000_0000 % nw == 0
    ensures x % 0x1_0000_0000 % nw == x % nw
  {
    var c: int, q: int, r: int := 0x1_0000_0000 / nw, x / 0x1_0000_0000, x % 0x1_0000_0000;
    var a: int, b: int := r / nw, r % nw;
    Bits.DivMod(0x1_0000_0000, nw);
    Bits.DivMod(r, nw);
    assert nw * (c * q + a) == nw * c * q + nw * a;
    Bits.DivModUnique(x, nw, c * q + a, b);
  }

  lemma {:induction false} CountIsResidues(rr: u32, m: nat, nw: nat, slot: nat)
    requires nw > 0 && (rr + m <= 0x1_0000_0000 || 0x1_0000_0000 % nw == 0)
    ensures TurnCount(rr, m, nw, slot) == |Bits.Residues(rr, rr + m, nw, slot)|
  {
    hide TurnSlot;
    hide Bits.Residues;
    hide Bits.Mod;
    if m == 0 {
      NoResidues(rr, nw, slot);
    } else {
      CountIsResidues(rr, m - 1, nw, slot);
      OneMoreResidue(rr, rr + m - 1, nw, slot);
      SlotIsResidue(rr, m - 1, nw);
    }
  }

  lemma SlotIsResidue(rr: u32, j: nat, nw: nat)
    requires nw > 0 && (rr + j < 0x1_0000_0000 || 0x1_0000_0000 % nw == 0)
    ensures TurnSlot(rr, j, nw) == Bits.Mod(rr + j, nw)
  {
    if rr + j < 0x1_0000_0000 {
      assert (rr + j) % 0x1_0000_0000 == rr + j;
    } else {
      WrapUnnoticed(rr + j, nw);
    }
  }

  lemma TurnsAreFair(rr: u32, m: nat, nw: nat, slot: nat)
    requires slot < nw && (rr + m <= 0x1_0000_0000 || 0x1_0000_0000 % nw == 0)
    ensures Fair(rr, m, nw, slot)
  {
    hide Bits.Residues;
    CountIsResidues(rr, m, nw, slot);
    Bits.ResidueCount(rr, m, nw, slot);
  }

  /** When the cursor wraps, slots are skipped: in the first `nw` turns from 2^32 - 1 the last
      slot has none. */
  lemma {:induction false} LastSlotSkipped(m: nat, nw: nat)
    requires 0 < nw < 0x1_0000 && m <= nw && 0x1_0000_0000 % nw != 0
    ensures TurnCount(0xFFFF_FFFF, m, nw, nw - 1) == 0
  {
    if m != 0 {
      LastSlotSkipped(m - 1, nw);
      NotItsTurn(m - 1, nw);
    }
  }

  lemma NotItsTurn(j: nat, nw: nat)
    requires 0 < nw < 0x1_0000 && j < nw && 0x1_0000_0000 % nw != 0
    ensures TurnSlot(0xFFFF_FFFF, j, nw) != nw - 1
  {
    if j == 0 {
      Bits.DivMod(0xFFFF_FFFF, nw);
      var q: int, r: int := 0xFFFF_FFFF / nw, 0xFFFF_FFFF % nw;
      if r == nw - 1 {
        assert nw * (q + 1) == nw * q + nw;
        Bits.DivModUnique(0x1_0000_0000, nw, q + 1, 0);
      }
    } else {
      assert (0xFFFF_FFFF + j) % 0x1_0000_0000 == j - 1;
      Bits.DivModUnique(j - 1, nw, 0, j - 1);
    }
  }

  /** Turns are fair from every cursor and for every number of them exactly if the number of
      workers divides 2^32, that is, is a power of two. */
  lemma FairIff(nw: nat)
    requires 0 < nw < 0x1_0000
    ensures (forall rr: u32, m: nat, slot: nat :: slot < nw ==> Fair(rr, m, nw, slot)) <==> 0x1_0000_0000 % nw == 0
  {
    if 0x1_0000_0000 % nw == 0 {
      forall rr: u32, m: nat, slot: nat | slot < nw ensures Fair(rr, m, nw, slot) {
        TurnsAreFair(rr, m, nw, slot);
      }
    } else {
      LastSlotSkipped(nw, nw);
      Bits.DivModUnique(nw, nw, 1, 0);
      assert !Fair(0xFFFF_FFFF, nw, nw, nw - 1);
    }
  }

  lemma OneMoreResidue(lo: nat, hi: nat, n: nat, r: nat)
    requires n > 0 && lo <= hi
    ensures |Bits.Residues(lo, hi + 1, n, r)| == |Bits.Residues(lo, hi, n, r)| + if Bits.Mod(hi, n) == r then 1 else 0
  {
    var a, b := Bits.Residues(lo, hi, n, r), Bits.Residues(lo, hi + 1, n, r);
    if hi % n == r {
      assert b == a + {hi as int};
    } else {
      assert b == a;
    }
  }

  predicate Distinct(workers: seq<u16>)
  {
    forall i, j :: 0 <= i < j < |workers| ==> workers[i] != workers[j]
  }

  lemma NoResidues(lo: nat, n: nat, r: nat)
    requires n > 0
    ensures |Bits.Residues(lo, lo, n, r)| == 0
  {
    assert Bits.Residues(lo, lo, n, r) == {};
  }

  // ----- what each worker is sent ---------------------------------------------

  /** A thread that is listed once is sent the packets of its slot's turns. */
  lemma {:induction false} SentIsCount(cfg: Config, ifs: map<nat, IfData>, w: nat, frame: seq<Buffer>, slot: nat)
    requires Spraying(ifs, w, frame) && Distinct(ifs[w].workers) && slot < |ifs[w].workers|
    ensures SentTo(cfg, ifs[w], w, frame, Dispatched(cfg, frame, ifs).0, ifs[w].workers[slot])
            == TurnCount(ifs[w].rr, Turns(cfg, ifs[w], w, frame), |ifs[w].workers|, slot)
  {
    hide ClassOf, Decide, AfterChoice, Sprayed, TurnSlot;
    if frame != [] {
      var n := |frame| - 1;
      SentIsCount(cfg, ifs, w, frame[..n], slot);
      CursorMoves(cfg, ifs, w, frame);
      SlotInRange(ifs[w].rr, Turns(cfg, ifs[w], w, frame[..n]), |ifs[w].workers|);
      assert Dispatched(cfg, frame, ifs).0[..n] == Dispatched(cfg, frame[..n], ifs).0;
    }
  }

  lemma SlotInRange(rr: nat, j: nat, nw: nat)
    requires nw > 0
    ensures TurnSlot(rr, j, nw) < nw
  {}

  /** Spray is fair over every run of the node, with other interfaces, local packets, other
      workers draining their queues and any drops in between: of the m packets sprayed on
      an interface whose workers were set from a bitmap, every worker of the bitmap is sent
      m / n, or one more. This holds until the 32-bit cursor wraps and, if n divides 2^32,
      for ever; if it does not, `FairIff` says that it must fail. */
  lemma SprayIsFair(cfg: Config, ifs: map<nat, IfData>, w: nat, events: seq<NodeEvent>, bitmap: set<nat>,
                    nWorkers: nat, worker: nat)
    requires AllFit(ifs, events) && w in ifs && ifs[w].spray
    requires nWorkers < 0xFFFF && ifs[w].workers == Threads(bitmap, nWorkers)
    requires worker in bitmap && worker < nWorkers
    ensures |NodeRun(cfg, ifs, events).received| == |AllFrames(events)| && |ifs[w].workers| > 0
    ensures var m := Turns(cfg, ifs[w], w, AllFrames(events)); var nw := |ifs[w].workers|;
      var sent := SentTo(cfg, ifs[w], w, AllFrames(events), NodeRun(cfg, ifs, events).received, worker + 1);
      && (ifs[w].rr + m <= 0x1_0000_0000 || 0x1_0000_0000 % nw == 0 ==>
            m / nw <= sent <= m / nw + if m % nw == 0 then 0 else 1)
      && exists slot :: 0 <= slot < nw && ifs[w].workers[slot] == worker + 1
                        && sent == TurnCount(ifs[w].rr, m, nw, slot)
  {
    hide Dispatched, SentTo, Turns, NodeRun, Threads;
    ThreadsExact(bitmap, nWorkers);
    assert ((worker + 1) as u16) in ifs[w].workers;
    RunIsOneFrame(cfg, ifs, events);
    var m, nw := Turns(cfg, ifs[w], w, AllFrames(events)), |ifs[w].workers|;
    var slot :| 0 <= slot < nw && ifs[w].workers[slot] == worker + 1;
    SentIsCount(cfg, ifs, w, AllFrames(events), slot);
    if ifs[w].rr + m <= 0x1_0000_0000 || 0x1_0000_0000 % nw == 0 { TurnsAreFair(ifs[w].rr, m, nw, slot); }
  }

  // ----- the wrap happens -----------------------------------------------------

  const UNTAGGED_IP6: Buffer :=
    RawBuffer([0, 0, 0, 0, 0, 0, 0, 0, 0, 0, 0, 0, 0x86, 0xDD], 0, 14, 0, 0, 0, 0, 1, 0, None)

  const THREE_WORKERS: IfData := IfData([1, 2, 3], 0xFFFF_FFFF, true, false, true)

  /** With three workers and the cursor at its end, two packets in a row go to the first
      worker, and the third gets none of three. */
  lemma WrapRepeatsWorker(cfg: Config)
    ensures var ds := Dispatched(cfg, [UNTAGGED_IP6, UNTAGGED_IP6, UNTAGGED_IP6], map[1 := THREE_WORKERS]).0;
      |ds| == 3 && ds[0].thread == 1 && ds[1].thread == 1 && ds[2].thread == 2
  {
    hide Dispatched;
    var frame, ifs := [UNTAGGED_IP6, UNTAGGED_IP6, UNTAGGED_IP6], map[1 := THREE_WORKERS];
    SprayedUntagged(cfg);
    assert frame[..0] == [] && frame[..1] == [UNTAGGED_IP6] && frame[..2] == [UNTAGGED_IP6, UNTAGGED_IP6];
    assert [UNTAGGED_IP6, UNTAGGED_IP6][..1] == [UNTAGGED_IP6];
    SprayTakesTurns(cfg, ifs, 1, frame);
  }

  lemma SprayedUntagged(cfg: Config)
    ensures Sprayed(cfg, THREE_WORKERS, 1, UNTAGGED_IP6)
    ensures Turns(cfg, THREE_WORKERS, 1, [UNTAGGED_IP6]) == 1
    ensures Turns(cfg, THREE_WORKERS, 1, [UNTAGGED_IP6, UNTAGGED_IP6]) == 2
  {
    assert Current(UNTAGGED_IP6) == UNTAGGED_IP6.data;
    assert ReadU16(UNTAGGED_IP6.data, 12) == ETHERTYPE_IP6;
    assert Sprayed(cfg, THREE_WORKERS, 1, UNTAGGED_IP6);
    assert [UNTAGGED_IP6, UNTAGGED_IP6][..1] == [UNTAGGED_IP6] && [UNTAGGED_IP6][..0] == [];
  }
}
