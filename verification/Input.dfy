/** l2tvpp-input (node.c): decapsulate, punt or drop each packet of a frame. */
module Input {
  import opened Bytes
  import opened Header

  const PPP_IP4: u16 := 0x0021
  const PPP_IP6: u16 := 0x0057
  const NO_INTERFACE: nat := 0xFFFF_FFFF

  datatype Error =
    | Decap | DecapSeq | DecapOff
    | PuntControl | PuntNoSession | PuntPppProto | PuntUnsupported
    | Truncated

  datatype Next = Ip4Input | Ip4InputNoChecksum | Ip6Input | Ip4Punt | ErrorDrop

  /** A packet buffer: `data` is its memory, the current packet is `len` bytes from
      `pos`, `chained` counts the bytes held by further buffers of a chain, and
      l2/l3/l4 are the header offsets recorded by the nodes on the way. */
  datatype RawBuffer = RawBuffer(
    data: seq<byte>, pos: nat, len: nat, chained: nat,
    l2: int, l3: int, l4: int, rxIf: nat, txIf: nat, error: Option<Error>)

  type Buffer = b: RawBuffer | b.pos + b.len <= |b.data|
    witness RawBuffer([], 0, 0, 0, 0, 0, 0, 0, 0, None)

  function Current(b: Buffer): (s: seq<byte>)
    ensures |s| == b.len
  {
    b.data[b.pos..b.pos + b.len]
  }

  /** vlib_buffer_advance; a negative step moves back over stripped headers. */
  function Advance(b: Buffer, n: int): (r: Buffer)
    requires -(b.pos as int) <= n <= b.len
  {
    b.(pos := b.pos + n, len := b.len - n)
  }

  // ----- the walk over one L2TP packet ----------------------------------------

  /** The label a decapsulated packet is counted under; O is tested after S. */
  function DecapLabel(flags: u16): Error
  {
    if HasO(flags) then DecapOff else if HasS(flags) then DecapSeq else Decap
  }

  /** Skip Ns/Nr and the offset pad. None when the offset size field or the four bytes
      the PPP header may need are not inside the packet. */
  function SkipOptions(b: seq<byte>, h: Hdr): (cur: Option<nat>)
    requires h.Data?
    ensures cur.Some? ==> cur.value + 4 <= |b|
  {
    var c0 := if HasS(h.flags) then h.off + 4 else h.off;
    if HasO(h.flags) && c0 + 2 > |b| then None
    else
      var c1 := if HasO(h.flags) then c0 + 2 + ReadU16(b, c0) else c0;
      if c1 + 4 > |b| then None else Some(c1)
  }

  datatype Ppp = Ppp(proto: u16, payload: nat)

  /** PPP: optional FF 03, then a one-byte protocol if odd, two bytes otherwise. */
  function ParsePpp(b: seq<byte>, cur: nat): (p: Ppp)
    requires cur + 4 <= |b|
    ensures cur < p.payload <= cur + 4
  {
    var c := if b[cur] == 0xff && b[cur + 1] == 0x03 then cur + 2 else cur;
    if b[c] % 2 == 1 then Ppp(b[c], c + 1) else Ppp(ReadU16(b, c), c + 2)
  }

  /** The fate of one packet. `payload` is the length of the L2TP and PPP headers. */
  datatype Fate =
    | Deliver(id: SessionId, proto: u16, payload: nat, tag: Error)
    | Punted(reason: Error)
    | Dropped

  function Walk(b: seq<byte>, known: map<SessionId, nat>): (f: Fate)
    ensures f.Deliver? ==> f.id in known && f.payload <= |b| && f.proto in {PPP_IP4, PPP_IP6}
    ensures f.Deliver? ==> f.tag in {Decap, DecapSeq, DecapOff}
    ensures f.Punted? ==> f.reason in {PuntControl, PuntNoSession, PuntPppProto, PuntUnsupported}
  {
    var h := ParseHdr(b);
    match h
    case NotV2 => Punted(PuntUnsupported)
    case Control => Punted(PuntControl)
    case TooShort => Dropped
    case Data(flags, tid, sid, _) =>
      match SkipOptions(b, h)
      case None => Dropped
      case Some(cur) =>
        var id := SessionId(tid, sid);
        if id !in known then Punted(PuntNoSession)
        else
          var p := ParsePpp(b, cur);
          if p.proto == PPP_IP4 || p.proto == PPP_IP6
          then Deliver(id, p.proto, p.payload, DecapLabel(flags))
          else Punted(PuntPppProto)
  }

  // ----- one packet -----------------------------------------------------------

  /** Where a packet goes, its error label, and the buffer as it leaves. */
  datatype Verdict = Verdict(next: Next, tag: Error, buffer: Buffer)

  /** The upstream nodes recorded the IP header at or before the current position. */
  predicate Rewindable(b: Buffer) { 0 <= b.l3 <= b.pos }

  /** l2tvpp_rewind_to_ip */
  function RewindToIp(b: Buffer): Buffer
    requires Rewindable(b)
  {
    Advance(b, b.l3 - b.pos)
  }

  /** One packet through l2tvpp-input. `known` maps each session to its interface. */
  function InputStep(b: Buffer, known: map<SessionId, nat>, noChecksum: bool): Verdict
    requires Rewindable(b)
  {
    match Walk(Current(b), known)
    case Dropped => Verdict(ErrorDrop, Truncated, b.(error := Some(Truncated)))
    case Punted(reason) => Verdict(Ip4Punt, reason, RewindToIp(b))
    case Deliver(id, proto, payload, tag) =>
      var next := if proto == PPP_IP6 then Ip6Input
                  else if noChecksum then Ip4InputNoChecksum else Ip4Input;
      Verdict(next, tag, Advance(b, payload).(rxIf := known[id], txIf := NO_INTERFACE))
  }

  predicate IsDecap(v: Verdict) { v.next in {Ip4Input, Ip4InputNoChecksum, Ip6Input} }

  // ----- a frame --------------------------------------------------------------

  function Steps(frame: seq<Buffer>, known: map<SessionId, nat>, noChecksum: bool): (vs: seq<Verdict>)
    requires forall b :: b in frame ==> Rewindable(b)
    ensures |vs| == |frame|
    ensures forall i {:trigger InputStep(frame[i], known, noChecksum)} ::
      0 <= i < |frame| ==> vs[i] == InputStep(frame[i], known, noChecksum)
  {
    seq(|frame|, i requires 0 <= i < |frame| => InputStep(frame[i], known, noChecksum))
  }

  function ChainLength(b: Buffer): nat { b.len + b.chained }

  // what one packet adds: a packet and its bytes to its interface, one to its label
  function OnePacket(v: Verdict, w: nat): nat { if IsDecap(v) && v.buffer.rxIf == w then 1 else 0 }

  function ItsOctets(v: Verdict, w: nat): nat
  {
    if IsDecap(v) && v.buffer.rxIf == w then ChainLength(v.buffer) else 0
  }

  function OneLabel(v: Verdict, e: Error): nat { if v.next != ErrorDrop && v.tag == e then 1 else 0 }

  /** Packets the one-by-one rule would add to interface `w`. */
  function Packets(vs: seq<Verdict>, w: nat): nat
  {
    if vs == [] then 0 else Packets(vs[..|vs| - 1], w) + OnePacket(vs[|vs| - 1], w)
  }

  /** Bytes the one-by-one rule would add to interface `w`. */
  function Octets(vs: seq<Verdict>, w: nat): nat
  {
    if vs == [] then 0 else Octets(vs[..|vs| - 1], w) + ItsOctets(vs[|vs| - 1], w)
  }

  /** Packets counted under label `e` by the node itself, that is, not dropped. */
  function Labelled(vs: seq<Verdict>, e: Error): nat
  {
    if vs == [] then 0 else Labelled(vs[..|vs| - 1], e) + OneLabel(vs[|vs| - 1], e)
  }

  function Drops(vs: seq<Verdict>): nat
  {
    if vs == [] then 0
    else Drops(vs[..|vs| - 1]) + if vs[|vs| - 1].next == ErrorDrop then 1 else 0
  }

  function AllLabels(v: Verdict): nat
  {
    OneLabel(v, Decap) + OneLabel(v, DecapSeq) + OneLabel(v, DecapOff) + OneLabel(v, PuntControl)
    + OneLabel(v, PuntNoSession) + OneLabel(v, PuntPppProto) + OneLabel(v, PuntUnsupported)
  }

  lemma OneOfAll(b: Buffer, known: map<SessionId, nat>, noChecksum: bool)
    requires Rewindable(b)
    ensures var v := InputStep(b, known, noChecksum);
      AllLabels(v) + (if v.next == ErrorDrop then 1 else 0) == 1 && OneLabel(v, Truncated) == 0
  {
    hide Walk;
  }

  /** Every packet of a frame is counted exactly once: under one non-drop label, or as
      a drop that error-drop counts. The label Truncated is never counted here. */
  lemma {:induction false} CountedOnce(vs: seq<Verdict>, frame: seq<Buffer>,
                                       known: map<SessionId, nat>, noChecksum: bool)
    requires forall b :: b in frame ==> Rewindable(b)
    requires vs == Steps(frame, known, noChecksum)
    ensures Labelled(vs, Decap) + Labelled(vs, DecapSeq) + Labelled(vs, DecapOff)
            + Labelled(vs, PuntControl) + Labelled(vs, PuntNoSession)
            + Labelled(vs, PuntPppProto) + Labelled(vs, PuntUnsupported)
            + Drops(vs) == |frame|
    ensures Labelled(vs, Truncated) == 0
    decreases |frame|
  {
    if frame != [] {
      hide InputStep, OneLabel;
      var n := |frame| - 1;
      CountedOnce(vs[..n], frame[..n], known, noChecksum);
      OneOfAll(frame[n], known, noChecksum);
      assert vs[n] == InputStep(frame[n], known, noChecksum);
    }
  }

  /** Received totals of an interface, as kept by the node's thread. */
  class InterfaceCounters {
    var packets: map<nat, nat>
    var octets: map<nat, nat>

    constructor ()
      ensures packets == map[] && octets == map[]
    {
      packets, octets := map[], map[];
    }

    /** vlib_increment_combined_counter */
    method Increment(w: nat, n: nat, bytes: nat)
      modifies this
      ensures forall u :: Total(packets, u) == Total(old(packets), u) + if u == w then n else 0
      ensures forall u :: Total(octets, u) == Total(old(octets), u) + if u == w then bytes else 0
    {
      packets := packets[w := Total(packets, w) + n];
      octets := octets[w := Total(octets, w) + bytes];
    }
  }

  /** An interface that was never counted stands at zero. */
  function Total(m: map<nat, nat>, w: nat): nat { if w in m then m[w] else 0 }

  /** The batch still to be flushed, as seen by interface `u`. */
  function Pending(u: nat, batchIf: nat, n: nat): nat { if u == batchIf then n else 0 }

  function CountOf(counts: map<Error, nat>, e: Error): nat
  {
    if e in counts then counts[e] else 0
  }

  // ----- the running tally ----------------------------------------------------

  /** With the pending batch, the totals are the one-by-one counts of `vs`. */
  ghost predicate PacketsTallied(vs: seq<Verdict>, before: map<nat, nat>, now: map<nat, nat>, batchIf: nat, n: nat)
  {
    forall w :: Total(now, w) + Pending(w, batchIf, n) == Total(before, w) + Packets(vs, w)
  }

  ghost predicate OctetsTallied(vs: seq<Verdict>, before: map<nat, nat>, now: map<nat, nat>, batchIf: nat, n: nat)
  {
    forall w :: Total(now, w) + Pending(w, batchIf, n) == Total(before, w) + Octets(vs, w)
  }

  ghost predicate LabelsTallied(vs: seq<Verdict>, counts: map<Error, nat>)
  {
    forall e :: CountOf(counts, e) == Labelled(vs, e)
  }

  /** One packet more, in the totals or in the batch. */
  ghost predicate PacketCounted(v: Verdict, m: map<nat, nat>, batchIf: nat, n: nat,
                                m': map<nat, nat>, batchIf': nat, n': nat)
  {
    forall w :: Total(m', w) + Pending(w, batchIf', n') == Total(m, w) + Pending(w, batchIf, n) + OnePacket(v, w)
  }

  ghost predicate OctetsCounted(v: Verdict, m: map<nat, nat>, batchIf: nat, n: nat,
                                m': map<nat, nat>, batchIf': nat, n': nat)
  {
    forall w :: Total(m', w) + Pending(w, batchIf', n') == Total(m, w) + Pending(w, batchIf, n) + ItsOctets(v, w)
  }

  ghost predicate LabelCounted(v: Verdict, counts: map<Error, nat>, counts': map<Error, nat>)
  {
    forall e :: CountOf(counts', e) == CountOf(counts, e) + OneLabel(v, e)
  }

  lemma NothingTallied(m: map<nat, nat>, batchIf: nat)
    ensures PacketsTallied([], m, m, batchIf, 0) && OctetsTallied([], m, m, batchIf, 0) && LabelsTallied([], map[])
  {}

  lemma PacketsStep(vs: seq<Verdict>, i: nat, before: map<nat, nat>, m: map<nat, nat>, b: nat, n: nat,
                    m': map<nat, nat>, b': nat, n': nat)
    requires i < |vs| && PacketsTallied(vs[..i], before, m, b, n) && PacketCounted(vs[i], m, b, n, m', b', n')
    ensures PacketsTallied(vs[..i + 1], before, m', b', n')
  {
    assert vs[..i + 1][..i] == vs[..i];
    assert forall w :: Packets(vs[..i + 1], w) == Packets(vs[..i], w) + OnePacket(vs[i], w);
  }

  lemma OctetsStep(vs: seq<Verdict>, i: nat, before: map<nat, nat>, m: map<nat, nat>, b: nat, n: nat,
                   m': map<nat, nat>, b': nat, n': nat)
    requires i < |vs| && OctetsTallied(vs[..i], before, m, b, n) && OctetsCounted(vs[i], m, b, n, m', b', n')
    ensures OctetsTallied(vs[..i + 1], before, m', b', n')
  {
    assert vs[..i + 1][..i] == vs[..i];
    assert forall w :: Octets(vs[..i + 1], w) == Octets(vs[..i], w) + ItsOctets(vs[i], w);
  }

  lemma LabelsStep(vs: seq<Verdict>, i: nat, counts: map<Error, nat>, counts': map<Error, nat>)
    requires i < |vs| && LabelsTallied(vs[..i], counts) && LabelCounted(vs[i], counts, counts')
    ensures LabelsTallied(vs[..i + 1], counts')
  {
    assert vs[..i + 1][..i] == vs[..i];
    assert forall e :: Labelled(vs[..i + 1], e) == Labelled(vs[..i], e) + OneLabel(vs[i], e);
  }

  /** Count one packet. A received one joins the batch if it is on the same interface;
      otherwise the batch is flushed and the next one started. The locals are 32-bit. */
  method CountPacket(v: Verdict, batchIf: nat, n: u32, bytes: u32, counts: map<Error, nat>,
                     counters: InterfaceCounters)
    returns (batchIf': nat, n': u32, bytes': u32, counts': map<Error, nat>)
    requires n + 1 < 0x1_0000_0000
    requires IsDecap(v) ==> bytes + ChainLength(v.buffer) < 0x1_0000_0000
    requires n == 0 ==> bytes == 0
    modifies counters
    ensures n' <= n + 1 && bytes' <= bytes + (if IsDecap(v) then ChainLength(v.buffer) else 0)
    ensures n' == 0 ==> bytes' == 0
    ensures PacketCounted(v, old(counters.packets), batchIf, n, counters.packets, batchIf', n')
    ensures OctetsCounted(v, old(counters.octets), batchIf, bytes, counters.octets, batchIf', bytes')
    ensures LabelCounted(v, counts, counts')
  {
    batchIf', n', bytes', counts' := batchIf, n, bytes, counts;
    if IsDecap(v) {
      var w, len0 := v.buffer.rxIf, ChainLength(v.buffer);
      if w == batchIf {
        n', bytes' := (n + 1) % 0x1_0000_0000, (bytes + len0) % 0x1_0000_0000;
      } else {
        Flush(batchIf, n, bytes, counters);
        batchIf', n', bytes' := w, 1, len0;
      }
    }
    // error-drop counts the dropped packets; all others keep forwarding
    if v.next != ErrorDrop {
      counts' := counts'[v.tag := CountOf(counts', v.tag) + 1];
    }
  }

  method Flush(batchIf: nat, n: u32, bytes: u32, counters: InterfaceCounters)
    requires n == 0 ==> bytes == 0
    modifies counters
    ensures forall u :: Total(counters.packets, u) == Total(old(counters.packets), u) + Pending(u, batchIf, n)
    ensures forall u :: Total(counters.octets, u) == Total(old(counters.octets), u) + Pending(u, batchIf, bytes)
  {
    if n != 0 {
      counters.Increment(batchIf, n, bytes);
    }
  }

  const FRAME_SIZE: nat := 256
  const MAX_CHAIN: nat := 0xFF_FFFF

  /** Process one buffer of the frame in place. */
  method ProcessBuffer(frame: array<Buffer>, i: nat, known: map<SessionId, nat>, noChecksum: bool,
                       ghost was: seq<Buffer>)
    returns (v: Verdict)
    requires i < frame.Length == |was| && frame[i] == was[i]
    requires forall b :: b in was ==> Rewindable(b)
    modifies frame
    ensures v == Steps(was, known, noChecksum)[i]
    ensures IsDecap(v) ==> ChainLength(v.buffer) <= ChainLength(was[i])
    ensures frame[i] == v.buffer
    ensures forall j :: 0 <= j < frame.Length && j != i ==> frame[j] == old(frame[j])
  {
    v := InputStep(frame[i], known, noChecksum);
    assert v == InputStep(was[i], known, noChecksum);
    frame[i] := v.buffer;
  }

  /** The node: every buffer of the frame is replaced by its verdict's buffer, and the
      batched per-interface sums (kept in 32-bit locals and flushed when the interface
      changes) add up to the one-by-one totals. */
  method InputNode(frame: array<Buffer>, known: map<SessionId, nat>, noChecksum: bool,
                   counters: InterfaceCounters)
    returns (nexts: seq<Next>, counts: map<Error, nat>)
    requires frame.Length <= FRAME_SIZE
    requires forall i :: 0 <= i < frame.Length ==> Rewindable(frame[i])
    requires forall i :: 0 <= i < frame.Length ==> ChainLength(frame[i]) <= MAX_CHAIN
    modifies frame, counters
    ensures var vs := Steps(old(frame[..]), known, noChecksum);
      && |nexts| == frame.Length
      && (forall i :: 0 <= i < frame.Length ==> frame[i] == vs[i].buffer && nexts[i] == vs[i].next)
      && (forall e :: CountOf(counts, e) == Labelled(vs, e))
      && (forall w :: Total(counters.packets, w) == Total(old(counters.packets), w) + Packets(vs, w))
      && (forall w :: Total(counters.octets, w) == Total(old(counters.octets), w) + Octets(vs, w))
  {
    hide InputStep, Walk, Steps;
    hide PacketsTallied, OctetsTallied, LabelsTallied, PacketCounted, OctetsCounted, LabelCounted;
    ghost var was := frame[..];
    ghost var packets0, octets0 := counters.packets, counters.octets;
    ghost var vs := Steps(was, known, noChecksum);
    nexts, counts := [], map[];
    var statsIf: nat, statsPackets: u32, statsOctets: u32 := NO_INTERFACE, 0, 0;
    var i := 0;
    NothingTallied(packets0, statsIf);
    NothingTallied(octets0, statsIf);
    assert vs[..0] == [];
    while i < frame.Length
      invariant 0 <= i <= frame.Length
      invariant forall j :: 0 <= j < i ==> frame[j] == vs[j].buffer
      invariant forall j :: i <= j < frame.Length ==> frame[j] == was[j]
      invariant |nexts| == i && forall j :: 0 <= j < i ==> nexts[j] == vs[j].next
      invariant statsPackets <= i && statsOctets <= i * 0xFF_FFFF
      invariant statsPackets == 0 ==> statsOctets == 0
      invariant LabelsTallied(vs[..i], counts)
      invariant PacketsTallied(vs[..i], packets0, counters.packets, statsIf, statsPackets)
      invariant OctetsTallied(vs[..i], octets0, counters.octets, statsIf, statsOctets)
    {
      ghost var m, o, b, n, bytes, c :=
        counters.packets, counters.octets, statsIf, statsPackets, statsOctets, counts;
      var v := ProcessBuffer(frame, i, known, noChecksum, was);
      statsIf, statsPackets, statsOctets, counts :=
        CountPacket(v, statsIf, statsPackets, statsOctets, counts, counters);
      PacketsStep(vs, i, packets0, m, b, n, counters.packets, statsIf, statsPackets);
      OctetsStep(vs, i, octets0, o, b, bytes, counters.octets, statsIf, statsOctets);
      LabelsStep(vs, i, c, counts);
      nexts := nexts + [v.next];
      i := i + 1;
    }
    assert vs[..i] == vs;
    FlushAll(statsIf, statsPackets, statsOctets, counters, packets0, octets0, counts, vs);
  }

  /** The flush after the last packet: no batch is left, so the totals are the counts. */
  method FlushAll(batchIf: nat, n: u32, bytes: u32, counters: InterfaceCounters, ghost packets0: map<nat, nat>,
                  ghost octets0: map<nat, nat>, ghost counts: map<Error, nat>, ghost vs: seq<Verdict>)
    requires n == 0 ==> bytes == 0
    requires LabelsTallied(vs, counts)
    requires PacketsTallied(vs, packets0, counters.packets, batchIf, n)
    requires OctetsTallied(vs, octets0, counters.octets, batchIf, bytes)
    modifies counters
    ensures forall e :: CountOf(counts, e) == Labelled(vs, e)
    ensures forall w :: Total(counters.packets, w) == Total(packets0, w) + Packets(vs, w)
    ensures forall w :: Total(counters.octets, w) == Total(octets0, w) + Octets(vs, w)
  {
    Flush(batchIf, n, bytes, counters);
  }

  // ----- what the walk means --------------------------------------------------

  /** A punted packet is handed back exactly as the IP layer saw it: the same bytes,
      starting at the recorded IP header. */
  lemma PuntRestoresIpPacket(b: Buffer, ip: Buffer, known: map<SessionId, nat>, noChecksum: bool)
    requires ip.pos == ip.l3 && ip.pos <= b.pos <= ip.pos + ip.len
    requires b == Advance(ip, b.pos - ip.pos).(l4 := b.l4)
    requires InputStep(b, known, noChecksum).next == Ip4Punt
    ensures InputStep(b, known, noChecksum).buffer == ip.(l4 := b.l4)
  {}

  // ----- every packet's fate, read off its bytes ------------------------------

  // The first octet of the flag word: T 128, L 64, S 8, O 2; the second one ends in the version.
  predicate CarriesControl(b: seq<byte>) requires |b| >= 6 { b[1] % 16 == 2 && b[0] >= 128 }
  predicate CarriesData(b: seq<byte>) requires |b| >= 6 { b[1] % 16 == 2 && b[0] < 128 }

  function Network16(high: byte, low: byte): u16 { 256 * (high as int) + low }

  /** Behind the ids of a data header. */
  function IdsEnd(b: seq<byte>): (n: nat)
    requires |b| >= 6
  {
    if b[0] / 64 % 2 == 1 then 8 else 6
  }

  /** Behind Ns and Nr. */
  function SizeAt(b: seq<byte>): nat
    requires |b| >= 6
  {
    if b[0] / 8 % 2 == 1 then IdsEnd(b) + 4 else IdsEnd(b)
  }

  /** The PPP header of a data packet, behind the offset pad if there is one. */
  function PppStart(b: seq<byte>): nat
    requires |b| >= 6 && (b[0] / 2 % 2 == 1 ==> |b| >= SizeAt(b) + 2)
  {
    var o := SizeAt(b);
    if b[0] / 2 % 2 == 1 then o + 2 + Network16(b[o], b[o + 1]) else o
  }

  /** Too short for a header, or data that ends before the ids, the offset size or the four
      bytes a PPP header may need. */
  predicate IsTruncated(b: seq<byte>)
  {
    || |b| < 6
    || (CarriesData(b) && (|b| < IdsEnd(b) || (b[0] / 2 % 2 == 1 && |b| < SizeAt(b) + 2) || |b| < PppStart(b) + 4))
  }

  /** Tunnel and session id: the four bytes in front of `IdsEnd`. */
  function SessionOf(b: seq<byte>): SessionId
    requires |b| >= 6 && |b| >= IdsEnd(b)
  {
    var n := IdsEnd(b);
    SessionId(Network16(b[n - 4], b[n - 3]), Network16(b[n - 2], b[n - 1]))
  }

  /** Where the PPP protocol field is, behind FF 03 if that is there. */
  function ProtocolAt(b: seq<byte>): nat
    requires |b| >= 6 && !IsTruncated(b) && CarriesData(b)
  {
    var c := PppStart(b);
    if b[c] == 0xff && b[c + 1] == 0x03 then c + 2 else c
  }

  /** One byte if odd, else two. */
  function ProtocolOf(b: seq<byte>): u16
    requires |b| >= 6 && !IsTruncated(b) && CarriesData(b)
  {
    var c := ProtocolAt(b);
    if b[c] % 2 == 1 then b[c] else Network16(b[c], b[c + 1])
  }

  function PayloadAt(b: seq<byte>): nat
    requires |b| >= 6 && !IsTruncated(b) && CarriesData(b)
  {
    ProtocolAt(b) + if b[ProtocolAt(b)] % 2 == 1 then 1 else 2
  }

  lemma FlagBits(b: seq<byte>)
    requires |b| >= 6
    ensures var f := ReadU16(b, 0);
      && Version(f) == b[1] % 16 && (HasT(f) <==> b[0] >= 128) && (HasL(f) <==> b[0] / 64 % 2 == 1)
      && (HasS(f) <==> b[0] / 8 % 2 == 1) && (HasO(f) <==> b[0] / 2 % 2 == 1)
  {}

  lemma TruncatedIff(b: seq<byte>)
    ensures ParseHdr(b).Data? ==>
      && |b| >= 6 && CarriesData(b) && IdsEnd(b) == ParseHdr(b).off <= |b|
      && SessionOf(b) == SessionId(ParseHdr(b).tid, ParseHdr(b).sid)
      && (SkipOptions(b, ParseHdr(b)) == if IsTruncated(b) then None else Some(PppStart(b)))
    ensures ParseHdr(b).TooShort? <==> |b| < 6 || (CarriesData(b) && |b| < IdsEnd(b))
    ensures ParseHdr(b).Control? <==> |b| >= 6 && CarriesControl(b)
    ensures ParseHdr(b).NotV2? <==> |b| >= 6 && b[1] % 16 != 2
  {
    if |b| >= 6 { FlagBits(b); }
  }

  /** The walk, on the bytes: what is dropped, punted and why, and delivered from where. */
  lemma WalkOnBytes(b: seq<byte>, known: map<SessionId, nat>)
    ensures IsTruncated(b) ==> Walk(b, known) == Dropped
    ensures |b| >= 6 && CarriesControl(b) ==> Walk(b, known) == Punted(PuntControl)
    ensures |b| >= 6 && b[1] % 16 != 2 ==> Walk(b, known) == Punted(PuntUnsupported)
    ensures |b| >= 6 && CarriesData(b) && !IsTruncated(b) ==>
      Walk(b, known) ==
        if SessionOf(b) !in known then Punted(PuntNoSession)
        else if ProtocolOf(b) !in {0x0021, 0x0057} then Punted(PuntPppProto)
        else Deliver(SessionOf(b), ProtocolOf(b), PayloadAt(b),
                     if b[0] / 2 % 2 == 1 then DecapOff else if b[0] / 8 % 2 == 1 then DecapSeq else Decap)
  {
    hide ParseHdr, SkipOptions, IsTruncated, SessionOf;
    TruncatedIff(b);
    if ParseHdr(b).Data? { FlagBits(b); }
    if |b| >= 6 { NotTruncated(b); } else { ShortIsTruncated(b); }
  }

  lemma ShortIsTruncated(b: seq<byte>)
    requires |b| < 6
    ensures IsTruncated(b)
  {}

  lemma NotTruncated(b: seq<byte>)
    requires |b| >= 6
    ensures !CarriesData(b) ==> !IsTruncated(b)
    ensures CarriesData(b) && |b| < IdsEnd(b) ==> IsTruncated(b)
    ensures CarriesData(b) && !IsTruncated(b) ==> PppStart(b) + 4 <= |b|
  {}

  /** Handed back to the IP layer under a label, from the recorded IP header on. */
  predicate PuntedAs(v: Verdict, b: Buffer, reason: Error)
    requires Rewindable(b)
  {
    v == Verdict(Ip4Punt, reason, b.(pos := b.l3, len := b.len + b.pos - b.l3))
  }

  /** What l2tvpp-input does with every packet. Truncated ones are dropped, and no others.
      Control messages, other versions, unknown sessions and other protocols are punted, each
      under its own label, as the IP packet they came in. The rest is delivered from its
      payload on, received on its session's interface. */
  lemma EveryFate(b: Buffer, known: map<SessionId, nat>, noChecksum: bool)
    requires Rewindable(b)
    ensures var v := InputStep(b, known, noChecksum); var f := Current(b);
      && (v.next == ErrorDrop <==> IsTruncated(f))
      && (IsTruncated(f) ==> v == Verdict(ErrorDrop, Truncated, b.(error := Some(Truncated))))
      && (|f| >= 6 && CarriesControl(f) ==> PuntedAs(v, b, PuntControl))
      && (|f| >= 6 && f[1] % 16 != 2 ==> PuntedAs(v, b, PuntUnsupported))
    ensures var v := InputStep(b, known, noChecksum); var f := Current(b);
      |f| >= 6 && CarriesData(f) && !IsTruncated(f) ==>
        && (SessionOf(f) !in known ==> PuntedAs(v, b, PuntNoSession))
        && (SessionOf(f) in known && ProtocolOf(f) !in {0x0021, 0x0057} ==> PuntedAs(v, b, PuntPppProto))
        && (SessionOf(f) in known && ProtocolOf(f) in {0x0021, 0x0057} ==>
              && v.next == (if ProtocolOf(f) == 0x0057 then Ip6Input
                            else if noChecksum then Ip4InputNoChecksum else Ip4Input)
              && v.tag == (if f[0] / 2 % 2 == 1 then DecapOff else if f[0] / 8 % 2 == 1 then DecapSeq else Decap)
              && v.buffer == b.(pos := b.pos + PayloadAt(f), len := b.len - PayloadAt(f),
                                rxIf := known[SessionOf(f)], txIf := 0xFFFF_FFFF))
  {
    hide Walk, SessionOf, ProtocolOf, PayloadAt;
    WalkOnBytes(Current(b), known);
    if |Current(b)| >= 6 { NotTruncated(Current(b)); }
  }

  /** What a packet adds to the counters: a delivered one counts on its session's interface,
      with the bytes of its payload and of the rest of its chain; and every packet that is
      not dropped counts under its label, once. */
  lemma CountedAs(b: Buffer, known: map<SessionId, nat>, noChecksum: bool, w: nat, e: Error)
    requires Rewindable(b)
    ensures var v := InputStep(b, known, noChecksum); var mine := IsDecapTag(v.tag) && v.buffer.rxIf == w;
      && OnePacket(v, w) == (if mine then 1 else 0)
      && ItsOctets(v, w) == (if mine then |Current(v.buffer)| + b.chained else 0)
      && OneLabel(v, e) == (if v.tag == e && e != Truncated then 1 else 0)
  {
    hide Walk;
  }

  predicate IsDecapTag(e: Error) { e == Decap || e == DecapSeq || e == DecapOff }
}
