/** A printer for L2TPv2 data packets, and the proof that the parser undoes it
    (section 3.1 of RFC 2661; sections 6.5 and 6.6 of RFC 1661). */
module Printer {
  import opened Bytes
  import opened Header
  import opened Input
  import opened Classify

  /** Everything a LAC may choose: any flag word of version 2 without T, the Length value,
      Ns/Nr, the offset pad, and whether the PPP address, control and protocol fields are
      compressed. */
  datatype Framing = Framing(flags: u16, length: u16, ns: u16, nr: u16, pad: seq<byte>, acfc: bool, pfc: bool)

  predicate IsData(fr: Framing)
  {
    Version(fr.flags) == 2 && !HasT(fr.flags) && |fr.pad| < 0x1_0000
  }

  function Ids(fr: Framing, id: SessionId): seq<byte>
  {
    PutU16(fr.flags) + (if HasL(fr.flags) then PutU16(fr.length) else []) + PutU16(id.tid) + PutU16(id.sid)
  }

  function Options(fr: Framing): seq<byte>
    requires IsData(fr)
  {
    (if HasS(fr.flags) then PutU16(fr.ns) + PutU16(fr.nr) else [])
    + (if HasO(fr.flags) then PutU16(|fr.pad|) + fr.pad else [])
  }

  function PppHeader(fr: Framing, proto: u16): seq<byte>
  {
    (if fr.acfc then [] else [0xff, 0x03]) + (if fr.pfc then [proto % 256] else PutU16(proto))
  }

  function Print(fr: Framing, id: SessionId, proto: u16, inner: seq<byte>): seq<byte>
    requires IsData(fr)
  {
    Ids(fr, id) + Options(fr) + PppHeader(fr, proto) + inner
  }

  /** Length of all headers in front of the inner packet. */
  function HeaderLength(fr: Framing, id: SessionId, proto: u16): nat
    requires IsData(fr)
  {
    |Ids(fr, id)| + |Options(fr)| + |PppHeader(fr, proto)|
  }

  lemma ParsePrintedIds(fr: Framing, id: SessionId, rest: seq<byte>)
    requires IsData(fr)
    ensures ParseHdr(Ids(fr, id) + rest) == Data(fr.flags, id.tid, id.sid, |Ids(fr, id)|)
  {
    var b := Ids(fr, id) + rest;
    assert ReadU16(b, 0) == fr.flags;
    if HasL(fr.flags) {
      assert ReadU16(b, 4) == id.tid && ReadU16(b, 6) == id.sid;
    } else {
      assert ReadU16(b, 2) == id.tid && ReadU16(b, 4) == id.sid;
    }
  }

  lemma SkipPrintedOptions(fr: Framing, id: SessionId, rest: seq<byte>)
    requires IsData(fr)
    ensures var b := Ids(fr, id) + Options(fr) + rest; var n := |Ids(fr, id)| + |Options(fr)|;
      SkipOptions(b, Data(fr.flags, id.tid, id.sid, |Ids(fr, id)|)) == if |rest| >= 4 then Some(n) else None
  {
    var b := Ids(fr, id) + Options(fr) + rest;
    if HasO(fr.flags) {
      var at := |Ids(fr, id)| + if HasS(fr.flags) then 4 else 0;
      assert ReadU16(b, at) == |fr.pad|;
    }
  }

  /** Protocol numbers have an even first and an odd second octet; a compressed one fits one
      octet, and is not the first octet of FF 03. */
  predicate Sendable(fr: Framing, proto: u16)
  {
    proto / 256 % 2 == 0 && (fr.pfc ==> proto < 256 && proto % 2 == 1 && proto != 0xff)
  }

  lemma ParsePrintedPpp(before: seq<byte>, fr: Framing, proto: u16, inner: seq<byte>)
    requires Sendable(fr, proto)
    requires |PppHeader(fr, proto)| + |inner| >= 4
    ensures ParsePpp(before + PppHeader(fr, proto) + inner, |before|)
            == Ppp(proto, |before| + |PppHeader(fr, proto)|)
  {
    var b := before + PppHeader(fr, proto) + inner;
    var c := |before|;
    assert b[c] == PppHeader(fr, proto)[0];
    if !fr.acfc {
      assert b[c + 1] == 0x03;
      assert b[c + 2] == if fr.pfc then proto % 256 else proto / 256;
    }
    if !fr.pfc {
      var p := if fr.acfc then c else c + 2;
      assert ReadU16(b, p) == proto;
    }
  }

  /** Parsing undoes printing for every framing: the session, the protocol and exactly the
      inner bytes come back, under the label of its O and S bits, provided the PPP header
      and the inner packet together reach the four bytes that are always examined. If
      they do not, the packet is dropped as truncated. */
  lemma PrintedDataRoundTrip(fr: Framing, id: SessionId, proto: u16, inner: seq<byte>, known: map<SessionId, nat>)
    requires IsData(fr) && proto in {PPP_IP4, PPP_IP6} && id in known
    ensures var b := Print(fr, id, proto, inner); var n := HeaderLength(fr, id, proto);
      && b[n..] == inner
      && Walk(b, known) == if |PppHeader(fr, proto)| + |inner| >= 4
                           then Deliver(id, proto, n, if HasO(fr.flags) then DecapOff
                                                      else if HasS(fr.flags) then DecapSeq else Decap)
                           else Dropped
  {
    hide ParseHdr, SkipOptions, ParsePpp, Ids, Options;
    var ppp, rest := PppHeader(fr, proto), PppHeader(fr, proto) + inner;
    var b := Print(fr, id, proto, inner);
    assert b == Ids(fr, id) + (Options(fr) + rest);
    ParsePrintedIds(fr, id, Options(fr) + rest);
    assert b == Ids(fr, id) + Options(fr) + rest;
    SkipPrintedOptions(fr, id, rest);
    if |rest| >= 4 {
      ParsePrintedPpp(Ids(fr, id) + Options(fr), fr, proto, inner);
      assert b == Ids(fr, id) + Options(fr) + ppp + inner;
    }
  }

  /** Any other protocol, LCP and IPCP for two, is punted for a known session. */
  lemma OtherProtocolIsPunted(fr: Framing, id: SessionId, proto: u16, inner: seq<byte>, known: map<SessionId, nat>)
    requires IsData(fr) && Sendable(fr, proto) && proto !in {0x0021, 0x0057} && id in known
    requires |PppHeader(fr, proto)| + |inner| >= 4
    ensures Walk(Print(fr, id, proto, inner), known) == Punted(PuntPppProto)
  {
    hide ParseHdr, SkipOptions, ParsePpp, Ids, Options;
    var rest := PppHeader(fr, proto) + inner;
    var b := Print(fr, id, proto, inner);
    assert b == Ids(fr, id) + (Options(fr) + rest);
    ParsePrintedIds(fr, id, Options(fr) + rest);
    assert b == Ids(fr, id) + Options(fr) + rest;
    SkipPrintedOptions(fr, id, rest);
    ParsePrintedPpp(Ids(fr, id) + Options(fr), fr, proto, inner);
    assert b == Ids(fr, id) + Options(fr) + PppHeader(fr, proto) + inner;
  }

  lemma PutReadU16(b: seq<byte>, i: nat)
    requires i + 2 <= |b|
    ensures PutU16(ReadU16(b, i)) == b[i..i + 2]
  {}

  /** The framing that a delivered packet was sent in. */
  function FramingOf(b: seq<byte>): (fr: Framing)
    requires ParseHdr(b).Data? && SkipOptions(b, ParseHdr(b)).Some?
  {
    var h := ParseHdr(b);
    var cur := SkipOptions(b, h).value;
    var o := if HasS(h.flags) then h.off + 4 else h.off;
    var p := if b[cur] == 0xff && b[cur + 1] == 0x03 then cur + 2 else cur;
    Framing(h.flags,
            if HasL(h.flags) then ReadU16(b, 2) else 0,
            if HasS(h.flags) then ReadU16(b, h.off) else 0,
            if HasS(h.flags) then ReadU16(b, h.off + 2) else 0,
            if HasO(h.flags) then b[o + 2..cur] else [],
            p == cur, b[p] % 2 == 1)
  }

  lemma FramingIsData(b: seq<byte>)
    requires ParseHdr(b).Data? && SkipOptions(b, ParseHdr(b)).Some?
    ensures IsData(FramingOf(b))
    ensures var h := ParseHdr(b); var o := if HasS(h.flags) then h.off + 4 else h.off;
      HasO(h.flags) ==> |FramingOf(b).pad| == ReadU16(b, o)
  {
    hide ParseHdr;
  }

  lemma IdsRecovered(b: seq<byte>)
    requires ParseHdr(b).Data? && SkipOptions(b, ParseHdr(b)).Some?
    ensures var h := ParseHdr(b); Ids(FramingOf(b), SessionId(h.tid, h.sid)) == b[..h.off]
  {
    hide ParseHdr, SkipOptions;
    PutReadU16(b, 0);
    PutReadU16(b, 2);
    PutReadU16(b, 4);
    if HasL(ParseHdr(b).flags) { PutReadU16(b, 6); }
  }

  /** Ns and Nr. */
  lemma SequenceRecovered(b: seq<byte>, fr: Framing, off: nat)
    requires off + 4 <= |b| && fr.ns == ReadU16(b, off) && fr.nr == ReadU16(b, off + 2)
    ensures PutU16(fr.ns) + PutU16(fr.nr) == b[off..off + 4]
  {
    PutReadU16(b, off);
    PutReadU16(b, off + 2);
  }

  /** The offset size and its pad. */
  lemma PadRecovered(b: seq<byte>, fr: Framing, o: nat, cur: nat)
    requires o + 2 <= cur <= |b| && fr.pad == b[o + 2..cur] && cur == o + 2 + ReadU16(b, o)
    ensures |fr.pad| == ReadU16(b, o) && PutU16(|fr.pad|) + fr.pad == b[o..cur]
  {
    PutReadU16(b, o);
  }

  lemma Slices(b: seq<byte>, i: nat, j: nat, k: nat)
    requires i <= j <= k <= |b|
    ensures b[i..j] + b[j..k] == b[i..k]
  {}

  /** The fields of the recovered framing, and where its options are. */
  lemma FramingFields(b: seq<byte>)
    requires ParseHdr(b).Data? && SkipOptions(b, ParseHdr(b)).Some?
    ensures var h := ParseHdr(b); var cur := SkipOptions(b, h).value; var fr := FramingOf(b);
      var o := if HasS(h.flags) then h.off + 4 else h.off;
      && fr.flags == h.flags && h.off <= o <= cur <= |b|
      && (HasS(h.flags) ==> fr.ns == ReadU16(b, h.off) && fr.nr == ReadU16(b, h.off + 2))
      && (if HasO(h.flags) then o + 2 <= cur && cur == o + 2 + ReadU16(b, o) && fr.pad == b[o + 2..cur] else cur == o)
  {
    hide ParseHdr, ReadU16;
  }

  lemma OptionsRecovered(b: seq<byte>)
    requires ParseHdr(b).Data? && SkipOptions(b, ParseHdr(b)).Some?
    ensures IsData(FramingOf(b)) && Options(FramingOf(b)) == b[ParseHdr(b).off..SkipOptions(b, ParseHdr(b)).value]
  {
    hide ParseHdr, SkipOptions, FramingOf, PutU16, ReadU16;
    FramingIsData(b);
    FramingFields(b);
    var h, fr := ParseHdr(b), FramingOf(b);
    var cur := SkipOptions(b, h).value;
    var o := if HasS(h.flags) then h.off + 4 else h.off;
    var first := if HasS(h.flags) then PutU16(fr.ns) + PutU16(fr.nr) else [];
    var second := if HasO(h.flags) then PutU16(|fr.pad|) + fr.pad else [];
    if HasS(h.flags) { SequenceRecovered(b, fr, h.off); }
    if HasO(h.flags) { PadRecovered(b, fr, o, cur); }
    assert first == b[h.off..o] && second == b[o..cur];
    Slices(b, h.off, o, cur);
  }

  lemma PppRecovered(b: seq<byte>)
    requires ParseHdr(b).Data? && SkipOptions(b, ParseHdr(b)).Some?
    ensures var cur := SkipOptions(b, ParseHdr(b)).value; var p := ParsePpp(b, cur);
      PppHeader(FramingOf(b), p.proto) == b[cur..p.payload]
  {
    hide ParseHdr, SkipOptions, ReadU16;
    PppBytes(b, SkipOptions(b, ParseHdr(b)).value, FramingOf(b));
  }

  lemma PppBytes(b: seq<byte>, cur: nat, fr: Framing)
    requires cur + 4 <= |b|
    requires var c := if b[cur] == 0xff && b[cur + 1] == 0x03 then cur + 2 else cur;
      (fr.acfc <==> c == cur) && (fr.pfc <==> b[c] % 2 == 1)
    ensures PppHeader(fr, ParsePpp(b, cur).proto) == b[cur..ParsePpp(b, cur).payload]
  {
    hide PutU16, ReadU16;
    var c := if b[cur] == 0xff && b[cur + 1] == 0x03 then cur + 2 else cur;
    var p := ParsePpp(b, cur);
    if fr.pfc {
      assert [p.proto % 256] == b[c..p.payload];
    } else {
      PutReadU16(b, c);
    }
    if !fr.acfc {
      assert [0xff, 0x03] == b[cur..c];
    }
    Slices(b, cur, c, p.payload);
  }

  /** Conversely, whatever is delivered is the printing of the delivered session, protocol
      and payload in some framing: the parser accepts exactly what the printer produces. */
  lemma DeliveredIsPrinted(b: seq<byte>, known: map<SessionId, nat>)
    requires Walk(b, known).Deliver?
    ensures var w := Walk(b, known); var fr := FramingOf(b);
      IsData(fr) && b == Print(fr, w.id, w.proto, b[w.payload..]) && w.payload == HeaderLength(fr, w.id, w.proto)
  {
    hide SkipOptions, ParsePpp, FramingOf, Ids, Options, PppHeader;
    var w, h := Walk(b, known), ParseHdr(b);
    var cur := SkipOptions(b, h).value;
    IdsRecovered(b);
    OptionsRecovered(b);
    PppRecovered(b);
    SkipsForward(b);
    assert b == b[..h.off] + b[h.off..cur] + b[cur..w.payload] + b[w.payload..];
  }

  lemma SkipsForward(b: seq<byte>)
    requires ParseHdr(b).Data? && SkipOptions(b, ParseHdr(b)).Some?
    ensures ParseHdr(b).off <= SkipOptions(b, ParseHdr(b)).value
  {}

  /** What is delivered, exactly: the printings of known sessions' IP packets, in any framing. */
  lemma DeliversExactly(b: seq<byte>, known: map<SessionId, nat>)
    ensures Walk(b, known).Deliver? <==>
      exists fr: Framing, id: SessionId, proto: u16, inner: seq<byte> ::
        && IsData(fr) && id in known && proto in {PPP_IP4, PPP_IP6}
        && |PppHeader(fr, proto)| + |inner| >= 4 && b == Print(fr, id, proto, inner)
  {
    hide Print, ParseHdr, SkipOptions, ParsePpp;
    var w := Walk(b, known);
    if w.Deliver? {
      DeliveredIsPrinted(b, known);
      PrintedDataRoundTrip(FramingOf(b), w.id, w.proto, b[w.payload..], known);
    }
    if fr: Framing, id: SessionId, proto: u16, inner: seq<byte> :|
      IsData(fr) && id in known && proto in {PPP_IP4, PPP_IP6}
      && |PppHeader(fr, proto)| + |inner| >= 4 && b == Print(fr, id, proto, inner)
    {
      PrintedDataRoundTrip(fr, id, proto, inner, known);
    }
  }

  lemma LongEnough(inner: seq<byte>)
    requires FlowKey(inner, 0).Some?
    ensures |inner| >= 20
  {}

  /** All encapsulations of one inner packet are classified alike: whatever the outer
      headers, the L2TP flags, Ns/Nr, pad and PPP compression, the flow key the classifier
      takes is the inner packet's own. */
  lemma FramingsHashAlike(f: seq<byte>, fr: Framing, id: SessionId, proto: u16, inner: seq<byte>,
                          localIps: seq<Ip4>, fastpath: bool)
    requires IsData(fr) && proto in {PPP_IP4, PPP_IP6} && FlowKey(inner, 0).Some?
    requires DataAt(f).Some? && f[DataAt(f).value..] == Print(fr, id, proto, inner)
    ensures var c := ClassifyFrame(f, localIps, fastpath, true);
      c.kind in {Inner, Fast} && c.key == FlowKey(inner, 0)
  {
    hide Walk, InnerOffset, FlowKey, Print, HeaderLength, ClassifyFrame, ParseHdr, DataAt;
    var b, known := Print(fr, id, proto, inner), map[id := 0];
    LongEnough(inner);
    PrintedDataRoundTrip(fr, id, proto, inner, known);
    DeliveredSession(b, known);
    WalksAgree(f, localIps, fastpath, known);
  }

  lemma DeliveredSession(b: seq<byte>, known: map<SessionId, nat>)
    requires Walk(b, known).Deliver?
    ensures var h := ParseHdr(b); h.Data? && SessionId(h.tid, h.sid) == Walk(b, known).id
  {}
}
