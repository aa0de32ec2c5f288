/** l2tvpp-handoff (handoff.c): spread decapsulation over the workers by session. */
module Handoff {
  import opened Bytes
  import opened Header
  import opened Input
  import opened Fabric

  /** The thread chosen for a packet at its L2TP header; anything but data stays put. */
  function Target(b: seq<byte>, nWorkers: u32, thisThread: u16): u16
  {
    var h := ParseHdr(b);
    if nWorkers > 0 && h.Data? then HandoffWorker(h.tid, h.sid, nWorkers) else thisThread
  }

  /** On the bytes: data goes to the worker its ids hash to; control messages, other versions
      and what is too short for ids stay on this thread, and so does everything if there
      are no workers. */
  lemma EveryTarget(b: seq<byte>, nWorkers: u32, thisThread: u16)
    ensures Target(b, nWorkers, thisThread)
            == if nWorkers > 0 && |b| >= 6 && CarriesData(b) && |b| >= IdsEnd(b)
               then (1 + HashOf(SessionOf(b)) % nWorkers) % 0x1_0000 else thisThread
  {
    hide ParseHdr, SessionHash;
    TruncatedIff(b);
  }

  /** The hash of the key word; `SessionHashBits` says what it is. */
  function HashOf(id: SessionId): u32 { SessionHash((id.tid as int) * 0x1_0000 + id.sid) }

  function TargetOf(nWorkers: u32, thisThread: u16): seq<byte> -> u16
  {
    (b: seq<byte>) => Target(b, nWorkers, thisThread)
  }

  function InSession(id: SessionId): seq<byte> -> bool
  {
    (b: seq<byte>) => ParseHdr(b).Data? && SessionId(ParseHdr(b).tid, ParseHdr(b).sid) == id
  }

  function Depths(cap: nat): u16 -> Option<nat> { _ => Some(cap) }

  /** The node: choose a thread for every buffer, then hand the frame to the queues. What
      does not fit is counted as congestion drop. */
  method HandoffNode(frame: seq<seq<byte>>, room: seq<bool>, nWorkers: u32, thisThread: u16, cap: nat,
                     s: State<seq<byte>, u16>)
    returns (s': State<seq<byte>, u16>, congestion: nat)
    requires |room| == |frame|
    ensures s' == After(TargetOf(nWorkers, thisThread), Depths(cap), s, Arrivals(frame, room))
    ensures congestion == |s'.dropped| - |s.dropped|
  {
    var threads := new u16[|frame|];
    for i := 0 to |frame|
      invariant forall j :: 0 <= j < i ==> threads[j] == Target(frame[j], nWorkers, thisThread)
    {
      var h := ParseHdr(frame[i]);
      if nWorkers > 0 && h.Data? {
        threads[i] := HandoffWorker(h.tid, h.sid, nWorkers);
      } else {
        threads[i] := thisThread;
      }
    }
    var enqueued;
    s', enqueued := Enqueue(frame, threads[..], room, TargetOf(nWorkers, thisThread), Depths(cap), s);
    congestion := |frame| - enqueued;
  }

  /** Per-session order over whole runs: whatever the interleaving of arrivals, workers and
      drops, all data packets of a session are processed by the one worker its ids hash to,
      and in an order that is a subsequence of their arrival order. */
  lemma SessionOrder(nWorkers: u32, thisThread: u16, cap: nat, events: seq<Event<seq<byte>, u16>>, id: SessionId)
    requires nWorkers > 0
    ensures var s := Run(TargetOf(nWorkers, thisThread), Depths(cap), events);
      var home := HandoffWorker(id.tid, id.sid, nWorkers);
      && IsSubsequence(Filter(At(s.done, home), InSession(id)), Filter(s.arrived, InSession(id)))
      && forall w: u16 :: w != home ==> Filter(At(s.done, w), InSession(id)) == []
  {
    hide HandoffWorker;
    ConsumedInOrder(TargetOf(nWorkers, thisThread), Depths(cap), events, InSession(id),
                    HandoffWorker(id.tid, id.sid, nWorkers));
  }

  /** No packet is lost silently: each arrival at a thread is processed, queued or counted
      as dropped, exactly once, and no queue exceeds its depth. */
  lemma NothingLost(nWorkers: u32, thisThread: u16, cap: nat, events: seq<Event<seq<byte>, u16>>, w: u16)
    ensures var chan := TargetOf(nWorkers, thisThread); var s := Run(chan, Depths(cap), events);
      && multiset(Filter(s.arrived, On(chan, w)))
         == multiset(At(s.done, w)) + multiset(At(s.queues, w)) + multiset(Filter(s.dropped, On(chan, w)))
      && |At(s.queues, w)| <= cap
  {
    RunKeepsChannel(TargetOf(nWorkers, thisThread), Depths(cap), events, w);
  }
}
