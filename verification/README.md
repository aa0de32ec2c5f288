# l2tvpp: a verified model of the L2TPv2 LNS data plane

l2tvpp terminates L2TPv2/PPP subscriber sessions in VPP. A plugin decapsulates packets from the
LAC, encapsulates packets to subscribers and keeps the tunnel, session and route tables; a daemon
keeps those tables in step with the kernel's sessions; an XDP program is the kernel-path fallback.
This project models that logic in Dafny and proves what it is for.

`dafny verify dfyconfig.toml` checks everything.

| file | models |
|---|---|
| `Bytes`, `Bits`, `Checksum` | octets and subsequences, bit operations and residue counting, the Internet checksum |
| `Header` | `l2tvpp.h`: header parser, session key, session hash, worker choice |
| `Input` | `node.c`: the decap walk, punt, drop, the frame loop with batched counters |
| `Classify`, `FlowNode`, `Traffic`, `Spray` | `flow_handoff.c`: the classifier, the path it shortcuts, target choice, output sets, enabling; what becomes of each kind of frame; spray mode |
| `Fabric`, `Handoff`, `FlowQueues` | `handoff.c`, `flow_handoff.c`: worker queues as a step protocol, the session handoff node, the flow handoff node with its queues |
| `Objects`, `Tables`, `DataPlane` | `l2tvpp.c`: tables as values with a step relation, and as the object that is updated in place |
| `EncapCache` | `l2tvpp.c`, `encap_fastpath.c`: adjacency cache, lock accounting, the encap shortcut |
| `Encap`, `Printer` | `l2tvpp.c`: rewrite and fixup; a printer for every L2TPv2 data framing |
| `Steer` | `l2tp_steer.bpf.c`: the second parser |
| `Mirror`, `Shortcuts`, `Syncd` | `l2tvppd.py`: what "in sync" means, for tables, peers and cached shortcuts; the daemon, calling the plugin model's own operations |
| `EndToEnd` | all of it together |

## What is proved

* **The shortcut is invisible** (`Classify.FlowHandoffTransparent`). For every frame, setting,
  tunnel set and session table, a frame that goes through flow handoff gets the same verdict,
  label, session and outgoing buffer (up to the noted transmit interface of punts and drops) as one
  that goes through Ethernet, IPv4 and UDP input. A frame
  is KIND_FAST exactly under the listed checks (`Classify.FastIff`).
* **Every packet's fate, on its bytes**: what l2tvpp-input drops, punts and delivers
  (`Input.EveryFate`), how the classifier treats every frame and which worker its hash picks
  (`Traffic.EveryClass`, `Traffic.HashModeThread`), what takes the encap shortcut
  (`EncapCache.ShortcutIff`), and what the steering program makes of every frame
  (`Steer.EveryOutcome`). These are stated with octets and offsets, not with the parsers.
* **Order over whole runs** (`Handoff.SessionOrder`, `FlowQueues.FlowOrder`): any interleaving of
  arrivals, full queues and workers. The flow handoff node hands a frame over in three batches; for
  every queue that is the same as frame order (`FlowQueues.HandOverIsFrameOrder`).
* **Spray is fair** (`Spray.SprayIsFair`): over every run, whatever else arrives, of the m packets
  sprayed on an interface each of its n workers is sent m / n, or one more: until the 32-bit cursor
  wraps and, if n is a power of two, for ever.
* **Daemon and plugin converge** (`Sync.Syncd.Reconcile`, `Mirror.ConvergedIsExact`): after a
  completed pass with route sync the plugin's sessions, routes and tunnels are exactly the wanted ones, even when
  prefixes move between sessions, and the records describe them exactly; a second pass returns
  (0, 0) and changes nothing. A pass completes if and only if no session is blocked, which can be
  told beforehand (`Mirror.Blocked`); on an unchanged list either all rounds complete or none does
  (`Sync.Syncd.RunDaemon`). The peers are the kernel's too if and only if a condition on the state
  before the pass holds (`Mirror.PassPeersIff`). Which addresses stay cached, on which interface, and
  how many locks are lost is determined exactly (`Shortcuts.CachedAfterPassIff`,
  `Shortcuts.LastGainerOwns`, `Shortcuts.LedgerKeys`).
* **Tables, cache and locks over every run**: `Tables.TablesInvariant`,
  `EncapCache.CacheHitsAreFibPaths`, `EncapCache.LockAccounting`, `EncapCache.CacheIsLastWord`.
* **Round trips**: `Encap.BackToBackDelivers`, `Printer.PrintedDataRoundTrip`; what is delivered is
  exactly what a printer of known sessions' packets can produce (`Printer.DeliversExactly`).
* **Arithmetic**: incremental checksum equals recomputation except in one corner
  (`Encap.EncapChecksumIsRecomputed`), the session hash is a bijection with balanced shares.

## Where the code does not do what one might expect

* A session delete is resolved by (local tunnel id, session id), but lowers the session count of
  whichever tunnel the caller names. Through another tunnel with the same local id it breaks the
  tables; through its own it never does (`Tables.OperationKeepsTables` is an if-and-only-if). The
  count may wrap (`Tables.WrongTunnelUnderflows`), or a later tunnel delete may strand a session
  (`Tables.WrongTunnelStrands`); `Tables.ForeignDeleteHappens` is such a run from empty tables. The
  indexes stay exact even then (`Tables.RunKeepsIndexes`).
* One new session without a local address, on a tunnel that neither exists nor was dialed for a
  session before it, ends the pass: the sessions behind it are not added and no session is removed.
  As long as it is listed, every round ends there, and sessions that are gone from the list stay
  installed (`Sync.Syncd.RunDaemon`; an input: `Sync.DeadSessionStays`).
* When the cursor of spray mode wraps and the number of workers is no power of two, workers are
  skipped or served twice (`Spray.FairIff`; an input: `Spray.WrapRepeatsWorker`).
* The fixup truncates the outer length to 16 bits, so inner packets above 65497 bytes do not reach the
  LAC (`EndToEnd.LacGetsIff`).
* Re-adding a host route while its address is cached leaks one adjacency lock and one count, and
  nothing else does (`EncapCache.LocksAgreeIff`; a run: `EncapCache.LeakHappens`).
* A route delete empties the cache entry whichever interface it names, so a host address that moves
  between sessions keeps its shortcut only if the delete comes first (`EncapCache.MoveOrderDecides`).
  In a pass with route sync that is the case exactly if the losing session is still listed, and
  listed before the gaining one (`Shortcuts.MovedHostIff`); its route survives either way. As long as
  no host address moves, the cache stays complete (`Shortcuts.CompleteUnlessMoved`).
* The daemon never updates a known session or a known tunnel. A known session whose peer id changes,
  and a new session that joins a known tunnel whose peer id or local endpoint has changed, are
  encapsulated to the old ids although tables and records converge (`Sync.StalePeers` has an input for
  each). All peers are right after a pass if and only if the known sessions' were, every tunnel that a
  new session joins suits it, and new sessions that share a new tunnel agree (`Mirror.PassPeersIff`).
* The classifier accepts an IPv4 header length below five words; the steering program does not
  (`Steer.PluginDataIsSteered`).
* In hash mode with more than one target worker, an eligible frame whose PPP payload is not IP takes the long
  path although the comment there calls it "still ours" (`Classify.FastIff`).
* `docs/design.md` says that S and O packets are punted and that the lookup uses the peer address;
  the code decapsulates them and looks up (tunnel id, session id). The model follows the code.

## Modelling choices

* A buffer is its memory with a current position and length, the recorded l2/l3/l4 offsets and the
  receive and transmit interfaces. The bihash indexes are maps and the pools are maps from index to
  record; the interface vector is a map too, absence standing for ~0. Pool and interface numbers are
  any unused number.
* crc32c is an arbitrary function of the 40 key octets. A FIB is the set of (prefix, interface) pairs
  of the plugin's source; an adjacency is (next hop, interface), and its cache locks are a multiset.
* The long path is the sequence of checks listed in `flow_handoff.c:54-62` for each of the skipped
  nodes. TTL, UDP length and UDP checksum are not part of it.
* `ip_csum_update` and `ip_csum_fold` are VPP's: 64-bit subtraction with end-around borrow, then four
  folds. Words are in the little-endian order of an x86 host.
* A queue may refuse a packet at any time and must refuse one when it holds its depth. In `Fabric` a
  worker takes one packet per step; taking several is several steps. Next nodes of the same thread
  never refuse.
* Daemon: API calls act on the plugin model and VPP keeps its tables. Kernel sessions are already
  parsed records with IPv4 endpoints and their route lists. The wanted sessions are handled in the order
  of the dictionary they are put in, that of their first appearance in the list; loops over sets and
  over the sessions to remove run in arbitrary order. An unset fallback address is sent as 0.0.0.0
  when a tunnel is deleted.
* ip4-midchain lowers the time to live and adapts the header checksum before the rewrite goes in
  front; `EndToEnd` speaks of the packet as it hands it on.
* `Input.InputNode` assumes frames of at most 256 packets and packets below 16 MiB, which is what keeps
  the 32-bit batch sums exact. `FlowNode` assumes fewer than 65535 workers.
* `hide` statements only withhold definitions from a proof to keep it cheap.

## Model

| member | source | states |
|---|---|---|
| `Header.ParseHdr` | plugin/l2tvpp/l2tvpp.h:167-196 | ids are reported exactly for version 2 without T and with all bytes up to the ids present; they are the two words before the offset, which the L bit decides; nothing past the end is read |
| `Header.SessionKeyIdentifiesPair` | plugin/l2tvpp/l2tvpp.h:96-100 | the packed key word is equal for two pairs exactly when the pairs are |
| `Header.SessionHashBits` | plugin/l2tvpp/l2tvpp.h:204-210 | bit i of the hash is bit i of the low 32 bits of key * 0x9E3779B1, combined with the bit 16 places above |
| `Header.SessionHashBijective` | plugin/l2tvpp/l2tvpp.h:204-210 | the session hash is inverted, both ways, by xor-shift and the inverse multiplier, for all 32-bit words |
| `Header.HandoffWorkerInRange` | plugin/l2tvpp/l2tvpp.h:204-210 | the chosen thread is always one of 1..n |
| `Header.SessionLoadsBalanced` | plugin/l2tvpp/l2tvpp.h:198-210 | over the whole id space any two workers' numbers of sessions differ by at most one |
| `Printer.DeliversExactly` | plugin/l2tvpp/node.c:126-220 | a packet is delivered if and only if it is the printing, in some framing, of a known session's IPv4 or IPv6 packet with four bytes to look at |
| `Input.PuntRestoresIpPacket` | plugin/l2tvpp/node.c:76-84 | a punted packet leaves as exactly the IP packet the upstream node saw |
| `Input.CountedOnce` | plugin/l2tvpp/node.c:254-261 | every packet of a frame is counted once, under one non-drop label or as a drop |
| `Input.EveryFate` | plugin/l2tvpp/node.c:126-252 | on the bytes: dropped exactly if truncated; control messages, other versions, unknown sessions and other protocols punted under their labels as the IP packet they came in; the rest delivered from the payload on, on the session's interface |
| `Input.CountedAs` | plugin/l2tvpp/node.c:222-261 | a delivered packet counts once, with its payload and the rest of its chain, on its session's interface; every packet not dropped counts once under its label |
| `Input.InputNode` | plugin/l2tvpp/node.c:86-290 | each buffer and next node is its packet's verdict; batched interface totals equal the one-by-one sums; label counts are exact |
| `Classify.KeyIdentifiesFlow` | plugin/l2tvpp/flow_handoff.c:146-201 | two IPv4, or two IPv6, packets have equal flow keys exactly when addresses, protocol and ports agree, whatever their options and lengths |
| `Classify.KeyIsOfFlow` | plugin/l2tvpp/flow_handoff.c:156-201 | a packet has a key exactly when its IP header is complete, and the key is a function of its flow |
| `Classify.FlowKeyAt` | plugin/l2tvpp/flow_handoff.c:156-201 | the key read in place equals the key of the packet taken by itself |
| `Classify.FastIff` | plugin/l2tvpp/flow_handoff.c:211-347 | KIND_FAST exactly when fastpath is on, all listed outer checks hold and, if a hash is wanted, the payload is IP |
| `Classify.EligibleIffOuterChecks` | plugin/l2tvpp/flow_handoff.c:280-299 | header offsets are recorded exactly for frames passing the outer checks, with the L2TP header at 42 |
| `Classify.LongPathDelivers` | plugin/l2tvpp/flow_handoff.c:54-62 | the long path delivers the very buffer the shortcut delivers, position, length and offsets included |
| `Classify.FlowHandoffTransparent` | plugin/l2tvpp/flow_handoff.c:368-426 | for every frame and setting the final outcome equals that of the path without flow handoff |
| `FlowNode.HandedOnWhereItBelongs` | plugin/l2tvpp/flow_handoff.c:401-426 | a frame that is not KIND_FAST is handed to ethernet-input with its bytes, position and length unchanged; a KIND_FAST one to l2tvpp-input at its L2TP header; header offsets are recorded exactly for eligible frames |
| `Traffic.EveryClass` | plugin/l2tvpp/flow_handoff.c:217-347 | on the bytes, with a hash wanted: IPv6, and IPv4 that is not UDP to port 1701, goes by its own flow or is local if it has none; control messages and other versions on that port are local; data goes by the flow inside it, or by its own; all else is local |
| `Traffic.EveryKind` | plugin/l2tvpp/flow_handoff.c:217-347 | the same without a hash |
| `Traffic.OuterChecksOnBytes` | plugin/l2tvpp/flow_handoff.c:54-62 | the listed outer checks, on the bytes |
| `Traffic.DecisionHasClass` | plugin/l2tvpp/flow_handoff.c:386-393 | the node classifies by the interface's settings, with a hash for two or more workers and no spray; KIND_FAST exactly under the checks and, with a hash, for an IP payload |
| `Traffic.ReferencePathOnBytes` | plugin/l2tvpp/flow_handoff.c:54-62 | the path without the shortcut, on the bytes: which frames reach l2tvpp-input, and at which position with which offsets |
| `Classify.WalksAgree` | plugin/l2tvpp/flow_handoff.c:304-340 | for every frame, its session being known: classified by an inner key exactly when l2tvpp-input would deliver it and the delivered packet has a key; and that is the key |
| `FlowNode.Slot` | plugin/l2tvpp/flow_handoff.c:396-399 | mask and modulo agree, so the slot is the hash modulo the worker count and in range |
| `Traffic.HashModeThread` | plugin/l2tvpp/flow_handoff.c:393-399 | a packet whose key hashes to h goes to the (h mod n)-th worker of the bitmap in ascending order; to the one worker; or stays if it is local or there are no workers |
| `Traffic.HashesApart` | plugin/l2tvpp/flow_handoff.c:393-399 | two packets go to different threads if and only if their hashes differ modulo the number of workers |
| `Traffic.HashesSpread` | plugin/l2tvpp/flow_handoff.c:393-399 | over all 2^32 hash values each worker is chosen 2^32 / n times, or once more |
| `FlowNode.FlowHandoffMain.Node` | plugin/l2tvpp/flow_handoff.c:349-461 | buffers, cursors and the three output sets with their targets are those of the per-packet decisions |
| `FlowNode.PicksExact` | plugin/l2tvpp/flow_handoff.c:401-426 | an output set holds exactly the positions decided for it, in frame order |
| `FlowNode.FramePartition` | plugin/l2tvpp/flow_handoff.c:358-364 | every buffer is in exactly one of the three sets, once |
| `FlowNode.HashModeIsStateless` | plugin/l2tvpp/flow_handoff.c:387-399 | an interface without spray keeps its settings over a frame, and decisions on its packets depend on each packet alone, whatever arrives on other interfaces in whatever mode |
| `FlowNode.SameFlowSameThread` | plugin/l2tvpp/flow_handoff.c:32-37 | equal kind and equal flow key give the same thread, in hash mode |
| `FlowNode.FramingsSameThread` | plugin/l2tvpp/flow_handoff.c:304-347 | all encapsulations of one inner packet, under any outer headers, sessions and framings, go to the same thread |
| `FlowQueues.NodeWithQueues` | plugin/l2tvpp/flow_handoff.c:349-461 | the frame is decided on, sorted and handed over set by set; the congestion count is what the queues refused |
| `FlowQueues.HandOverIsFrameOrder` | plugin/l2tvpp/flow_handoff.c:438-459 | handing over the three sets one after another leaves every channel as offering the frame in order does, and drops the same packets |
| `FlowQueues.RunKeepsChannels` | plugin/l2tvpp/flow_handoff.c:349-461 | in every run and mode each channel consumes a subsequence of what was received for it, keeps its depth and accounts for every packet once |
| `FlowQueues.QueueDepths` | plugin/l2tvpp/flow_handoff.c:438-459 | in any run the two frame queues keep within their own depths and packets for this thread are never dropped |
| `FlowQueues.FlowOrder` | plugin/l2tvpp/flow_handoff.c:30-37 | on an interface in hash mode, whatever the modes of the others, a flow is consumed from one channel, in a subsequence of the order in which it came in, over every run of the node |
| `FlowQueues.RunIsOneFrame` | plugin/l2tvpp/flow_handoff.c:366-399 | the node decides on the frames of a run as on one long frame, whatever happens at the queues |
| `FlowNode.TargetIsWorker` | plugin/l2tvpp/flow_handoff.c:503-526 | a chosen thread is this one or a thread 1..n whose worker is in the bitmap |
| `FlowNode.ThreadsExact` | plugin/l2tvpp/flow_handoff.c:503-526 | the worker list holds exactly the bitmap's threads, ascending, each once |
| `Spray.SprayTakesTurns` | plugin/l2tvpp/flow_handoff.c:394-395 | in any frame the j-th sprayed packet of an interface goes to the worker whose turn is j, the cursor counting them modulo 2^32 |
| `Spray.SprayIsFair` | plugin/l2tvpp/flow_handoff.c:394-395 | over every run each worker of the bitmap is sent the packets of one slot's turns, and of m sprayed packets m / n, or one more, if the cursor does not wrap or n divides 2^32 |
| `Spray.FairIff` | plugin/l2tvpp/flow_handoff.c:394-395 | turns are fair from every cursor and for every number of them if and only if n divides 2^32 |
| `Spray.WrapRepeatsWorker` | plugin/l2tvpp/flow_handoff.c:394-395 | with three workers and the cursor at 2^32 - 1, three packets go to the first, the first again, and the second |
| `FlowNode.FlowHandoffMain.EnableDisable` | plugin/l2tvpp/flow_handoff.c:485-541 | accepted exactly for hardware interfaces and nonempty in-range bitmaps; the settings after enabling; all cleared after disabling, and kept if it was disabled already; session handoff off when enabling |
| `Fabric.ConsumedInOrder` | plugin/l2tvpp/handoff.c:97-133 | packets that share a channel are consumed there only, in a subsequence of their arrival order, in every run |
| `Fabric.Enqueue` | plugin/l2tvpp/handoff.c:122-132 | a frame is offered packet by packet to the queues of its targets; what was not taken was dropped |
| `Fabric.NothingDropped` | plugin/l2tvpp/handoff.c:128-132 | while no more packets have come in than a queue can hold, and it has room, all are consumed or queued, in order |
| `Fabric.Drains` | plugin/l2tvpp/handoff.c:97-133 | a consumer takes the oldest packets of its queue, in order, and nothing else |
| `Handoff.EveryTarget` | plugin/l2tvpp/handoff.c:107-116 | on the bytes: data goes to the worker its ids hash to; all else, and everything without workers, stays on its thread |
| `Handoff.HandoffNode` | plugin/l2tvpp/handoff.c:83-134 | the frame is enqueued packet by packet on the threads chosen by session; the congestion count is what was dropped |
| `Handoff.SessionOrder` | plugin/l2tvpp/handoff.c:37-41 | in every run all data of a session is processed by its one worker, in a subsequence of arrival order |
| `Handoff.NothingLost` | plugin/l2tvpp/handoff.c:128-132 | each arrival is processed, queued or counted as dropped, exactly once; queues keep within their depth |
| `Steer.EveryOutcome` | xdp/l2tp_steer.bpf.c:90-195 | on the bytes, for zero to two tags and either IP version: L2TPv2 data is steered by its ids, control messages are passed as such, all else is passed |
| `Steer.SessionIsRedirected` | xdp/l2tp_steer.bpf.c:174-193 | redirected to the CPU of the slot the session hash picks, unless no CPU is listed, the slot is empty or the helper fails |
| `Steer.L2tpSteer` | xdp/l2tp_steer.bpf.c:90-195 | the cursor program computes the frame's outcome and increments exactly that outcome's counter |
| `Steer.ParsersAgree` | xdp/l2tp_steer.bpf.c:154-172 | for every UDP payload both parsers find the same ids or neither finds any |
| `Steer.PluginDataIsSteered` | xdp/l2tp_steer.bpf.c:98-177 | an IPv4 frame in which the plugin reaches L2TPv2 data is steered by the same session if and only if its header length is at least five words, and passed on otherwise |
| `Steer.SameSlot` | xdp/l2tp_steer.bpf.c:174-187 | with as many CPUs as workers both choose the same slot |
| `Checksum.ValidIff` | plugin/l2tvpp/flow_handoff.c:287-292 | a header is valid exactly if its words sum to a multiple of 65535 |
| `Checksum.IncrementalIsRecomputation` | plugin/l2tvpp/l2tvpp.c:150-162 | the updated checksum equals the recomputed one exactly outside the double-zero corner, for every header sum and length |
| `Checksum.IncrementalVerifies` | plugin/l2tvpp/l2tvpp.c:150-162 | a header with the updated checksum always verifies, corner included |
| `Encap.BuildRewrite` | plugin/l2tvpp/l2tvpp.c:70-131 | the field-by-field fill gives the template and the checksum of its length-zero header; nothing for other links |
| `Encap.LinksShareChecksum` | plugin/l2tvpp/l2tvpp.c:108-112 | the cached checksum is the same for both links, so one per session is enough |
| `Encap.FixupInPlace` | plugin/l2tvpp/l2tvpp.c:143-164 | the in-place fixup is the fixup function of the packet |
| `Encap.OuterFields` | plugin/l2tvpp/l2tvpp.c:96-119 | outer addresses, ports, lengths and flags of every encapsulated packet |
| `Encap.EncapChecksumVerifies` | plugin/l2tvpp/l2tvpp.c:108-112 | every encapsulated packet has a valid outer header checksum |
| `Encap.EncapChecksumIsRecomputed` | plugin/l2tvpp/l2tvpp.c:157-161 | its checksum is the full recomputation exactly unless the cached one is 0 and the length 65535 |
| `Encap.DoubleZeroCorner` | plugin/l2tvpp/l2tvpp.c:157-161 | a concrete tunnel and length in the corner, where the two differ |
| `Encap.EncapRoundTrip` | plugin/l2tvpp/l2tvpp.c:121-128 | the receiver's walk over an encapsulated packet yields the peer's ids, the link's protocol and exactly the inner bytes |
| `Encap.BackToBackFast` | plugin/l2tvpp/flow_handoff.c:280-287 | framed, it passes every fast-path check of the owner of the peer address exactly for port 1701 and a 16-bit length of at least 34 |
| `Encap.BackToBackDelivers` | plugin/l2tvpp/node.c:222-248 | end to end, on any settings, the receiving node delivers exactly the inner packet on the session's interface |
| `Printer.OtherProtocolIsPunted` | plugin/l2tvpp/node.c:205-220 | a packet of any other protocol, in any framing, is punted under its label for a known session |
| `Printer.PrintedDataRoundTrip` | plugin/l2tvpp/node.c:145-220 | any L/S/O/P flags, Ns/Nr, pad, ACFC and PFC are undone by parse and walk, unless under four bytes follow, then dropped |
| `Printer.DeliveredIsPrinted` | plugin/l2tvpp/node.c:145-220 | conversely every delivered packet is the printing of its session, protocol and payload in some framing, so acceptance is exact |
| `Printer.FramingsHashAlike` | plugin/l2tvpp/flow_handoff.c:304-334 | whatever the outer headers and the framing, the classifier takes the inner packet's own flow key |
| `Tables.RefusedWhen` | plugin/l2tvpp/l2tvpp.c:253-476 | every reply code, exactly when it is given, in terms of the stored tunnels and sessions; a refused call changes nothing |
| `Tables.TunnelStored` | plugin/l2tvpp/l2tvpp.c:264-287 | what a successful tunnel add stores, field by field |
| `Tables.SessionStored` | plugin/l2tvpp/l2tvpp.c:316-360 | what a successful session add stores, field by field |
| `Tables.RouteStored` | plugin/l2tvpp/l2tvpp.c:457-476 | what a successful route call does to the FIB, and to nothing else but the cache |
| `Tables.OperationKeepsIndexes` | plugin/l2tvpp/l2tvpp.c:253-383 | every operation, a session delete through a foreign tunnel included, keeps both indexes exact, tunnel keys unique and the endpoint list complete |
| `Tables.RunKeepsIndexes` | plugin/l2tvpp/l2tvpp.c:253-476 | so they hold after every operation of every run from empty tables |
| `Tables.OperationKeepsTables` | plugin/l2tvpp/l2tvpp.c:253-383 | an operation keeps the table invariant if and only if it is not a session delete through a foreign tunnel |
| `Tables.TablesInvariant` | plugin/l2tvpp/l2tvpp.c:253-383 | after every operation of every run without such deletes both indexes are exact, tunnels live and session counts right |
| `Tables.TunnelDeleteStrandsNone` | plugin/l2tvpp/l2tvpp.c:289-294 | a tunnel delete succeeds exactly when the tunnel exists and no session points at it |
| `Tables.WrongTunnelUnderflows` | plugin/l2tvpp/l2tvpp.c:362-382 | deleting through an empty foreign tunnel wraps its count to 2^32 - 1 |
| `Tables.WrongTunnelStrands` | plugin/l2tvpp/l2tvpp.c:289-294 | deleting through a foreign tunnel with one session lets that tunnel be deleted under it |
| `Tables.ForeignDeleteHappens` | plugin/l2tvpp/l2tvpp.c:362-382 | a run of four successful calls from empty tables that ends in broken ones |
| `Tables.SessionsBounded` | plugin/l2tvpp/l2tvpp.c:356-356 | a tunnel has at most 65536 sessions, so the count cannot wrap upwards |
| `DataPlane.L2tvppMain.TunnelFind` | plugin/l2tvpp/l2tvpp.c:239-251 | finds a tunnel with the key if there is one |
| `DataPlane.L2tvppMain.TunnelAddDel` | plugin/l2tvpp/l2tvpp.c:253-295 | reply and new state are those of the step relation, with an unused index; indexes and invariant are kept |
| `DataPlane.L2tvppMain.SessionAddDel` | plugin/l2tvpp/l2tvpp.c:297-383 | reply and new state are those of the step relation; indexes are kept, the invariant exactly if the tunnel is the session's own |
| `DataPlane.L2tvppMain.RouteAddDel` | plugin/l2tvpp/l2tvpp.c:441-476 | reply and new state, FIB and encap cache included, are those of the step relation |
| `DataPlane.L2tvppMain.EncapAdjAddDel` | plugin/l2tvpp/l2tvpp.c:404-439 | cache, locks and counter after an add or delete of a host route |
| `EncapCache.OperationKeepsCacheSound` | plugin/l2tvpp/l2tvpp.c:404-476 | no operation makes the cache name a path the FIB does not have |
| `EncapCache.OperationKeepsRoutesLive` | plugin/l2tvpp/l2tvpp.c:362-382 | routes stay on live sessions if and only if sessions are deleted after their routes |
| `EncapCache.RunKeepsCacheSound` | plugin/l2tvpp/l2tvpp.c:404-476 | in every run at all, cached adjacencies are current paths of the FIB |
| `EncapCache.CacheHitsAreFibPaths` | plugin/l2tvpp/encap_fastpath.c:143-156 | in every run where sessions are deleted after their routes, a hit names a current path for the address to a live session |
| `EncapCache.OperationKeepsLocks` | plugin/l2tvpp/l2tvpp.c:404-439 | every operation keeps cached adjacencies locked and the counter equal to the locks; only a re-add widens its gap to the cache |
| `EncapCache.LockAccounting` | plugin/l2tvpp/l2tvpp.c:416-438 | in all runs the counter equals the locks, cached adjacencies are locked, and the surplus is the number of re-adds |
| `EncapCache.LocksAgreeIff` | plugin/l2tvpp/l2tvpp.c:416-438 | locks, counter and cache size agree if and only if no cached address was re-added |
| `EncapCache.UnlockNeverUnderflows` | plugin/l2tvpp/l2tvpp.c:432-437 | a delete always has a lock to give back and a positive counter to lower |
| `EncapCache.CacheIsLastWord` | plugin/l2tvpp/l2tvpp.c:404-439 | the cache holds exactly the last successful add of each address that no delete followed |
| `EncapCache.MoveOrderDecides` | plugin/l2tvpp/l2tvpp.c:404-439 | moving a cached host route: both orders of add and delete give the same routes; delete first keeps the entry and the locks, add first loses the entry and leaks a lock |
| `EncapCache.LeakHappens` | plugin/l2tvpp/l2tvpp.c:416-438 | a run from empty tables in which a re-add leaks a lock that no delete gives back |
| `EncapCache.ShortcutIff` | plugin/l2tvpp/encap_fastpath.c:86-156 | on the bytes: exactly untagged, unfragmented, option-free IPv4 packets to a cached destination take the shortcut, with that entry and the Ethernet header stripped; all else goes on unchanged |
| `EncapCache.ShortcutNode` | plugin/l2tvpp/encap_fastpath.c:116-173 | the loop takes each packet's decision, advancing hits and leaving the rest untouched |
| `EncapCache.ShortcutAgreesWithFib` | plugin/l2tvpp/encap_fastpath.c:25-36 | in every such run a shortcut packet goes to an interface the FIB offers for its destination |
| `Mirror.NoIdleIsExact` | syncd/l2tvppd.py:322-333 | no idle tunnel means the tunnels are exactly those some session uses |
| `Mirror.ConvergedIsExact` | syncd/l2tvppd.py:344-353 | convergence is: sessions exactly the wanted keys, routes exactly the wanted prefixes each via its own interface, tunnels exactly those in use, records exactly describing them |
| `Mirror.OrderLists` | syncd/l2tvppd.py:352-352 | the dictionary's order lists every wanted key once |
| `Mirror.OrderIsFirstListed` | syncd/l2tvppd.py:352-352 | ids are in the order of their first entries with an interface |
| `Mirror.WantIsLast` | syncd/l2tvppd.py:352-352 | an id is wanted exactly if it has such an entry, and the last one is its value |
| `Mirror.EndpointFields` | syncd/l2tvppd.py:263-273 | a new tunnel is dialed from the address and port the session names, or else the daemon's, with the session's peer id |
| `Mirror.PassPeersIff` | syncd/l2tvppd.py:259-262 | after a pass all wanted sessions have the kernel's peer, peer ids and endpoint if and only if the known ones had, joined tunnels suit and new sessions of a new tunnel agree |
| `Shortcuts.CachedAfterPassIff` | syncd/l2tvppd.py:352-367 | an address is cached after a pass if and only if it was or is gained, no session that loses it is handled after the last that gains it, and no removed session had it |
| `Shortcuts.MovedHostIff` | syncd/l2tvppd.py:298-308 | a host address moving between two sessions stays cached if and only if the losing one is still wanted and handled first |
| `Shortcuts.LastGainerOwns` | plugin/l2tvpp/l2tvpp.c:404-439 | a cached address that sessions gain in a pass ends on the interface of the last one that gains it |
| `Shortcuts.UngainedStays` | plugin/l2tvpp/l2tvpp.c:404-439 | a cached address that no session gains keeps its entry |
| `Shortcuts.LedgerKeys` | plugin/l2tvpp/l2tvpp.c:416-438 | the locks a pass loses are its adds of addresses that are cached by then |
| `Shortcuts.NoLeakIff` | plugin/l2tvpp/l2tvpp.c:416-438 | it loses none if and only if no host address is added while it is cached |
| `Shortcuts.CompleteUnlessMoved` | syncd/l2tvppd.py:298-320 | if every recorded host route was cached and none moves, every one is cached after the pass |
| `Shortcuts.CacheIsFib` | plugin/l2tvpp/l2tvpp.c:404-439 | then the cached addresses are exactly those with a host route of the plugin |
| `Shortcuts.ShortcutsExact` | plugin/l2tvpp/encap_fastpath.c:25-36 | and the shortcut takes exactly the plain IPv4 packets for whose destination the plugin has a host route, over one of its paths |
| `Sync.Syncd.EnsureTunnel` | syncd/l2tvppd.py:259-275 | a known key returns its tunnel unchanged; a new tunnel has, field by field, the session's own address and port if named and the daemon's if not, its peer and its ids; failure exactly for a new key without any local address |
| `Sync.Syncd.AddSession` | syncd/l2tvppd.py:277-296 | a new session with the kernel's peer session id, on the tunnel of its key, its routes and its record keep tables and records in sync; a failure changes nothing |
| `Sync.Syncd.SyncRoutes` | syncd/l2tvppd.py:298-310 | afterwards the session's routes are the wanted ones; equal routes change nothing |
| `Sync.Syncd.DelSession` | syncd/l2tvppd.py:312-320 | routes, session and record go, through the session's own tunnel; all else stays in sync |
| `Sync.Syncd.PruneTunnels` | syncd/l2tvppd.py:322-333 | every delete it issues succeeds and the tunnels left are exactly those with a session |
| `Mirror.BlockedAgain` | syncd/l2tvppd.py:262-268 | a pass that was cut short is cut short at the same session when it is tried again on the same list |
| `Sync.Syncd.MirrorWanted` | syncd/l2tvppd.py:355-363 | completes if and only if no session is blocked; otherwise exactly the sessions before the first blocked one are handled |
| `Sync.Syncd.Reconcile` | syncd/l2tvppd.py:344-373 | completes if and only if no session is blocked; then counts, records, tables, peers, cache and locks are those of the list, and converge with route sync; otherwise the sessions before the blocked one are handled and nothing is removed; nothing to do means nothing changes |
| `Sync.Syncd.ReconcileTwice` | syncd/l2tvppd.py:344-373 | if no session is blocked, a second pass after one with route sync returns (0, 0) in a converged state |
| `Sync.Syncd.Round` | syncd/l2tvppd.py:425-442 | one round on any list: it succeeds if and only if no session is blocked; what a successful and what a failed round leaves; the tick advances only on success; a converged state stays |
| `Sync.OneSyncInSix` | syncd/l2tvppd.py:426-440 | of any six ticks in a row exactly one syncs routes, and the first of all does |
| `Sync.Syncd.RunDaemon` | syncd/l2tvppd.py:425-442 | on an unchanged list, from any state: if no session is blocked all rounds complete and six converge; otherwise none completes, and after any number of rounds the records are the old ones and the sessions before the blocked one |
| `Sync.DeadSessionStays` | syncd/l2tvppd.py:262-268 | an input: one listed session without a local address keeps a session that is no longer listed installed for ever |
| `Sync.StalePeers` | syncd/l2tvppd.py:259-262 | two inputs for which passes complete and converge, but a session is left with a peer id the kernel no longer has |
| `EndToEnd.UpstreamFollowsKernel` | syncd/l2tvppd.py:21-30 | after convergence data is decapsulated exactly for sessions the kernel lists, onto the interface of their routes, else punted |
| `EndToEnd.SourceIsKernels` | plugin/l2tvpp/l2tvpp.c:96-119 | once its peers match, what a session sends comes from the address and port the kernel names for it, or else the daemon's |
| `EndToEnd.LacGetsIff` | plugin/l2tvpp/l2tvpp.c:96-163 | what leaves a session interface is recovered by the kernel's LAC under the kernel's ids if and only if the tables name that LAC and those ids and the total length fits 16 bits |
| `EndToEnd.DownstreamFollowsKernel` | plugin/l2tvpp/encap_fastpath.c:25-32 | after convergence the shortcut only uses sessions listed with that address; the LAC recovers the packet as ip4-midchain hands it on, under the kernel's ids, exactly if the tables name the kernel's peer, which they do when all peers match, and its length fits |

## Left out

- `l2tvpp_handoff_queue_nelts`: rounds a depth up to a power of two; an easy member.
- `l2tvpp_cli.c`, `l2tvpp_api.c`, traces and formatting: plumbing around the modelled operations.
- VPP internals: interface registration, midchain stacking, feature arcs, barriers, prefetch, bihash layout, pool addresses.
- UDP length, UDP checksum and TTL checks: neither input path of this code performs them.
- Text parsing of `/proc/net/pppol2tp` and `ip`, the state file, signals and reconnects.
- API failures and VPP restarts under the daemon: replies are not inspected by it, so success is assumed.
- The XDP loader, map pinning and statistics output.
- Hash quality, several VRFs, IPv6 outer tunnels (rejected by the code).
- Toggling handoff while packets are queued, and order between two different queues of one worker: not promised.
- encap_adj_count: a plain number, so its 32-bit wrap after 2^32 leaked re-adds is not modelled.
- Spray.SprayTakesTurns: one writer of the cursor; the source calls concurrent increments a benign race.
- Handoff.SessionOrder: one receiving thread, and a fixed handoff setting.
- Input.InputNode: single-buffer headers; the bytes of further buffers of a chain count for lengths only.
