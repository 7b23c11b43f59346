# Verified model of the peer-calls core

Peer Calls is a video conferencing server (Go) with a browser client (TypeScript).
This project models the parts of it whose correctness depends on state or on
wrap-around arithmetic, and proves what they promise over all inputs and all runs:

- the **room control protocol** between two server nodes: any number of rooms, two
  factories, two FIFO queues, every interleaving (`ControlTracker`, `ControlFactory`,
  `ControlNetwork`, `ControlLife`);
- the **RTP ring buffer and NACK engine**: 65536 slots, wrapping 16-bit sequence
  numbers, expiry after two seconds, loss bitmaps (`NackBitmap`, `RtpBuffer`,
  `RtpStream`, `NackHandler`, `JitterRuns`);
- the **data-channel chunk codec**: splitting, packing headers, and reassembling
  interleaved messages in any order (`ChunkHeader`, `ChunkEncoder`, `ChunkDecoder`);
- the **publish/subscribe indexes** (`PubSubIndex`, `PubSub`);
- the **reception statistics** of an RTP source (`RtpSource`) and the **bitrate
  estimator** with its lazily repaired minimum and maximum (`BitrateEstimator`);
- the **wildcard trie** of logger namespaces (`Wildcard`, `WildcardTrie`);
- the **string multiplexer** and its framing (`Packetizer`, `StringMux`), and the
  **base-N codec** (`BaseN`).

An object that the source updates in place is a class. Its methods are proved equal
to transition functions on a value (`View()`), and the theorems are about runs of
those functions. Loops in the source are loops here, with their invariants.

`dafny verify dfyconfig.toml` checks the whole project.

## How the results fit together

**Control protocol.** `RoomsStayLegal` shows that each room's two states and its
events in flight always have one of a few shapes. From that, `QuietRoomsAgree` gets
agreement and `RefusedOnlyWhenCrossed` gets exactly when an event is refused.
`TransportsLiveInOrder` follows the transports of both nodes through every run, and
`TeardownExactlyWhen` and `OneSidedRunsStayUp` say which runs tear down.

**Ring buffer.** `RingIsExpiringQueue` shows that the ring is a plain queue of the
packets of the last two seconds. `GetNackPairs` proves that bitmaps denote exactly the
empty slots. Together they give `NackOfRun` and `NeverRequestedTwice` in
terms of true, unwrapped numbers. `HandleNack` and `RequestsAreConserved` cover the
other direction of the traffic, and `PassedOnExactlyWhenNotLive` says what a NACK gets
from interleaved streams.

**Codec.** `HeaderRoundTrips`, `Split` and `PayloadIsData` cover the sender;
`EntriesTrackMessages`, `LastChunkCompletes` and `NothingLeftBehind` cover the
receiver for every order and interleaving.

## Where the code differs from its documentation

- The comment at `server/udptransport2/control_state_tracker.go:227-234` describes
  crossing requests as harmless. The code refuses a create received in `created` and a
  close received in `write_closed`. The model follows the code:
  `CrossedCreatesTearDown` and `CrossedClosesTearDown` show the teardowns.
- `server/udptransport2/control_state_tracker.go:103-124` asks the caller to call
  `handlePendingEvent` after every remote event. `Factory.start` never does.
  `LastWishWins` holds for a caller that follows the documentation;
  `FactoryHonoursUnparkedWishesOnly` states exactly which wishes the factory honours,
  and `FactoryLosesParkedWish` shows one it loses.
- When `createTransport` fails on a remote create, the factory goes on and offers a nil
  transport, and the room then lacks the transport that its state promises.
  `TransportsLiveInOrder` and `OffersNothingExactlyWhen` state exactly which runs break
  the promise, and `FailedCreateOffersNothing` gives one.
- The wildcard search does not find every namespace that a pattern describes if `**` is
  directly followed by another wildcard. `ConfigurationMeaning` states exactly what it
  does find, and `UntamePatternMisses` gives a namespace that it misses.

## Model

| member | source | states |
|---|---|---|
| ControlTracker.ControlStateTracker.WantCreate | server/udptransport2/control_state_tracker.go:50-68 | a wish to create moves the tracker and sends as the value-level transition does, parking the wish while a close awaits its acknowledgement |
| ControlTracker.ControlStateTracker.WantClose | server/udptransport2/control_state_tracker.go:70-89 | a wish to close, likewise, parked while a create awaits its acknowledgement |
| ControlTracker.ControlStateTracker.HandleLocalEvent | server/udptransport2/control_state_tracker.go:91-101 | dispatches a local event; any other event changes and sends nothing |
| ControlTracker.ControlStateTracker.HandlePendingEvent | server/udptransport2/control_state_tracker.go:103-115 | takes a parked wish up again as if it had just been voiced, and does nothing when none is parked |
| ControlTracker.ControlStateTracker.HandleRemoteEvent | server/udptransport2/control_state_tracker.go:117-170 | fails exactly on an unexpected event and then leaves the tracker alone; otherwise new state, response and change flag are those of the transition |
| ControlTracker.AsksExactlyWhenItStartsToWait | server/udptransport2/control_state_tracker.go:50-115 | whether a wish is new or was parked, create is sent if and only if the tracker moves to created, close if and only if it moves to write_closed, and otherwise nothing is sent and nothing moves |
| ControlTracker.ParksExactlyAgainstRequests | server/udptransport2/control_state_tracker.go:50-89 | a wish against a request that awaits its acknowledgement is parked; any other wish clears what was parked, except that a create in a closed room starts at once |
| ControlTracker.PendingIsVoicedAgain | server/udptransport2/control_state_tracker.go:103-115 | handling a parked wish is voicing it again, and keeps the wish that the tracker encodes |
| ControlTracker.AnswersExactlyWhenNotWaiting | server/udptransport2/control_state_tracker.go:117-170 | requests are refused if and only if an acknowledgement is awaited, acknowledgements if and only if they are not the one awaited; what is accepted brings the state asked for, its acknowledgement and a change flag, and leaves a parked wish alone |
| ControlTracker.LastWishWins | server/udptransport2/control_state_tracker.go:50-170 | in every history in which pending events are handled after each remote event, state and pending event encode the most recent wish of either side, and a wish is pending only while an acknowledgement is awaited |
| ControlTracker.SettlesWithinTwoAcks | server/udptransport2/control_state_tracker.go:103-170 | after every such history, at most two acknowledgements, each accepted and voicing no wish, bring the tracker to the resting state of the last wish |
| ControlTracker.FactoryHonoursUnparkedWishesOnly | server/udptransport2/factory.go:287-444 | driven as the factory drives it, the tracker works towards the last wish if and only if that wish did not contradict a request still waiting for its acknowledgement |
| ControlTracker.FactoryLosesParkedWish | server/udptransport2/factory.go:385-444 | a concrete history in which the factory ends up added although the last wish was to close |
| ControlFactory.FirstEventCreatesEntry | server/udptransport2/factory.go:297-304 | entering a room with a fresh tracker before its first event does not influence what the event does |
| ControlFactory.DrivesTrackers | server/udptransport2/factory.go:287-444 | the factory drives each room's tracker as the driver of the wish theorems does, without pending events, and forgets exactly the rooms that an event closes |
| ControlFactory.Factory.GetOrCreate | server/udptransport2/factory.go:297-304 | a room without an entry gets a fresh one, no other room is affected, and no two rooms share an object |
| ControlFactory.Factory.TrackRemote | server/udptransport2/factory.go:306-312 | only the room's own tracker moves, as the remote transition says |
| ControlFactory.Factory.TrackLocal | server/udptransport2/factory.go:404-404 | only the room's own tracker moves, as the local transition says |
| ControlFactory.Factory.MakeTransport | server/udptransport2/factory.go:255-285 | on success the room gets a transport never made before; on failure it has none |
| ControlFactory.Factory.Remove | server/udptransport2/factory.go:353-362 | exactly this room's entry is forgotten |
| ControlFactory.Factory.SendControl | server/udptransport2/factory.go:367-380 | an event goes out at most once and a failure is reported exactly when there was one to send and it was not accepted |
| ControlFactory.Factory.React | server/udptransport2/factory.go:314-365 | the objects follow the specified reaction to an accepted remote event: transports offered, closed for writing and closed in that order, and the teardown cases |
| ControlFactory.Factory.ReactToCreate | server/udptransport2/factory.go:316-328 | on a remote create the factory offers whatever it made, also nothing, and tears down if the offer is not taken |
| ControlFactory.Factory.ReactLocally | server/udptransport2/factory.go:406-426 | the objects follow the specified reaction to a local event |
| ControlFactory.Factory.HandleRemoteEvent | server/udptransport2/factory.go:287-383 | map, trackers, transports, sent events and teardown after a remote event are those of the value-level step that the network theorems are about |
| ControlFactory.Factory.HandleLocalEvent | server/udptransport2/factory.go:385-444 | the same for a local event |
| ControlNetwork.WishKeepsShape | server/udptransport2/control_state_tracker.go:50-101 | a local wish takes every legal room shape to a legal one |
| ControlNetwork.DeliveryKeepsShape | server/udptransport2/control_state_tracker.go:125-170 | in a legal shape the next event is refused if and only if two requests crossed, and otherwise the shape stays legal |
| ControlNetwork.WishMovesOneRoom | server/udptransport2/factory.go:385-444 | a local event leaves every other room of the node untouched |
| ControlNetwork.DeliveryMovesOneRoom | server/udptransport2/factory.go:287-383 | a delivered event leaves every other room untouched, and a refused one always tears down |
| ControlNetwork.RoomsStayLegal | server/udptransport2/factory.go:287-444 | for any number of rooms, any interleaving over the two queues and any behaviour of the environment, until a teardown every room has a legal shape on both sides |
| ControlNetwork.QuietRoomsAgree | server/udptransport2/control_state_tracker.go:50-170 | in every run, when a room has nothing in flight the two nodes agree on closed or added, and no side ever has two unacknowledged requests on the wire |
| ControlNetwork.RefusedOnlyWhenCrossed | server/udptransport2/control_state_tracker.go:125-170 | in every run the next event is refused if and only if it is a create that met a create or a close that met a close |
| ControlLife.WishPerforms | server/udptransport2/factory.go:404-443 | with its transport in stock, a local event performs exactly one move of the transport's life, and stays up if and only if what it must send is sent and what it must make is made |
| ControlLife.DeliveryPerforms | server/udptransport2/factory.go:306-382 | unless it offers a transport that could not be made, an accepted event performs exactly one move, and never fails for a missing transport |
| ControlLife.MoveIsJustified | server/udptransport2/factory.go:314-426 | if the peer has done its part, every effect of a move finds its predecessors in the log |
| ControlLife.DeliveryFindsPeerReady | server/udptransport2/factory.go:287-383 | in every reachable state the peer has done its part before an event arrives |
| ControlLife.StepStaysInOrder | server/udptransport2/factory.go:287-444 | every other step of the two-node system keeps the order of effects and the tallies of both sides |
| ControlLife.TransportsLiveInOrder | server/udptransport2/factory.go:287-444 | for every run: each transport is made once, offered at most once and only after both ends made theirs, closed for writing before it is closed, closed at most once, closed on an acknowledgement only after the peer closed the matching one, and nothing is ever offered in place of one, if and only if no step offers a transport that could not be made; and then, until a teardown, a tracked room has its latest transport if and only if it is not closed |
| ControlLife.TransportsAreReleased | server/udptransport2/factory.go:341-362 | in every such run no transport is left behind: one that a node is no longer using was offered, closed for writing and closed |
| ControlLife.TeardownExactlyWhen | server/udptransport2/factory.go:287-444 | for every run, a step tears down if and only if the environment fails it, a request meets its like, or a room that was added without a transport is to be closed |
| ControlLife.NeverMissesTransport | server/udptransport2/factory.go:329-363 | in every run that offers no missing transport the nil-transport branches are unreachable |
| ControlLife.OnlyAskingMoves | server/udptransport2/control_state_tracker.go:50-170 | a side enters created or write_closed only by asking for it |
| ControlLife.OneSidedRunsStayUp | server/udptransport2/factory.go:287-444 | if each room has one side that creates and one side that closes, no run tears down, however rooms and queues interleave |
| ControlLife.CrossedCreatesTearDown | server/udptransport2/control_state_tracker.go:227-234 | two sides that both ask to create a room do tear down |
| ControlLife.CrossedClosesTearDown | server/udptransport2/control_state_tracker.go:227-234 | two sides that both ask to close a room that both have added do tear down |
| ControlLife.OffersNothingExactlyWhen | server/udptransport2/factory.go:316-328 | in every run a nil transport is offered if and only if some step delivers a create to a closed room, making the transport fails and the offer is taken |
| ControlLife.FailedCreateOffersNothing | server/udptransport2/factory.go:316-328 | a concrete run: making the transport for a remote create fails, nothing is offered, the room is added and acknowledged without a transport, and asking to close it tears the node down |
| NackBitmap.InPacketList | server/sfu/jitter.go:56-56 | a NACK pair requests exactly its packet identifier and, for each set bit i, the number i + 1 later (section 6.2.1 of RFC 4585) |
| NackBitmap.AddAndSubBLP | server/sfu/buffer.go:206-216 | adding a number to a bitmap adds exactly that number to the requests and removing it removes exactly that number |
| NackBitmap.CreateNackPair | server/sfu/buffer.go:218-233 | the pair's bits are exactly the later numbers within reach of the first; the pair denotes the given list if and only if the list ascends within 16 of its first number; the empty list gives the zero pair |
| NackBitmap.CarriedExactly | server/sfu/buffer.go:218-233 | a pair that carries a list denotes it if and only if the list is compact |
| NackBitmap.PacketListIsCompact | server/sfu/buffer.go:206-233 | what any pair denotes can be carried by one pair again |
| NackBitmap.OrderedIsCompact | server/sfu/jitter.go:83-85 | any ordered selection from 17 consecutive numbers fits into one pair |
| RtpBuffer.InMissing | server/sfu/buffer.go:106-180 | the specification of a scan: a number is listed if and only if it is in the wrapped window and its slot is empty |
| RtpBuffer.MissingOnce | server/sfu/buffer.go:106-180 | no number is listed twice, however the window wraps |
| RtpBuffer.MissingSplits | server/sfu/buffer.go:106-140 | cutting a window into windows of 17 loses and repeats nothing |
| RtpBuffer.PairCoversWindow | server/sfu/buffer.go:144-180 | a pair that starts at the first empty slot and has the empty slots after it as bits denotes exactly the empty slots of the window |
| RtpBuffer.Buffer.GetLossesAfter | server/sfu/buffer.go:172-177 | the bits set are exactly the empty slots after the first loss, the count is their number, and no shift reaches 16 |
| RtpBuffer.Buffer.GetNackPair | server/sfu/buffer.go:144-180 | for every content and every window of at most 17 numbers, the pair denotes exactly the empty slots and the count is their number |
| RtpBuffer.Buffer.AppendNackPair | server/sfu/buffer.go:118-137 | one more window extends what the pairs denote by exactly its empty slots |
| RtpBuffer.Buffer.GetNackPairs | server/sfu/buffer.go:106-140 | for every content, start and end, wrap-around included, the pairs denote exactly the empty slots in between, in order, and the loop terminates |
| RtpBuffer.Buffer.ClearOldPackets | server/sfu/buffer.go:183-204 | the loop over the array clears what the recursive sweep clears and stops where it stops |
| RtpBuffer.Buffer.Push | server/sfu/buffer.go:56-96 | the packet is in its slot and the buffer belongs to the stream of its first packet; the new state is that of store, sweep and report; a NACK is returned if and only if the window has passed and something in it is missing, and it then denotes exactly what is missing and names the buffer's stream |
| RtpBuffer.PushRemembers | server/sfu/buffer.go:59-74 | whatever the sweep clears, the pushed packet stays in its slot and the stream of the first packet stays the buffer's |
| RtpBuffer.TsDeltaIsDistance | server/sfu/buffer.go:48-54 | the distance of two timestamps in either direction |
| RtpBuffer.Buffer.GetPacket | server/sfu/buffer.go:98-100 | the packet in the slot of the number, if any |
| RtpStream.ClearsExpired | server/sfu/buffer.go:183-204 | started after the last cleared packet, the sweep clears exactly the expired packets, skipping gaps of any size |
| RtpStream.RingIsExpiringQueue | server/sfu/buffer.go:56-96 | in every in-order run in which the numbers from the last expired packet to the newest span at most 2^16, the ring holds exactly the packets within two seconds of the newest, each in its slot, after every push and whenever losses are looked for |
| RtpStream.OverrunLosesPacket | server/sfu/buffer.go:56-96 | in every in-order run whose newest packet comes exactly 2^16 after a live one, the span exceeds 2^16 and the live packet is overwritten |
| RtpStream.NackNamesTheAbsent | server/sfu/buffer.go:76-96 | a push looks for losses if and only if the true distance since it last looked is at least 17 modulo 2^16, and what it finds missing are exactly those of the 17 preceding numbers without an unexpired packet |
| RtpStream.NackOfRun | server/sfu/buffer.go:56-96 | in every such run a push returns a NACK if and only if something is wanted, and the NACK requests exactly what is wanted from the stream of the first packet |
| RtpStream.FillNamesStream | server/sfu/buffer.go:59-72 | in every run the buffer belongs to the stream of its first packet and remembers the newest number |
| RtpStream.WantedIsWithinStream | server/sfu/buffer.go:56-96 | no number before the stream's first packet is ever requested, nor one whose packet is held |
| RtpStream.NeverRequestedTwice | server/sfu/buffer.go:76-96 | no true number is requested by two pushes of a run |
| NackHandler.JitterBuffer.GetPacket | server/sfu/jitter_buffer.go:38-48 | what the slot of the number holds in the buffer of the stream, nothing for an unknown stream |
| NackHandler.JitterBuffer.RemoveBuffer | server/sfu/jitter_buffer.go:50-55 | exactly that stream is forgotten |
| NackHandler.JitterBuffer.PushRTP | server/sfu/jitter_buffer.go:24-35 | the packet can be looked up afterwards, a NACK names its stream, exactly that stream advances, a new one starting empty, and every packet stays filed under its own number and stream |
| NackHandler.PushKeepsLabels | server/sfu/buffer.go:56-96 | after a push every held packet carries the number of its slot and the SSRC of its stream |
| NackHandler.Retrieve | server/sfu/jitter.go:56-81 | the numbers of one pair are split, in order, into the packets held and the numbers not held |
| NackHandler.HandleNack | server/sfu/jitter.go:44-97 | the packets returned are those held, in order; a NACK is forwarded if and only if something is not held, for the same sender and stream, and it denotes exactly what is not held |
| NackHandler.SplitIsSound | server/sfu/jitter.go:44-97 | every packet returned has a requested number and the requested SSRC and is held under them; every number passed on was requested and is not held |
| NackHandler.SplitSingle | server/sfu/jitter.go:59-81 | a single number is returned as its packet if that is held, and passed on if not |
| NackHandler.SplitAppends | server/sfu/jitter.go:56-86 | packets and leftover numbers come in the order of the request |
| NackHandler.RequestsAreConserved | server/sfu/jitter.go:44-97 | the requested numbers are exactly those of the packets returned and those passed on, with multiplicity |
| JitterRuns.StreamsAreIndependent | server/sfu/jitter_buffer.go:24-55 | for every interleaving of pushes and removals, each stream has the buffer of its own packets since it was last removed |
| JitterRuns.HeldExactlyWhenLive | server/sfu/jitter_buffer.go:38-48 | in every such run, for an in-order stream within the span, a packet is found if and only if it is live, and it is that packet |
| JitterRuns.PassedOnExactlyWhenNotLive | server/sfu/jitter.go:44-97 | in every such run a requested number is passed on to the sender if and only if the stream has no live packet of that number |
| JitterRuns.UnknownStreamHoldsNothing | server/sfu/jitter_buffer.go:38-55 | a stream that sent nothing or was removed returns nothing |
| ChunkHeader.EncodeHeader | src/client/codec/header.ts:31-57 | writes the 16 bytes of the specified layout |
| ChunkHeader.HeaderLayout | src/client/codec/header.ts:1-54 | the documented layout: four big-endian 16-bit fields and two 32-bit fields whose top bit is clear |
| ChunkHeader.ShortHeaderReadsZeros | src/client/codec/header.ts:59-79 | bytes that are missing count as zeros |
| ChunkHeader.HeaderRoundTrips | src/client/codec/header.ts:31-79 | decoding returns each field cut to its width, whatever follows the header, and the header itself if and only if every field fits |
| ChunkEncoder.StartsWithin | src/client/codec/index.ts:96-101 | the loop ends after exactly the announced number of chunks; all but the last are full and they tile the data |
| ChunkEncoder.BuildChunk | src/client/codec/index.ts:112-122 | a chunk is header, sender and data, without gap or overlap |
| ChunkEncoder.Split | src/client/codec/index.ts:62-146 | fails if and only if the size limit leaves no byte after the 16 of the header and the sender ID; otherwise posts exactly the chunks announced |
| ChunkEncoder.ChunksFit | src/client/codec/index.ts:79-101 | every chunk is within the size limit and all but the last reach it |
| ChunkEncoder.PayloadIsData | src/client/codec/index.ts:98-136 | the data of the chunks, put together, is the message |
| ChunkEncoder.Encoder.NewMessageId | src/client/codec/index.ts:234-238 | the next ID after the previous one, never 0 |
| ChunkEncoder.IdsCycle | src/client/codec/index.ts:234-238 | the n-th ID is 1 + (n - 1) modulo 65535 |
| ChunkEncoder.IdsDiffer | src/client/codec/index.ts:228-257 | any 65535 consecutive messages have different 16-bit IDs, and the next one repeats the first |
| ChunkDecoder.KeyIsInjective | src/client/codec/index.ts:286-286 | keys tell messages apart even when sender IDs contain underscores and digits |
| ChunkDecoder.Decoder.Decode | src/client/codec/index.ts:275-316 | the entries and the result are those of the value-level step, for every input, including one that does not fit its buffer |
| ChunkDecoder.MisfitCountsNothing | src/client/codec/index.ts:288-304 | an input whose data does not fit its buffer counts as no chunk; at most an empty entry for its own message is added |
| ChunkDecoder.WellFormedExactly | src/client/codec/header.ts:31-79 | the messages covered below are exactly those all of whose chunk headers survive encoding |
| ChunkDecoder.DecodesChunk | src/client/codec/index.ts:275-316 | a chunk, first or not, last or not, lands where its data belongs |
| ChunkDecoder.ChunkAdvances | src/client/codec/index.ts:288-316 | one more chunk completes its message if and only if it was the last one missing, and touches no other entry |
| ChunkDecoder.EntriesTrackMessages | src/client/codec/index.ts:275-316 | for every order and interleaving, a message's entry holds exactly its chunks so far, and there is none before the first and after the last |
| ChunkDecoder.LastChunkCompletes | src/client/codec/index.ts:307-315 | a delivery returns null unless it is the last one missing of its message, and then exactly the sender and the bytes |
| ChunkDecoder.NothingLeftBehind | src/client/codec/index.ts:307-312 | once every message is complete no entry is left |
| PubSubIndex.EmptyAgrees | server/pubsub/pubsub.go:49-60 | the new indexes agree |
| PubSubIndex.PublishAgrees | server/pubsub/pubsub.go:63-90 | publishing keeps all indexes, transports and event listeners in agreement if and only if the track is not published yet, or by the same client through the same reader |
| PubSubIndex.UnpublishAgrees | server/pubsub/pubsub.go:93-117 | unpublishing a track without subscribers keeps agreement if and only if the caller names its publisher |
| PubSubIndex.SubscribeAgrees | server/pubsub/pubsub.go:146-173 | subscribing keeps agreement if and only if the client has no subscription yet or comes with the same transport, and adds exactly one subscription |
| PubSubIndex.UnsubscribeAgrees | server/pubsub/pubsub.go:198-223 | unsubscribing keeps agreement and removes exactly one subscription |
| PubSub.PubSub.Pub | server/pubsub/pubsub.go:63-90 | the track has the client and reader as its publisher, the client's readers grow by exactly the reader, one addition is announced, no subscription and nothing of other clients changes; and exactly when the indexes agree afterwards |
| PubSub.PubSub.Sub | server/pubsub/pubsub.go:120-143 | which error is returned exactly when; on success exactly one subscription is added, the reader gains the client, the transport gains the track and the client keeps the transport it registered first; on failure no subscription changes |
| PubSub.PubSub.SubTo | server/pubsub/pubsub.go:146-173 | a track that the transport has is refused before anything changes; if the reader refuses, the track that was added is removed again |
| PubSub.PubSub.Unsub | server/pubsub/pubsub.go:176-195 | succeeds if and only if the client is subscribed, and removes exactly that subscription |
| PubSub.PubSub.UnsubFrom | server/pubsub/pubsub.go:198-223 | the whole new state, and exactly which error is returned when reader, map and transport disagree |
| PubSub.PubSub.UnsubAll | server/pubsub/pubsub.go:100-102 | the loop that deletes subscribers while visiting them leaves none, and leaves every other subscription |
| PubSub.PubSub.Unpub | server/pubsub/pubsub.go:93-117 | the track, all subscriptions to it and nothing else are gone, one removal is announced, and agreement holds if and only if the caller named the publisher |
| PubSub.PubSub.UnpubAll | server/pubsub/pubsub.go:239-241 | every track of the client and every subscription to one is gone, and each removal is announced exactly once |
| PubSub.PubSub.UnsubEverywhere | server/pubsub/pubsub.go:243-245 | every subscription of the client is gone and no other |
| PubSub.PubSub.Terminate | server/pubsub/pubsub.go:234-246 | the client publishes nothing and is subscribed to nothing, nobody is subscribed to its former tracks, nothing else has changed, and the removal of each of its tracks is announced exactly once |
| PubSub.PubSub.Subscribers | server/pubsub/pubsub.go:248-264 | exactly the clients whose subscription map has the track |
| PubSub.PubSub.Tracks | server/pubsub/pubsub.go:288-302 | each published track once with its owner, which is exactly what a listener that replays the events knows |
| WildcardTrie.WildcardNode.Add | server/logger/wildcard_node.go:33-65 | growing the nodes in place keeps them a tree and changes the trie as adding the pattern to its value does |
| WildcardTrie.NewWildcardNode | server/logger/wildcard_node.go:17-29 | the nodes built from a configuration are the trie that the theorems are about |
| WildcardTrie.WildcardNode.LevelForNames | server/logger/wildcard_node.go:67-122 | the recursion with its search loop terminates and computes the backtracking specification |
| WildcardTrie.WildcardNode.LevelForNamespace | server/logger/wildcard_node.go:125-137 | the level of the split namespace, or the root's |
| WildcardTrie.NamespaceMeaning | server/logger/wildcard_node.go:17-137 | for every configuration and namespace: its own setting decides; a plain namespace otherwise has the level of a setting that matches it, or the default level if and only if the effective form of no setting matches |
| WildcardTrie.RootHasDefault | server/logger/wildcard_node.go:33-38 | the root has the level set for the empty namespace, or is disabled |
| Wildcard.LookupIsSound | server/logger/wildcard_node.go:67-122 | for every trie and namespace, a level that is found belongs to a pattern that matches |
| Wildcard.LookupIsComplete | server/logger/wildcard_node.go:67-122 | for every trie and plain namespace, if the effective form of a pattern matches then a level is found |
| Wildcard.LookupIsEffective | server/logger/wildcard_node.go:67-122 | conversely, the level found belongs to a pattern whose effective form matches |
| Wildcard.TameIsEffective | server/logger/wildcard_node.go:91-119 | a pattern is its own effective form if and only if no `**` is directly followed by a wildcard |
| Wildcard.PreferredIsFound | server/logger/wildcard_node.go:82-121 | among the patterns whose effective form matches, the level found belongs to one over which none is preferred: at the first difference, up to the section after the first `**`, a literal goes before the end, the end before `*`, and `*` before `**` |
| Wildcard.PreferredEntryWins | server/logger/wildcard_node.go:17-137 | the same for every configuration |
| Wildcard.ExactEntryWins | server/logger/wildcard_node.go:84-88 | an entry for exactly the namespace decides, whatever else is configured |
| Wildcard.LevelAtAdded | server/logger/wildcard_node.go:33-65 | adding a pattern sets its level and no other |
| Wildcard.AddsCommute | server/logger/wildcard_node.go:33-65 | adding two different patterns in either order gives the same trie |
| Wildcard.BuiltHolds | server/logger/wildcard_node.go:17-65 | the trie has exactly the configured levels |
| Wildcard.OrderIsIrrelevant | server/logger/wildcard_node.go:17-65 | any two orders of a configuration build the same trie |
| Wildcard.Split | server/logger/wildcard_node.go:40-40 | at least one section, no section contains a colon, and joining the sections restores the namespace |
| Wildcard.SplitIsUnique | server/logger/wildcard_node.go:130-130 | splitting is the only way to write a namespace as colon-free sections |
| Wildcard.PatternIsInjective | server/logger/wildcard_node.go:33-65 | different configuration keys are different patterns |
| Wildcard.ConfigurationMeaning | server/logger/wildcard_node.go:17-137 | for every configuration: a level found belongs to a configured pattern that matches; for plain namespaces a level is found if and only if the effective form of a configured pattern matches, hence if and only if a configured pattern matches when all are tame; an exact entry decides |
| Wildcard.UntamePatternMisses | server/logger/wildcard_node.go:91-119 | a `**` followed by a `*` matches a namespace for which nothing is found |
| RtpSource.Source.InitSeq | server/sfu/stats/source.go:51-60 | the counters restart at the number |
| RtpSource.Source.UpdateSeq | server/sfu/stats/source.go:63-117 | probation, dropout, misorder and restart are handled as the transition says, on wrapping counters |
| RtpSource.Source.ReceptionReport | server/sfu/stats/source.go:140-163 | the extended highest number, the total lost and the interval lost, and the snapshot taken for the next report |
| RtpSource.SteadyPacketsAccepted | server/sfu/stats/source.go:63-117 | if each number is at most 99 behind and 2999 ahead of the highest so far, every packet is accepted |
| RtpSource.SteadyRunCounts | server/sfu/stats/source.go:63-117 | in every such run the 16-bit maximum and the cycles together are the highest true number modulo 2^32, and the count is that of the packets |
| RtpSource.ReportsAreTrue | server/sfu/stats/source.go:140-163 | in every such run a report gives the true highest number and the true loss modulo 2^32, however often the 16-bit numbers wrapped (appendix A.3 of RFC 3550) |
| RtpSource.IntervalsTelescope | server/sfu/stats/source.go:149-163 | the interval losses of all reports add up to the true loss at the last one |
| RtpSource.JumpRestarts | server/sfu/stats/source.go:99-109 | after a large jump exactly a packet with the number that follows restarts the counters there; any other jump is refused and waited for anew |
| RtpSource.FreshSourceRefusesJumps | server/sfu/stats/source.go:51-60 | a source that has just started takes no number for the second of a restart |
| RtpSource.ProbationRefuses | server/sfu/stats/source.go:75-91 | a source on probation refuses all packets in sequence before the last it asks for, and a packet out of sequence starts over |
| RtpSource.ProbationEnds | server/sfu/stats/source.go:75-91 | it restarts its counters at the last packet it asks for |
| BitrateEstimator.SumWithout | server/pubsub/remb.go:25-47 | the total of a map is independent of the order in which it is summed |
| BitrateEstimator.MinMaxWith | server/pubsub/remb.go:25-47 | a changed estimate that was neither extreme can be taken into account by comparing with the extremes |
| BitrateEstimator.MinMaxWithout | server/pubsub/remb.go:108-126 | dropping an estimate that was neither extreme leaves the extremes |
| BitrateEstimator.MinMax | server/pubsub/remb.go:59-80 | one pass over the map in any order finds the least and the greatest estimate |
| BitrateEstimator.MeanBetween | server/pubsub/remb.go:49-51 | the rounded mean lies between the extremes |
| BitrateEstimator.BitrateEstimator.Feed | server/pubsub/remb.go:25-47 | exactly one estimate changes, the total stays exact, and mean and extremes stay current or marked for repair |
| BitrateEstimator.BitrateEstimator.RemoveClientBitrate | server/pubsub/remb.go:108-126 | exactly one estimate goes, also the last one and one that is not there |
| BitrateEstimator.BitrateEstimator.RecalculateMinMax | server/pubsub/remb.go:59-80 | the repair makes the extremes current |
| BitrateEstimator.BitrateEstimator.Min | server/pubsub/remb.go:88-92 | in every history the least current estimate, 0 when there is none, however long the repair was deferred |
| BitrateEstimator.BitrateEstimator.Max | server/pubsub/remb.go:95-99 | in every history the greatest current estimate, 0 when there is none |
| BitrateEstimator.BitrateEstimator.Avg | server/pubsub/remb.go:102-106 | in every history the mean of the current estimates rounded down, 0 when there is none, and between the extremes |
| Packetizer.Marshal | server/stringmux/packetizer.go:17-52 | fails if and only if the stream ID is longer than 255 bytes; otherwise the byte 200, the length, the stream ID and the data |
| Packetizer.FramesRoundTrip | server/stringmux/packetizer.go:17-81 | parsing a frame returns the packet, and bytes parse to a packet if and only if they are its frame |
| StringMux.Mux.GetNewConn | server/stringmux/stringmux.go:101-115 | an existing stream is refused, a new one gets a new connection |
| StringMux.Mux.HandlePacket | server/stringmux/stringmux.go:147-167 | a packet goes to its stream's connection, or to a new one that is advertised first |
| StringMux.Mux.TakeOffer | server/stringmux/stringmux.go:117-145 | an accepted advertisement enters the map and its packet follows |
| StringMux.Mux.HandleClose | server/stringmux/stringmux.go:169-185 | the connection is closed afterwards, its stream is free if it was open, and it fails if and only if the stream has no connection |
| StringMux.Mux.CloseAll | server/stringmux/stringmux.go:71-83 | the deferred cleanup closes exactly the connections in the map |
| StringMux.Mux.Select | server/stringmux/stringmux.go:187-204 | one turn of the loop is the specified step and keeps the invariant |
| StringMux.CloseCloses | server/stringmux/stringmux.go:169-185 | in every sound state, closing an open connection closes it and frees its stream, closing a closed one does nothing, and no other connection, queue or stream is touched |
| StringMux.GetOpens | server/stringmux/stringmux.go:101-115 | a request for an unknown stream gives it a new, open, empty connection in the map; one for a known stream changes nothing |
| StringMux.ReceiveQueuesOrOffers | server/stringmux/stringmux.go:147-167 | a packet of a known stream goes on its queue and on no other; for an unknown stream a new connection is advertised, which is not in the map yet |
| StringMux.OfferIsTaken | server/stringmux/stringmux.go:117-145 | accepting an advertised connection and asking for its stream both put it into the map, with its packet on its queue |
| StringMux.TearDownCloses | server/stringmux/stringmux.go:71-83 | a teardown closes exactly the connections in the map, empties it, touches no queue, and nothing happens afterwards |
| StringMux.OneOpenPerStream | server/stringmux/stringmux.go:101-145 | in every sound state a stream has at most one open connection |
| StringMux.StepIsSound | server/stringmux/stringmux.go:187-204 | no step closes a connection twice, sends to a closed one, opens a second one for a stream, or puts a packet on another stream's queue |
| StringMux.Run | server/stringmux/stringmux.go:60-205 | in every run the invariant holds: every open connection was given exactly the packets of its stream since it was opened, in order |
| StringMux.HandledAsTaken | server/stringmux/stringmux.go:147-204 | packets are put on queues in the order in which they came from the link, and until a teardown at most the one being advertised is outstanding |
| StringMux.FrameSurvives | server/stringmux/stringmux.go:207-242 | a frame read into the fixed buffer parses to the packet written if and only if it is within the MTU |
| StringMux.LinkDelivers | server/stringmux/stringmux.go:207-242 | over a FIFO link, frames within the MTU are read back in order |
| StringMux.ReadingStops | server/stringmux/stringmux.go:221-226 | nothing after a frame that does not parse is read |
| StringMux.DueIsSuffix | server/stringmux/stringmux.go:147-167 | what a connection was given is the end of what was handled of its stream, without gaps |
| StringMux.DeliversInOrder | server/stringmux/stringmux.go:187-242 | end to end: what was handled is a prefix of what was written, and every open queue ends with the latest packets written to its stream |
| BaseN.Encode | server/basen/basen.go:27-49 | the digits of the number that the bytes denote, least significant first |
| BaseN.DigitAt | server/basen/basen.go:41-46 | the k-th character is the remainder of the k-th quotient, and the last one is not zero |
| BaseN.NewTable | server/basen/basen.go:59-70 | the table gives every character of the alphabet its last position, and no other character a value |
| BaseN.Decode | server/basen/basen.go:74-100 | fails if and only if a character is not in the alphabet; otherwise the shortest bytes of the number that the digits denote |
| BaseN.BytesOfNumber | server/basen/basen.go:74-100 | the bytes of a number are the original ones without leading zeros |
| BaseN.EvalOfDigits | server/basen/basen.go:27-100 | the digits of a number denote it |
| BaseN.DigitsOfEval | server/basen/basen.go:27-100 | encoding restores a text if and only if the text has no trailing zero digit |
| BaseN.EncodingRoundTrips | server/basen/basen.go:27-100 | for every alphabet of at least two single-byte characters: all byte strings survive encoding and decoding, up to leading zero bytes, if and only if no character is repeated |
| BaseN.RepeatedCharacterLoses | server/basen/basen.go:27-100 | every repeated character gives a byte string that decodes to another number |
| BaseN.SameEncodingSameNumber | server/basen/basen.go:27-49 | two byte strings are encoded alike if and only if they denote the same number, which is if and only if they differ in leading zeros only |

## Left out

- WebRTC, SCTP, websocket, Redis, HTTP, Prometheus and command-line code: plumbing around libraries that are not part of this model.
- The browser user interface, audio handling and the encryption worker.
- Liveness, blocking and fairness of the goroutine loops: only safety over steps is modelled. The environment's choices (making, offering, sending, delivering before a teardown) are parameters.
- `server/udpmux`: the loop of the string multiplexer with another key.
- The factory's pings, its closing of transports during a teardown and its handling of unexpected connections.
- RtpStream.RingIsExpiringQueue: the bound on the span is sufficient and not necessary (a longer gap without live packets does no harm); `OverrunLosesPacket` shows that the bound cannot be raised. Reordered packets and timestamps that go back or wrap are not covered.
- RtpStream.NackNamesTheAbsent: it is not claimed that every lost packet is requested; a push looks at the last 17 numbers only, so a longer burst is not covered.
- NackBitmap.InPacketList: the list of a pair comes from a library that is not part of this model; its meaning is taken from section 6.2.1 of RFC 4585. Bitmaps are sequences of 16 bits.
- ChunkDecoder.LastChunkCompletes: each chunk is delivered once; a container's buffer is a value, so a caller that keeps writing to a returned buffer is not modelled. Sender IDs are their UTF-8 bytes; text encoding is not modelled.
- ChunkHeader.EncodeHeader: fields are non-negative, as the encoder produces them.
- PubSub.PubSub.Sub: readers and transports are abstract (a set of subscribers, a set of tracks); whether a reader is open is a parameter. A reader that drops closed subscribers by itself (`server/pubsub/track_reader.go:60-72`), the removal of bitrate estimates in unsub and the fan-out of events to channels are not modelled.
- WildcardTrie.WildcardNode.Add: descends by recursion where the source descends in a loop, and takes the sections of the namespace; a nil configuration is not modelled.
- Wildcard.ConfigurationMeaning: completeness is stated for namespaces without a wildcard section.
- RtpSource.Source.ReceptionReport: jitter, the fraction lost and timestamps are not modelled.
- RtpSource.SteadyRunCounts: covers sources without probation.
- BitrateEstimator.BitrateEstimator.Feed: bitrates are positive (0 means unset in the source, so the result would depend on map order) and sums stay below 2^53, where floating point is exact; the total is an integer.
- StringMux.Mux.CloseAll: closes in order of creation, while the source ranges over a map.
- BaseN.NewTable: alphabets are sequences of single-byte characters.
- BaseN.Decode: alphabets are sequences of single-byte characters; the text may contain any character.
- The RTCP interval scheduler (floating point and randomness), logging, error text and JSON.
