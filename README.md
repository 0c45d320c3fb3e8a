# A Dafny model of the robot stack's sequential core

This project models the parts of the robot software that are sequential
logic over bytes, sequences, maps and small records, and proves what they
promise:

- **The Autobahn wire format, in three implementations.** The Rust broker's
  `Msg::parse_message` / `build_message` (`Flags`), the C++ LiDAR client's
  `send_message` / `parse_message` and its `subscriptions_` map
  (`LidarClient`), and the Python peer protocol's `Message.from_bytes` /
  `to_bytes` (`PeerMessage`). Big-endian integers and UTF-8 live in `Bytes`
  and `Utf8`. The Rust side is not its own inverse: `build_message` writes
  a u16 topic length and no payload length, while `parse_message` reads two
  u32 lengths. The model proves the two cross-language facts instead. What
  the C++ client sends is what the broker reads. What the broker builds for
  PUBLISH is what the C++ client reads.
- **The broker's per-frame state** (`Broker`): the topic → writers map, the
  peer IP → (interest set, writer) map, each connection's topic set, and
  the frames sent. Covered: SUBSCRIBE, UNSUBSCRIBE, PUBLISH fan-out,
  `cleanup_subscriptions` with its `swap_remove` loop, and peer
  (re)insertion.
- **Grid A\*** (`AStar`). The search loop, the heap order, the heuristic
  and path reconstruction. The grid is abstract and 4-connected.
- **Deployment scheduling** (`Deployment`). Pi-name normalisation and the
  greedy weighted assignment of processes to Pis, with `ProcessPlan`.
- **Small utilities.**
  - The watchdog's request validation and base64 filter (`Watchdog`).
  - numpy and TypeScript matrix helpers (`NumpyMath`, `ConfigMath`).
  - The Kalman input preparers and their registry (`KalmanPreparers`,
    `DataPrep`).
  - The extrapolator's rotation flag (`PositionExtrapolator`).
  - The configuration enum mappings (`StructUtil`) and the logger's level
    gates (`DebugLogger`).
- **Time-windowed point buffers and map painting.** The frustum shared by
  both buffers (`Frustum`), the C++ `SphericalMap` and the Rust
  `TimedPointMap`, and the flat-list painter `PlayingMap`.

Python exceptions, Rust `None`s and TypeScript `throw`s become the `Err`
side of a `Result`, or a dedicated outcome. A Rust panic is the `Panics`
outcome. Clocks, random numbers, the network and the filter behind the
extrapolator become parameters or recorded sequences.

## Model

| member | source | states |
|---|---|---|
| Bytes.U32RoundTrip | project/hybrid-frustum-pointnet/lidar/src/util/autobahn.cpp:99-104 | reading back the four big-endian bytes written for n gives n mod 2^32 (the `uint32_t` conversion of `size()`) |
| Bytes.ReadU32Slice | project/autobahn/autobahn-rust/src/flags.rs:21 | `get_u32` over bytes that hold the encoding of n reads n mod 2^32, and exactly n when n < 2^32 |
| Bytes.U32OfRead | project/autobahn/autobahn-rust/src/flags.rs:21 | any four bytes are the encoding of the u32 read from them |
| Bytes.U16RoundTrip | project/autobahn/autobahn-rust/src/flags.rs:41 | reading back the two bytes `put_u16` writes for n gives n mod 2^16 |
| Bytes.U16Mod | project/autobahn/autobahn-rust/src/flags.rs:41 | `topic.len() as u16` truncates: the u16 bytes of n are those of n mod 2^16 |
| Bytes.ReadU16Prefix | project/hybrid-frustum-pointnet/lidar/src/util/autobahn.cpp:67-68 | the high-byte-first u16 read after any prefix recovers n mod 2^16 |
| Utf8.EncodeAppend | project/autobahn/autobahn_python/message.py:56 | encoding a concatenation is the concatenation of the encodings |
| Utf8.DecodeEncode | project/autobahn/autobahn-rust/src/flags.rs:22 | the UTF-8 bytes of any string decode back to that string |
| Utf8.EncodeDecode | project/autobahn/autobahn-rust/src/flags.rs:22 | bytes that decode are the encoding of what they decode to |
| Utf8.ValidEncode | project/autobahn/autobahn_python/message.py:50 | every encoded string is valid UTF-8 |
| Flags.GetFlag | project/autobahn/autobahn-rust/src/flags.rs:50-56 | SUBSCRIBE, UNSUBSCRIBE and PUBLISH get 0x01, 0x02 and 0x03, one flag per kind, in both directions |
| Flags.ParseMessage | project/autobahn/autobahn-rust/src/flags.rs:14-34 | an empty buffer gives None, and a parsed message's first byte is its own flag |
| Flags.ParseBody | project/autobahn/autobahn-rust/src/flags.rs:20-33 | a parsed body carries the flag of the message it yields |
| Flags.ParseLayout | project/autobahn/autobahn-rust/src/flags.rs:14-34 | a parsed frame is laid out as flag, u32 topic length, UTF-8 topic and, for PUBLISH, u32 payload length and payload |
| Flags.BodyLayout | project/autobahn/autobahn-rust/src/flags.rs:22-31 | the topic bytes are the encoding of the parsed topic, and the payload follows its u32 length |
| Flags.ReadPayload | project/autobahn/autobahn-rust/src/flags.rs:28-29 | a payload read is exactly the bytes its u32 length announces |
| Flags.BuildMessage | project/autobahn/autobahn-rust/src/flags.rs:36-48 | SUBSCRIBE and UNSUBSCRIBE build the empty frame; PUBLISH builds flag, u16 length, topic and payload, with no payload length |
| Flags.ParseTopicFrame | project/autobahn/autobahn-rust/src/flags.rs:20-26 | `[0x01 or 0x02][u32 n][n UTF-8 bytes]`, followed by anything, parses to SUBSCRIBE or UNSUBSCRIBE of that topic |
| Flags.ParsePublishFrame | project/autobahn/autobahn-rust/src/flags.rs:27-31 | a PUBLISH frame parses to its topic and payload, and bytes after the payload are ignored |
| Flags.ParseUnknownFlag | project/autobahn/autobahn-rust/src/flags.rs:24-32 | another flag gives None once the topic has been read, and panics when the topic bytes are missing |
| Flags.ParseBadTopic | project/autobahn/autobahn-rust/src/flags.rs:22 | a topic that is not UTF-8 gives None, not a panic |
| Flags.ParseShortPanics | project/autobahn/autobahn-rust/src/flags.rs:20-21 | a non-empty buffer shorter than five bytes panics in `get_u32` |
| Flags.ParseIsBuildFrame | project/autobahn/autobahn-rust/src/flags.rs:10-11 | every buffer that parses starts with the documented layout of the message it yields |
| Flags.BuildFrameRoundTrip | project/autobahn/autobahn-rust/src/flags.rs:10-11 | the documented layout, the one `parse_message` reads, parses back to the message |
| Flags.BuildControlIsUnparseable | project/autobahn/autobahn-rust/src/flags.rs:45-47 | `build_message` of SUBSCRIBE or UNSUBSCRIBE is empty and parses to None |
| Flags.BuildPublishNotInverse | project/autobahn/autobahn-rust/src/flags.rs:38-44 | `parse_message` does not invert `build_message`: an empty PUBLISH built by the broker panics when parsed |
| LidarClient.SendMessage | project/hybrid-frustum-pointnet/lidar/src/util/autobahn.cpp:90-117 | the frame is flag, u32 topic length, topic, u32 payload length and payload |
| LidarClient.ParseFrame | project/hybrid-frustum-pointnet/lidar/src/util/autobahn.cpp:61-75 | flag, high-byte-first u16 length, that many topic bytes and the rest as payload reassemble into the buffer |
| LidarClient.MatchesIsPrefix | project/hybrid-frustum-pointnet/lidar/src/util/autobahn.cpp:79-80 | `topic.compare(0, key.size(), key) == 0` holds exactly when the key is a prefix of the topic |
| LidarClient.Client.constructor | project/hybrid-frustum-pointnet/lidar/src/util/autobahn.cpp:6-7 | a new client has no subscriptions and has sent nothing |
| LidarClient.Client.Subscribe | project/hybrid-frustum-pointnet/lidar/src/util/autobahn.cpp:30-34 | the callback is stored or replaced under the topic, then a SUBSCRIBE with an empty payload is sent |
| LidarClient.Client.Unsubscribe | project/hybrid-frustum-pointnet/lidar/src/util/autobahn.cpp:36-39 | the entry is erased, then an UNSUBSCRIBE is sent |
| LidarClient.Client.Publish | project/hybrid-frustum-pointnet/lidar/src/util/autobahn.cpp:41-43 | one PUBLISH frame is sent and the subscriptions are untouched |
| LidarClient.Client.ParseMessage | project/hybrid-frustum-pointnet/lidar/src/util/autobahn.cpp:59-84 | on PUBLISH, exactly the callbacks whose key prefixes the topic are called, once each, with the payload; other flags call nothing |
| LidarClient.BrokerReadsControl | project/hybrid-frustum-pointnet/lidar/src/util/autobahn.cpp:30-39 | the broker parses the client's SUBSCRIBE or UNSUBSCRIBE to the same message and topic |
| LidarClient.BrokerReadsPublish | project/hybrid-frustum-pointnet/lidar/src/util/autobahn.cpp:96-117 | the broker parses the client's PUBLISH to the same topic and payload |
| LidarClient.BrokerRejectsBadTopic | project/hybrid-frustum-pointnet/lidar/src/util/autobahn.cpp:100-107 | a client frame whose topic bytes are not UTF-8 is dropped by the broker as None |
| LidarClient.ParseFrameOf | project/hybrid-frustum-pointnet/lidar/src/util/autobahn.cpp:64-75 | the client's read inverts the u16 layout for topics below 2^16 bytes |
| LidarClient.ClientReadsBrokerPublish | project/hybrid-frustum-pointnet/lidar/src/util/autobahn.cpp:64-75 | every PUBLISH the broker builds is readable here; the topic is the first `len mod 2^16` bytes and the rest is payload |
| LidarClient.ClientReadsShortPublish | project/hybrid-frustum-pointnet/lidar/src/util/autobahn.cpp:64-75 | a broker PUBLISH with a topic below 2^16 bytes arrives with its topic and payload intact |
| LidarClient.ClientCannotReadControl | project/hybrid-frustum-pointnet/lidar/src/util/autobahn.cpp:64-72 | the broker's empty SUBSCRIBE or UNSUBSCRIBE frames are too short for the client's read |
| Broker.ClientId | project/autobahn/autobahn-rust/src/main.rs:109 | a client id is the random u32 mod 1000000, so it is below 1000000 |
| Broker.IsTopicMatchIsPrefix | project/autobahn/autobahn-rust/src/main.rs:287-294 | `is_topic_match` holds exactly when the message starts with the topic's bytes |
| Broker.AddSubscriber | project/autobahn/autobahn-rust/src/main.rs:144-151 | `entry().or_insert_with().push()` appends one writer under the topic, creating the list, and leaves the other topics alone |
| Broker.Without | project/autobahn/autobahn-rust/src/main.rs:191-197 | `retain` keeps exactly the writers of other clients |
| Broker.SubscribeCount | project/autobahn/autobahn-rust/src/main.rs:144-151 | SUBSCRIBE adds exactly one entry for the client, so duplicates accumulate |
| Broker.WithoutCount | project/autobahn/autobahn-rust/src/main.rs:191-197 | after `retain` no entry of the client remains and other clients keep all of theirs |
| Broker.WithoutIdempotent | project/autobahn/autobahn-rust/src/main.rs:191-197 | unsubscribing twice is unsubscribing once |
| Broker.WithoutMultiset | project/autobahn/autobahn-rust/src/main.rs:191-197 | in multiset terms `retain` drops every copy with the id and keeps every other copy |
| Broker.SwapRemove | project/autobahn/autobahn-rust/src/main.rs:314 | `swap_remove(i)` shortens the list by one and keeps everything before i |
| Broker.SwapRemoveMultiset | project/autobahn/autobahn-rust/src/main.rs:314 | `swap_remove(i)` takes out exactly one copy of element i |
| Broker.RemoveClient | project/autobahn/autobahn-rust/src/main.rs:310-318 | the `while i < len` loop terminates and leaves the other entries as a multiset, with none of the client's |
| Broker.CleanedKeeps | project/autobahn/autobahn-rust/src/main.rs:302-321 | a cleaned list has no entry of the client and every other writer keeps its count |
| Broker.AllPeers | project/autobahn/autobahn-rust/src/main.rs:156-167 | the fan-out visits each peer's writer once, in iteration order |
| Broker.SubscribeThenPublish | project/autobahn/autobahn-rust/src/main.rs:144-151 | a subscribed client receives the next PUBLISH on its topic |
| Broker.UnsubscribeThenPublish | project/autobahn/autobahn-rust/src/main.rs:187-197 | after the intended UNSUBSCRIBE (the corrected half of the `retain` finding) no PUBLISH on the topic reaches the client through the list |
| Broker.UnsubscribeLeavesWriter | project/autobahn/autobahn-rust/src/main.rs:144-226 | as written, a client that subscribes and then unsubscribes has its task ended by the panic in `retain`; its writer stays in the topic's list and the next PUBLISH on the topic is still sent to it |
| Broker.Connection.constructor | project/autobahn/autobahn-rust/src/main.rs:107-112 | an accepted connection has the id `random % 1000000` and an empty topic set |
| Broker.Broker.constructor | project/autobahn/autobahn-rust/src/main.rs:46-49 | both maps start empty |
| Broker.Broker.PeerConnected | project/autobahn/autobahn-rust/src/main.rs:58-69 | a (re)connected peer is stored with an empty interest set and writer id 0, discarding earlier interest |
| Broker.Broker.Subscribe | project/autobahn/autobahn-rust/src/main.rs:132-174 | the topic joins the connection's set; a peer IP only gains interest, any other IP gets one entry and every peer gets the empty frame |
| Broker.Broker.SendToPeers | project/autobahn/autobahn-rust/src/main.rs:154-167 | one send of the frame to each peer, and no map changes |
| Broker.Broker.Unsubscribe | project/autobahn/autobahn-rust/src/main.rs:175-206 | the intended UNSUBSCRIBE: the topic leaves the connection's set; a peer IP only loses interest, any other IP loses its entries under the topic, others keep their order; `Receive` uses it only where the source's `retain` does not panic |
| Broker.Broker.Publish | project/autobahn/autobahn-rust/src/main.rs:207-258 | one PUBLISH per list entry, duplicates included, then one per interested peer; neither map changes |
| Broker.Broker.SendToAll | project/autobahn/autobahn-rust/src/main.rs:214-226 | one send per writer, in order |
| Broker.Broker.InterestedPeers | project/autobahn/autobahn-rust/src/main.rs:230-243 | the targets are exactly the writers of peers whose interest set holds the topic |
| Broker.Broker.Cleanup | project/autobahn/autobahn-rust/src/main.rs:302-321 | under every topic of the connection no entry of its id remains, the others stay as a multiset, and other topics are untouched |
| Broker.Broker.Receive | project/autobahn/autobahn-rust/src/main.rs:114-274 | a SUBSCRIBE, UNSUBSCRIBE or PUBLISH frame has exactly the effect of that operation (`Subscribed`, `Unsubscribed`, `Published`, with the fan-out order returned) and leaves the connection open, except that an UNSUBSCRIBE from a non-peer whose topic list is non-empty panics in `block_on` and ends the task with no list changed and no cleanup (`Abandoned`); close, read errors and empty frames have exactly `Close`'s effect; a ping changes nothing; a panicking parse ends the connection without cleanup |
| Broker.Broker.Close | project/autobahn/autobahn-rust/src/main.rs:117-121 | cleanup, then the connection's task ends |
| Broker.InterestedAppend | project/autobahn/autobahn-rust/src/main.rs:236-242 | collecting interested peers works one peer at a time, in iteration order |
| PeerMessage.Tag | project/autobahn/autobahn_python/message.py:10-13 | every message kind has one of the three tags `p`, `s`, `t` |
| PeerMessage.ToBytes | project/autobahn/autobahn_python/message.py:55-63 | every encoding starts with its class's tag; PUBLISH raises struct.error exactly when the topic exceeds 255 bytes or the id is outside u32 |
| PeerMessage.PublishFromBytes | project/autobahn/autobahn_python/message.py:47-53 | a decoded PUBLISH has a u8 topic length, that topic, a u32 id and everything after it as payload; another tag is an AssertionError |
| PeerMessage.JsonFromBytes | project/autobahn/autobahn_python/message.py:72-75 | a decoded SUBSCRIBE or TOPIC_LIST carries its tag and the fields of the JSON object after it |
| PeerMessage.FromBytes | project/autobahn/autobahn_python/message.py:23-37 | dispatch on the first byte; an empty buffer or another byte raises ValueError |
| PeerMessage.FromText | project/autobahn/autobahn_python/message.py:24-25 | a `str` is UTF-8 encoded first: empty or not starting with `p`, `s`, `t` raises ValueError |
| PeerMessage.PublishRoundTrip | project/autobahn/autobahn_python/message.py:47-63 | `from_bytes(to_bytes(m)) == m` for a topic of at most 255 bytes and an id in u32 |
| PeerMessage.JsonRoundTrip | project/autobahn/autobahn_python/message.py:88-97 | SUBSCRIBE and TOPIC_LIST round-trip whenever the JSON codec does |
| PeerMessage.SameKind | project/autobahn/autobahn_python/message.py:30-35 | decoding an encoding, when it succeeds, gives a message of the same class |
| PeerMessage.JsonBodyErrors | project/autobahn/autobahn_python/message.py:74-75 | a non-object body raises TypeError and a missing key raises KeyError |
| PeerMessage.PublishTruncated | project/autobahn/autobahn_python/message.py:51 | a PUBLISH buffer that ends inside the id raises struct.error |
| AStar.Cmp | backend/rust/pathfinding/src/astar.rs:16-20 | a node ranks higher exactly when its f is smaller, or f ties and its g is smaller |
| AStar.CmpTotalPreorder | backend/rust/pathfinding/src/astar.rs:16-26 | the heap order is antisymmetric and transitive |
| AStar.Heuristic | backend/rust/pathfinding/src/astar.rs:29-33 | the Manhattan distance, computed without unsigned underflow; zero exactly when a = b |
| AStar.HeuristicSymmetric | backend/rust/pathfinding/src/astar.rs:29-33 | the heuristic is symmetric |
| AStar.HeuristicTriangle | backend/rust/pathfinding/src/astar.rs:29-33 | the heuristic satisfies the triangle inequality |
| AStar.Neighbors | backend/rust/pathfinding/src/astar.rs:77 | the neighbours are exactly the open cells one axis step away |
| AStar.PathLowerBound | backend/rust/pathfinding/src/astar.rs:29-33 | a walk from a to b has at least Manhattan(a, b) + 1 cells |
| AStar.ScoreImproves | backend/rust/pathfinding/src/astar.rs:78-82 | scoring a cell for the first time, or lowering its score, decreases the loop's measure |
| AStar.Best | backend/rust/pathfinding/src/astar.rs:53-57 | the popped node is one that no other node outranks |
| AStar.PopKeeps | backend/rust/pathfinding/src/astar.rs:53-57 | removing the popped node keeps the search invariant |
| AStar.RelaxChain | backend/rust/pathfinding/src/astar.rs:80-82 | relaxing an edge keeps every predecessor adjacent and strictly lower-scored |
| AStar.RelaxHeap | backend/rust/pathfinding/src/astar.rs:84-88 | after a push every heap node's g is at least its cell's score |
| AStar.Relax | backend/rust/pathfinding/src/astar.rs:77-90 | one relaxation keeps the invariant and improves the measure |
| AStar.Expand | backend/rust/pathfinding/src/astar.rs:77-90 | the neighbour loop keeps the invariant and either changes nothing or improves some score |
| AStar.Step | backend/rust/pathfinding/src/astar.rs:53-90 | at the goal the rebuilt path is a walk from start to goal; a stale node is skipped; otherwise the invariant holds and the loop progresses |
| AStar.Search | backend/rust/pathfinding/src/astar.rs:35-93 | out-of-bounds or impassable endpoints give `[]`; start = goal gives `[start]`; any other result is a 4-connected walk from start to goal of at least Manhattan + 1 cells |
| AStar.Explore | backend/rust/pathfinding/src/astar.rs:42-92 | the main loop terminates and returns a walk from start to goal or `[]` |
| AStar.Reconstruct | backend/rust/pathfinding/src/astar.rs:59-68 | following `came_from` back from the goal gives a walk from the start to the goal |
| AStar.UnreachableIsEmpty | backend/rust/pathfinding/src/astar.rs:92 | an unreachable goal gives the empty path |
| Deployment.NormalizeLowerCase | backend/deployment/process_type_util.py:83 | a normalised name has no upper-case letter |
| Deployment.StripTrims | backend/deployment/process_type_util.py:83 | what `strip` returns neither starts nor ends with whitespace |
| Deployment.NormalizeDropsLocal | backend/deployment/process_type_util.py:84-85 | a clean name followed by ".local" normalises to the name |
| Deployment.NormalizeDropsLocalDot | backend/deployment/process_type_util.py:83-85 | ... and so it does with a trailing dot after ".local" |
| Deployment.NormalizeExamplesLocal | backend/deployment/process_type_util.py:77-80 | "pi1.local" and "pi1.local." normalise to "pi1" |
| Deployment.NormalizeExamplesUpper | backend/deployment/process_type_util.py:77-83 | "PI1" normalises to "pi1" and a missing name to "" |
| Deployment.NormalizeKeepsCanonical | backend/deployment/process_type_util.py:73-86 | a name that is already normal is returned unchanged |
| Deployment.NormalizePiName | backend/deployment/process_type_util.py:73-86 | normalising never lengthens the name; its meaning is stated by the lemmas above and below (no upper case, one `.local` dropped, canonical names kept) |
| Deployment.NormalizeNotIdempotent | backend/deployment/process_type_util.py:84-85 | only one ".local" is dropped, so normalising twice can differ from once |
| Deployment.SortDesc | backend/deployment/process_type_util.py:134 | the sort keeps the multiset and orders by descending weight |
| Deployment.Lightest | backend/deployment/process_type_util.py:136 | the chosen Pi is `MinKey`, the Pi with the least (total weight, name) of all Pis |
| Deployment.MinKey | backend/deployment/process_type_util.py:136 | the reference choice is one of the Pis |
| Deployment.Keys | backend/deployment/process_type_util.py:104-107 | the dictionary keys are exactly the normalised names, each once |
| Deployment.TakeCopies | backend/deployment/process_type_util.py:119-125 | up to `max(0, count)` copies are removed, as many as are present, none is lost, and what remains is exactly `Take`: the list with its first `removed` copies deleted, in order |
| Deployment.TakeMore | backend/deployment/process_type_util.py:119-125 | removing one more copy after `k` is `list.remove` applied to the result of `k` removals |
| Deployment.Take | backend/deployment/process_type_util.py:119-125 | the reference for the `list.remove` loop: the result is no longer than the list and at most n entries shorter; `TakeCopies` and `TakeMore` state which entries go |
| Deployment.ApplyConstraint | backend/deployment/process_type_util.py:113-131 | an absent Pi is skipped; the removed copies go on that Pi's list and their weight onto its total |
| Deployment.ConstraintKeepsTotals | backend/deployment/process_type_util.py:130-131 | each Pi's total stays the sum of the weights of its list |
| Deployment.ConstraintKeepsProcesses | backend/deployment/process_type_util.py:119-130 | a constraint moves processes from `remaining` to the mapping without loss or gain |
| Deployment.ConstraintStep | backend/deployment/process_type_util.py:113-131 | one constraint, with its Pi name normalised, has exactly `Constrain`'s effect and keeps the totals and the multiset of processes |
| Deployment.ApplyConstraints | backend/deployment/process_type_util.py:113-131 | the constraints loop keeps the totals and the multiset of processes, and its result is exactly `ConstrainAll`, the constraints applied one by one in order |
| Deployment.ConstrainIs | backend/deployment/process_type_util.py:113-131 | one constraint's effect is exactly `Constrain`: nothing for an unknown Pi or a non-positive count, otherwise `min(count, copies)` copies moved onto that Pi with their weight |
| Deployment.Constrain | backend/deployment/process_type_util.py:113-131 | the reference for one constraint keeps the Pis of both dictionaries; `ConstrainIs`, `ConstraintKeepsTotals` and `ConstraintKeepsProcesses` state its effect |
| Deployment.ConstrainAll | backend/deployment/process_type_util.py:113-131 | the reference for the constraints loop keeps the Pis; `ApplyConstraints` ties the loop to it |
| Deployment.PlaceLightest | backend/deployment/process_type_util.py:136-138 | each process goes onto the Pi with least (weight, name) and its weight onto that total, which is one `PlaceOne` step |
| Deployment.GreedyKeepsTotals | backend/deployment/process_type_util.py:137-138 | a greedy step keeps every total equal to its list's weight |
| Deployment.PlaceOne | backend/deployment/process_type_util.py:136-138 | one greedy step keeps exactly the same Pis |
| Deployment.GreedyStep | backend/deployment/process_type_util.py:135-138 | the pass over `sorted[i..]` is one `PlaceOne` step for `sorted[i]`, then the pass over `sorted[i + 1..]` |
| Deployment.Greedy | backend/deployment/process_type_util.py:135-138 | the reference greedy pass keeps the Pis of both dictionaries; `GreedyKeeps` and `GreedyPools` state the totals and the placed processes |
| Deployment.GreedyAddsOne | backend/deployment/process_type_util.py:137 | one greedy step adds exactly its process to the mapping |
| Deployment.GreedyKeeps | backend/deployment/process_type_util.py:135-138 | the greedy placement keeps each Pi's total equal to its processes' weights |
| Deployment.GreedyPools | backend/deployment/process_type_util.py:135-138 | the greedy placement keeps the Pis and adds exactly the sorted processes |
| Deployment.PackGreedy | backend/deployment/process_type_util.py:135-138 | the greedy loop's result is exactly `Greedy`: each process, heaviest first, goes to the Pi with the least (total, name); the totals stay consistent and every sorted process is placed |
| Deployment.AssignWeighted | backend/deployment/process_type_util.py:89-140 | the result is exactly `Assignment`: constraints first, then the remaining processes sorted heaviest first, each onto the least (total, name) Pi; no Pis gives `{}`; otherwise the keys are the normalised names and the lists together hold exactly the input processes |
| Deployment.Assignment | backend/deployment/process_type_util.py:89-140 | the reference assignment's keys are exactly the normalised Pi names; `AssignWeighted` ties the method to it |
| Deployment.ProcessPlan.constructor | backend/deployment/process_type_util.py:40-41 | a new plan has no processes and no constraints |
| Deployment.ProcessPlan.Add | backend/deployment/process_type_util.py:43-47 | count ≤ 0 changes nothing; otherwise count copies are appended |
| Deployment.ProcessPlan.Pin | backend/deployment/process_type_util.py:49-65 | count ≤ 0 changes nothing; otherwise count copies and one constraint are appended |
| Deployment.ProcessPlan.Assign | backend/deployment/process_type_util.py:67-70 | the plan's processes are assigned, each exactly once, by the placement rule `Assignment` |
| Watchdog.PrepForValidation | watchdog/routes/set_config.py:8-10 | the output is no longer than the input and holds only alphanumerics and `+/=` |
| Watchdog.PrepIsSubsequence | watchdog/routes/set_config.py:9 | the output is a subsequence of the input |
| Watchdog.PrepCounts | watchdog/routes/set_config.py:9 | each allowed character is kept as often as it occurs, and nothing else is kept |
| Watchdog.PrepKeepsAllowed | watchdog/routes/set_config.py:9 | a string of allowed characters is returned unchanged |
| Watchdog.PrepIdempotent | watchdog/routes/set_config.py:8-10 | filtering twice is filtering once |
| Watchdog.Names | watchdog/routes/setters.py:66-67 | the names are the strings of the list, in order |
| Watchdog.SetConfigRejects | watchdog/routes/set_config.py:15-33 | a non-object body or a missing or non-string `config_base64` gives 400 and writes nothing |
| Watchdog.SetConfigWrites | watchdog/routes/set_config.py:35-63 | with a config path, the filtered string is written first; 200 and a reload exactly when a monitor exists |
| Watchdog.SetConfig | watchdog/routes/set_config.py:14-63 | always a reply; something is written only for an object body with a config path; 200 only with a monitor, after the write and the reload; `SetConfigRejects` and `SetConfigWrites` give the exact cases |
| Watchdog.SetConfigHandlersAgree | watchdog/routes/setters.py:10-33 | the two `/set/config` handlers agree once a config path is set; without one neither writes |
| Watchdog.SetConfigRoute | watchdog/routes/setters.py:9-33 | a raise happens for an object body only and writes nothing; something is written only with a config path; 200 only with a monitor, after the write and the reload |
| Watchdog.Each | watchdog/routes/setters.py:66-67 | one start or stop call per name, in order |
| Watchdog.Strings | watchdog/routes/setters.py:108 | the comprehension keeps at most the list's elements |
| Watchdog.StringsAll | watchdog/routes/setters.py:108-113 | the length comparison holds exactly when every element is a string, and the names are then the list's own |
| Watchdog.StartAndSetProcesses | watchdog/routes/setters.py:36-69 | `/start/process` and `/set/processes` act only on a list of strings with a configured monitor, then hand over the names in order |
| Watchdog.StartProcessRoute | watchdog/routes/setters.py:36-69 | always a reply; processes are started only with a monitor and then the reply is 200; `StartAndSetProcesses` gives the exact cases |
| Watchdog.SetProcessesRoute | watchdog/routes/setters.py:125-157 | always a reply, 200 exactly when the one `set_processes` call is made |
| Watchdog.StopAllRoute | watchdog/routes/setters.py:72-82 | 200 exactly with a monitor, and then exactly one abort of all processes; 500 and no effect without one |
| Watchdog.StopProcessValidation | watchdog/routes/setters.py:85-122 | `/stop/process` gives 400 exactly when `process_types` is not a list of strings; otherwise it stops each name in order |
| Watchdog.StopProcessRoute | watchdog/routes/setters.py:85-122 | a raise comes only without a monitor and before any stop; any stop comes with a 200 reply; `StopProcessValidation` gives the exact cases |
| NumpyMath.Eye | src/blitz/common/util/math.py:47 | `np.eye(n)` is n×n with ones on the diagonal and zeros elsewhere |
| NumpyMath.ChunkEntry | src/blitz/common/util/math.py:104 | entry (i, j) of the reshaped list is entry i·cols + j |
| NumpyMath.FlattenChunk | src/blitz/common/util/math.py:104 | reshaping loses nothing: flattening gives the list back |
| NumpyMath.FromFloatList | src/blitz/common/util/math.py:101-104 | ValueError for an empty list or a length other than rows·cols; otherwise a rows×cols matrix |
| NumpyMath.FromFloatListEntries | src/blitz/common/util/math.py:101-104 | a successful result has entry (i, j) = flat[i·cols + j] and flattens back to the list |
| NumpyMath.CreateTransformationMatrix | src/blitz/common/util/math.py:42-50 | the result is 4×4 |
| NumpyMath.TransformationLayout | src/blitz/common/util/math.py:42-50 | R is in the top-left 3×3, t in column 3 of rows 0-2, and the bottom row is [0, 0, 0, 1] |
| NumpyMath.GetTranslationRotation | src/blitz/common/util/math.py:16-21 | column 3 of rows 0-2 and the top-left 3×3 block; IndexError without a column 3 |
| NumpyMath.TransformationRoundTrip | src/blitz/common/util/math.py:16-21 | taking a transformation matrix apart gives back its rotation and translation |
| NumpyMath.TransformationRebuild | src/blitz/common/util/math.py:16-21 | a 4×4 matrix with bottom row [0, 0, 0, 1] is rebuilt from its parts |
| NumpyMath.SwapRotationComponents | src/blitz/common/util/math.py:89-98 | ValueError exactly when the two blocks differ in shape |
| NumpyMath.SwapEntries | src/blitz/common/util/math.py:89-98 | shapes are kept, the top-left k×k blocks trade places and every other entry stays |
| NumpyMath.SwapTwice | src/blitz/common/util/math.py:89-98 | swapping twice gives both matrices back |
| NumpyMath.Indices | src/blitz/common/util/math.py:152 | the indices are the positions of the True flags, increasing, one per True flag |
| NumpyMath.IndicesComplete | src/blitz/common/util/math.py:152 | every True flag's index is listed |
| NumpyMath.TransformMatrixToSize | src/blitz/common/util/math.py:148-153 | exactly the flagged rows, in order; IndexError for a flag past the last row |
| NumpyMath.TransformMatrixAllTrue | src/blitz/common/util/math.py:148-153 | all-True flags, one per row, return the whole matrix |
| NumpyMath.SelectAppend | src/blitz/common/util/math.py:160 | selection works block by block |
| NumpyMath.TransformVectorToSize | src/blitz/common/util/math.py:156-160 | `zip` truncates to the shorter argument; the length is the number of True flags among the paired ones |
| NumpyMath.SelectAtIndices | src/blitz/common/util/math.py:156-160 | the kept entries are exactly those at the flagged indices, in order |
| NumpyMath.VectorMatchesMatrix | src/blitz/common/util/math.py:148-160 | the vector selection keeps the entries at the rows the matrix selection keeps |
| ConfigMath.CreateTransformationMatrix3D | src/config/util/math.ts:7-36 | 4×4 with the transposed rotation top-left, the translation in column 3 and bottom row [0, 0, 0, 1] |
| ConfigMath.TransformationMatchesNumpy | src/config/util/math.ts:7-36 | the TypeScript builder equals numpy's `create_transformation_matrix` of the transposed rotation |
| ConfigMath.BuildMatrix | src/config/util/math.ts:43-49 | the array is kept, rows = its length, cols = the first row's length; an empty array throws |
| ConfigMath.BuildMatrixShape | src/config/util/math.ts:43-49 | for a rectangular array the recorded dimensions are its true shape |
| ConfigMath.BuildMatrixFromDiagonal | src/config/util/math.ts:51-61 | square, as many rows as d has entries, with d[i] at (i, i) and 0 elsewhere |
| ConfigMath.DiagonalRoundTrip | src/config/util/math.ts:51-61 | the diagonal of the built matrix is d, and a diagonal of ones builds the identity |
| ConfigMath.FromArray | src/config/util/math.ts:70-75 | the vector keeps the array and its size is the array's length |
| KalmanPreparers.StateOf | src/blitz/pos_extrapolator/position_extrapolator.py:83-86 | the filter state has six entries |
| KalmanPreparers.Pairs | src/blitz/pos_extrapolator/preparers/ImuDataPreparer.py:34-37 | the used indices are three equal pairs |
| KalmanPreparers.MeasureIsSelection | src/blitz/pos_extrapolator/preparers/ImuDataPreparer.py:50-60 | the appended pairs are the flagged entries of the reading's state, in state order |
| KalmanPreparers.ImuUsedIndices | src/blitz/pos_extrapolator/preparers/ImuDataPreparer.py:33-38 | [pos, pos, vel, vel, rot, rot] from that sensor's config; KeyError for an unknown sensor |
| KalmanPreparers.ImuPrepareInput | src/blitz/pos_extrapolator/preparers/ImuDataPreparer.py:46-68 | KeyError exactly for an unknown sensor; otherwise the given sensor id and type IMU |
| KalmanPreparers.ImuInputMatchesHx | src/blitz/pos_extrapolator/preparers/ImuDataPreparer.py:43-60 | the input is `hx` of the reading's state; its length and `hx`'s equal the number of True flags |
| KalmanPreparers.OdomUsedIndices | src/blitz/pos_extrapolator/preparers/OdomDataPreparer.py:33-38 | [pos, pos, True, True, rot, rot] |
| KalmanPreparers.OdomPrepareInput | src/blitz/pos_extrapolator/preparers/OdomDataPreparer.py:46-67 | the given sensor id, type ODOMETRY, and the used indices above |
| KalmanPreparers.OdomInputMatchesHx | src/blitz/pos_extrapolator/preparers/OdomDataPreparer.py:33-59 | the input is `hx` of the reading's state and has 2 + 2·[position] + 2·[rotation] entries |
| KalmanPreparers.Hx | src/blitz/pos_extrapolator/preparers/ImuDataPreparer.py:43-44 | on a full state, `hx` has one entry per True flag; `ImuInputMatchesHx` and `OdomInputMatchesHx` tie it to the prepared input |
| KalmanPreparers.JacobianH | src/blitz/pos_extrapolator/preparers/ImuDataPreparer.py:40-41 | with at most six flags, `jacobian_h` succeeds with one row per True flag; `JacobianRows` gives the rows |
| KalmanPreparers.JacobianRows | src/blitz/pos_extrapolator/preparers/ImuDataPreparer.py:40-41 | `jacobian_h` has one row per used index, row k being the identity row of the k-th used index |
| DataPrep.Prepare | src/blitz/pos_extrapolator/data_prep.py:59-63 | without a stored config the preparer fails; otherwise the result carries the sensor id and the preparer's sensor type |
| DataPrep.PrepareWithOwnConfig | src/blitz/pos_extrapolator/data_prep.py:59-63 | with its own config a preparer fails exactly on an unknown IMU sensor, with KeyError |
| DataPrep.DataPreparerManager.constructor | src/blitz/pos_extrapolator/data_prep.py:35-37 | the registry holds the two preparers the decorators register and no config |
| DataPrep.DataPreparerManager.Register | src/blitz/pos_extrapolator/data_prep.py:39-47 | the class is recorded under the type name and returned unchanged; a config is stored only when given |
| DataPrep.DataPreparerManager.SetConfig | src/blitz/pos_extrapolator/data_prep.py:49-51 | the config for the type name is overwritten and the registry is untouched |
| DataPrep.DataPreparerManager.PrepareData | src/blitz/pos_extrapolator/data_prep.py:53-63 | ValueError for an unregistered type name; otherwise the registered preparer's result with the stored config |
| PositionExtrapolator.IsRotationGotten | src/blitz/pos_extrapolator/position_extrapolator.py:61-73 | APRIL_TAG gives False, ODOMETRY the odometry flag, IMU that sensor's flag or KeyError |
| PositionExtrapolator.RobotPosition | src/blitz/pos_extrapolator/position_extrapolator.py:78-89 | state entries 0, 1 are the position and 4, 5 the direction; IndexError below six entries |
| PositionExtrapolator.RobotPositionOfReading | src/blitz/pos_extrapolator/position_extrapolator.py:83-86 | a reading's state gives back its position and direction |
| PositionExtrapolator.Extrapolator.constructor | src/blitz/pos_extrapolator/position_extrapolator.py:39-41 | the flag starts True exactly when `tag_use_imu_rotation` is NEVER |
| PositionExtrapolator.Extrapolator.InsertSensorData | src/blitz/pos_extrapolator/position_extrapolator.py:43-59 | None returns early with nothing changed; otherwise the input goes to the filter once, and the flag only goes from False to True |
| StructUtil.MapFromEntries | src/config/config/util/struct.ts:9 | the Map's keys are exactly the entries' keys |
| StructUtil.MapFromEntriesLookup | src/config/config/util/struct.ts:9 | a key not repeated later maps to its entry's value |
| StructUtil.FromRecord | src/config/config/util/struct.ts:5-11 | the Map holds exactly the record's own entries |
| StructUtil.LogLevelFromEnum | src/config/config/util/struct.ts:20-35 | the four levels map to 0..3, to their own number, and anything else throws |
| StructUtil.LogLevelInjective | src/config/config/util/struct.ts:20-35 | the log-level mapping is injective |
| StructUtil.SensorTypeFromEnum | src/config/config/util/struct.ts:43-56 | APRIL_TAG's number gives 0 and only it does, IMU's gives ODOM's and ODOM's gives IMU's (0, 2, 1), and anything else throws |
| StructUtil.SensorTypeMapping | src/config/config/util/struct.ts:43-56 | the sensor mapping is injective, fixes only APRIL_TAG and is its own inverse |
| StructUtil.CameraTypeFromEnum | src/config/config/util/struct.ts:62-71 | OV2311 gives 0 and anything else throws |
| DebugLogger.LevelOrder | src/blitz/common/debug/logger.py:16-28 | `<=` is a total order with DEBUG least and ERROR greatest, and `<` is its strict part |
| DebugLogger.Gates | src/blitz/common/debug/logger.py:72-99 | `error` logs always, `debug` only at DEBUG, `message`/`info`/`success` at DEBUG or INFO, `warning` except at ERROR |
| DebugLogger.GatesMonotone | src/blitz/common/debug/logger.py:72-99 | raising the threshold never makes a call log that did not |
| DebugLogger.Logger.constructor | src/blitz/common/debug/logger.py:31-34 | the globals start empty, at DEBUG, without Autobahn |
| DebugLogger.Logger.InitLogging | src/blitz/common/debug/logger.py:37-64 | instance, prefix and level are set; with Autobahn and no topic, ValueError; with a topic, it becomes the publish topic |
| DebugLogger.Logger.SetLogLevel | src/blitz/common/debug/logger.py:67-69 | only the threshold changes |
| DebugLogger.Logger.Log | src/blitz/common/debug/logger.py:72-124 | `RuntimeError` exactly when the gate passes with Autobahn set and no running event loop, and then nothing is printed or published; otherwise, when the gate passes, the line is printed and, with Autobahn, published on the stats topic; when it does not, nothing happens |
| Frustum.NewFrustum | project/rust/lidar_3d/src/timed_point_map.rs:30-59 | `Frustum::new` builds exactly four planes |
| Frustum.PlaneAt | project/rust/lidar_3d/src/timed_point_map.rs:33-51 | plane i is NaN exactly when edges i and i + 1 are parallel |
| Frustum.Contains | project/rust/lidar_3d/src/timed_point_map.rs:61-65 | the Rust `contains` accepts a point only when every plane is real |
| Frustum.IsPointInside | project/hybrid-frustum-pointnet/lidar/src/util/frustum.h:50-57 | the C++ `isPointInside` accepts every point when every plane is NaN |
| Frustum.OffsetDistance | project/rust/lidar_3d/src/timed_point_map.rs:18-20 | the signed distance from a plane through the origin is the normal's dot product with the offset |
| Frustum.CrossOrthogonal | project/rust/lidar_3d/src/timed_point_map.rs:42 | the normal is orthogonal to both edges, also when flipped |
| Frustum.PlaneAtFacts | project/rust/lidar_3d/src/timed_point_map.rs:33-51 | plane i passes through the origin and corners i and i + 1, and corner i + 2 is on its inner side |
| Frustum.NewFrustumFacts | project/rust/lidar_3d/src/timed_point_map.rs:30-65 | when no two neighbouring edges are parallel, every plane is a real plane, the frustum contains its apex, and each plane holds its two corners with the next corner inside |
| Frustum.DegenerateRejectsAll | project/rust/lidar_3d/src/timed_point_map.rs:11-65 | when two neighbouring edges are parallel, normalising the zero cross product gives a NaN plane and the frustum contains no point |
| Frustum.InsideTestsAgree | project/hybrid-frustum-pointnet/lidar/src/util/frustum.h:50-57 | on real planes, the C++ `isPointInside` (no plane has the point strictly above) accepts exactly what the Rust `contains` accepts |
| Frustum.InsideSkipsDegenerate | project/hybrid-frustum-pointnet/lidar/src/util/frustum.h:24-57 | the C++ test accepts a point exactly when every plane of non-parallel neighbouring edges has it on its inner side; NaN planes reject nothing |
| Frustum.CollapsedFrustum | project/hybrid-frustum-pointnet/lidar/src/util/frustum.h:24-57 | with all four corners on the apex, the C++ frustum accepts every point and the Rust one none |
| Frustum.ScaledPlane | project/rust/lidar_3d/src/timed_point_map.rs:11-16 | normalising a real plane (a positive rescaling) keeps the sign of every signed distance |
| SphericalMap.FreshMembers | project/hybrid-frustum-pointnet/lidar/src/util/spherical_map.h:46-54 | cleaning keeps exactly the points with now − ts ≤ the existence time |
| SphericalMap.Fresh | project/hybrid-frustum-pointnet/lidar/src/util/spherical_map.h:46-54 | the points cleaning keeps are no more than before and none is older than the existence time |
| SphericalMap.FreshAppend | project/hybrid-frustum-pointnet/lidar/src/util/spherical_map.h:46-54 | cleaning works piece by piece, so kept points stay in order |
| SphericalMap.FreshIdempotent | project/hybrid-frustum-pointnet/lidar/src/util/spherical_map.h:46-54 | cleaning twice at the same time is cleaning once |
| SphericalMap.InFrustumMembers | project/hybrid-frustum-pointnet/lidar/src/util/spherical_map.h:29-40 | the query keeps exactly the stored points that the C++ `isPointInside` accepts |
| SphericalMap.InFrustum | project/hybrid-frustum-pointnet/lidar/src/util/spherical_map.h:29-40 | the query returns no more points than are stored, each accepted by `isPointInside` |
| SphericalMap.SphericalMap.constructor | project/hybrid-frustum-pointnet/lidar/src/util/spherical_map.h:14-17 | a new map is empty with last cleaning time 0 |
| SphericalMap.SphericalMap.CleanOldPoints | project/hybrid-frustum-pointnet/lidar/src/util/spherical_map.h:46-54 | the points too old are erased, the rest kept in order |
| SphericalMap.SphericalMap.AddPoint | project/hybrid-frustum-pointnet/lidar/src/util/spherical_map.h:19-27 | the point is appended; past the interval the store is cleaned at its time, leaving only points within the existence time, and the clean time moves |
| SphericalMap.SphericalMap.QueryPointsInFrustum | project/hybrid-frustum-pointnet/lidar/src/util/spherical_map.h:29-40 | the loop returns, in order, the stored points that the C++ `isPointInside` accepts |
| TimedPointMap.Recent | project/rust/lidar_3d/src/timed_point_map.rs:97-99 | the kept clouds are no later than now |
| TimedPointMap.ElapsedClockKeepsAll | project/rust/lidar_3d/src/timed_point_map.rs:83-99 | with the clock as written every stamp and every reading is 0 ms, so cleaning keeps every cloud |
| TimedPointMap.RecentMembers | project/rust/lidar_3d/src/timed_point_map.rs:96-100 | `retain` keeps exactly the clouds with now − timestamp < the interval |
| TimedPointMap.AllPointsMembers | project/rust/lidar_3d/src/timed_point_map.rs:105 | `flat_map` yields exactly the points of the stored clouds |
| TimedPointMap.FilterMembers | project/rust/lidar_3d/src/timed_point_map.rs:106 | `filter` keeps exactly the points the frustum contains |
| TimedPointMap.TimedPointMap.constructor | project/rust/lidar_3d/src/timed_point_map.rs:80-86 | no clouds, the clock reading as last cleaning time |
| TimedPointMap.TimedPointMap.CleanOldPoints | project/rust/lidar_3d/src/timed_point_map.rs:96-100 | only clouds younger than the interval remain, in order |
| TimedPointMap.TimedPointMap.AddAll | project/rust/lidar_3d/src/timed_point_map.rs:88-94 | stale clouds are dropped, then the new cloud is appended stamped now |
| TimedPointMap.TimedPointMap.QueryMembers | project/rust/lidar_3d/src/timed_point_map.rs:102-109 | a point is returned exactly when a stored cloud holds it and the frustum contains it |
| TimedPointMap.TimedPointMap.QueryPointsFrustum | project/rust/lidar_3d/src/timed_point_map.rs:102-109 | every returned point is contained in the frustum; `QueryMembers` gives membership both ways |
| PlayingMap.Resolve | project/common/map/playing_map.py:47 | Python indexing: an index lands in the list exactly when −n ≤ idx < n, negative ones counted from the end |
| PlayingMap.PositionIndexInRange | project/common/map/playing_map.py:41-42 | `x * map_width + y` is inside the map for x below the height and y below the width |
| PlayingMap.PositionIndexInjective | project/common/map/playing_map.py:41-42 | distinct cells with y below the width get distinct indices |
| PlayingMap.WideMapObjectMisses | project/common/map/playing_map.py:41-47 | on a map 3 wide and 2 high, a 1 by 2 object at (2, 0) reaches index 7 of the 6 cells and does not fit |
| PlayingMap.PaintRowMeaning | project/common/map/playing_map.py:46-47 | one column's loop succeeds exactly when every index lands, and then writes the value at exactly the covered cells |
| PlayingMap.PaintRowsMeaning | project/common/map/playing_map.py:45-47 | the nested loops succeed exactly when every index lands, and then write exactly the covered cells |
| PlayingMap.PaintObjectMeaning | project/common/map/playing_map.py:44-47 | `paint_object` fails with IndexError exactly when some cell misses the list; otherwise covered cells get `type.value` and others stay |
| PlayingMap.PlayingMap.constructor | project/common/map/playing_map.py:14-18 | both object maps start empty |
| PlayingMap.PlayingMap.AddStaticObject | project/common/map/playing_map.py:20-24 | the object is stored under the random id in [0, 1000000], overwriting, and the id is returned |
| PlayingMap.PlayingMap.AddDynamicObject | project/common/map/playing_map.py:26-30 | the same for the dynamic map |
| PlayingMap.PlayingMap.RemoveDynamicObject | project/common/map/playing_map.py:32-33 | KeyError exactly for an absent id; otherwise the entry is gone |
| PlayingMap.PlayingMap.UpdateDynamicObject | project/common/map/playing_map.py:35-36 | the entry for the id is set |
| PlayingMap.PlayingMap.UpdateStaticObject | project/common/map/playing_map.py:38-39 | the entry for the id is set |
| PlayingMap.PlayingMap.PaintObject | project/common/map/playing_map.py:44-47 | the in-place nested loops write what the painting function describes, failing with IndexError at the first missed index |
| PlayingMap.PlayingMap.PaintEach | project/common/map/playing_map.py:54-58 | painting a set of objects succeeds exactly when all fit; a covered cell then holds the value, others keep theirs |
| PlayingMap.PlayingMap.PaintMap | project/common/map/playing_map.py:49-60 | width·height cells; succeeds exactly when every object fits; a cell covered by a dynamic object is OBJECT (2), else WALL (1) if a static one covers it, else the EMPTY member |

## Left out

- The tokio tasks, `Mutex` locks and awaits of the broker, the websocket accept and split, and the peer reconnect loop with its sleep. Each frame's effect is applied sequentially, so lock interleavings are not modelled. The `block_on` inside `retain` is not an interleaving: it panics whenever it is called (see Findings), and the model gives that panic its effect.
- The broker's `Writer` is a send handle with an id and a sink. The websocket sink behind it, and `send_to_topic`, are not part of this model.
- `HashMap` / `HashSet` / `std::map` iteration order: the fan-out and collection loops take the order as an output (`order`) that is any permutation of the keys. The C++ client's callbacks are called in an unspecified order.
- Broker.Broker.Receive: a SUBSCRIBE or UNSUBSCRIBE that a peer forwards as the broker's own empty frame (see Findings) parses to None (flags.rs:15-17), so the receiving broker cleans up and ends that connection's task. The model gives such a frame exactly `Close`'s effect.
- LidarClient.ParseFrame: the C++ `parse_message` reads its two length bytes with two unsequenced `*it++` in one expression; the model uses the intended high-byte-first order. Buffers shorter than 3 + topic length are undefined behaviour there, so the function requires Readable buffers.
- The `Flags` enum of the C++ client comes from a header that is not part of this model. Its values are taken to be 1, 2 and 3, the broker's.
- Client and transport code (the protobuf C++ client, the asyncio Python client and listener, Flask and zmq front ends) is not modelled.
- `grid.rs` is not part of this model. The grid is a width, a height and a passability predicate, with `neighbors` taken to be the four axis neighbours that are in bounds and passable, in a fixed order.
- AStar.Search: the model proves that a result is a 4-connected walk from start to goal and at least Manhattan + 1 long. Neither optimality nor completeness is proved: that A* returns a shortest path (the source's own claim) is not shown, and neither is that a goal reachable from the start gives a non-empty path. Search's contract allows `[]` for any start and goal that differ; `AStar.UnreachableIsEmpty` is only the contrapositive of soundness.
- AStar.Best: `BinaryHeap` tie-breaking among nodes of equal (f, g), and its memory layout, are not modelled. Any node that nothing outranks may be popped.
- Floating-point numerics are reals: Kalman filters, trigonometry and matrix inversion are out. `Frustum.ScaledPlane` shows that normalising a non-zero normal does not change which points a plane accepts, so the model keeps unnormalised normals. A zero cross product normalises to NaN components in the Rust source; the model writes that plane as `NaNPlane`, and every comparison with it is false. The Rust `contains` asks `<= 0.0` of each plane, so a NaN plane accepts no point; the C++ `isPointInside` rejects only on `> 0`, so a NaN plane rejects no point (`Frustum.IsPointInside`, `Frustum.CollapsedFrustum`). How the C++ vector type normalises a zero vector is not part of this model; a zero or a NaN normal both reject nothing there.
- Deployment: the returned dictionary's key order (the order of the Pis) is not modelled, because the result is a `map`; its keys and each Pi's list are. `str.lower()` is modelled on ASCII only. `get_weight` is a function parameter. Weights are reals, not IEEE doubles.
- Watchdog: `str.isalnum()` is modelled on ASCII only. The file write, `refresh_config`, the process monitor's calls and Flask's reply objects are recorded as effects and status codes. `start_process.py` and `stop_process.py` repeat the validation in `setters.py` and are not modelled separately.
- PeerMessage: `json.dumps` and `json.loads` are an opaque codec given as a parameter; the round trip for SUBSCRIBE and TOPIC_LIST assumes the codec round-trips.
- NumpyMath: broadcasting, dtype conversion and arrays with no rows are not modelled. The float-trigonometry helpers in `math.py` and `math.ts` are out.
- ConfigMath.CreateTransformationMatrix3D: rotations with fewer than three rows or columns, and translations with fewer than three values, read `undefined` in TypeScript; the function requires full inputs.
- KalmanPreparers: the AprilTag preparer (pose maths) is not modelled. `hx` and `jacobian_h` are represented by the flags they close over.
- DataPrep.DataPreparerManager.PrepareData: the registry and configs are class-level dictionaries shared by every manager; the model keeps one manager object that holds them. The instantiated preparer is one of the two modelled classes.
- PositionExtrapolator.Extrapolator.InsertSensorData: the `ExtrapolationContext` class and the `context=` keyword that `insert_sensor_data` passes are not part of this model, and the shown `prepare_data` does not accept that keyword. The prepared input is therefore a parameter. The "any other sensor type gives True" branch cannot occur with the three modelled sensor types.
- The filter strategy behind the extrapolator is abstract: the inputs handed to it are recorded in order.
- DebugLogger.Logger.Log: `colorama`, `print` and `asyncio.create_task` are modelled as appends to the printed and published sequences. Whether an event loop is running is the parameter `loopRunning`; without one `create_task` raises `RuntimeError` before anything is printed. The Autobahn client is represented only by whether one is set. The `stats` coroutine is not modelled.
- SphericalMap: the private `isPointInsideFrustum` helper (not called by the modelled operations) is not modelled. The C++ `Frustum` builds the same planes as `Frustum.NewFrustum`; its inside test is `Frustum.IsPointInside`, which agrees with the Rust `Frustum.Contains` on real planes and accepts every point where the Rust test accepts none on a degenerate plane.
- TimedPointMap: the class takes the parameter `now` as the intended running clock in milliseconds (see Findings for the clock as written). The u128 subtraction overflows when a stored timestamp is after `now`: it panics in debug builds and wraps in release builds. The cleaning operations therefore require timestamps up to `now`, and neither overflow behaviour is modelled.
- PlayingMap: `object.py` and `position.py` are not part of this model; an object is its position, width and height. `random.randint` is the `id` parameter. `PositionIndexInRange` and `PositionIndexInjective` take x as the row and y as the column; `paint_object` runs x over an object's width, and under that reading an object inside a map that is not square can miss the list (`PlayingMap.WideMapObjectMisses`) or share cells, which `PaintMap`'s contract states as written. `paint_map` iterates over the dictionaries in insertion order; the model paints each set of values in any order. The result does not depend on it, because every object in a set writes the same value.

## Findings

| source | as written | input that shows it | evidently intended | confidence | as-written member | corrected member |
|---|---|---|---|---|---|---|
| project/autobahn/autobahn-rust/src/flags.rs:45-47 | `build_message` returns empty bytes for SUBSCRIBE and UNSUBSCRIBE, so the frames the broker forwards to peers (main.rs:154-167) carry no topic and cannot be parsed | `Msg::SUBSCRIBE("t")` | the documented layout `[flag][length][topic]` (flags.rs:10-11), which `parse_message` reads back as the same message | not executed | Flags.BuildControlIsUnparseable | Flags.BuildFrameRoundTrip |
| project/rust/lidar_3d/src/timed_point_map.rs:83-99 | every timestamp and every clock reading is `Instant::now().elapsed().as_millis()`, the time elapsed since an instant taken just before, so it is 0 ms each time and `clean_old_points` never drops a cloud | any interval > 0 with any sequence of `add_all` calls | the milliseconds of one running clock, so that clouds older than the interval are dropped | not executed | TimedPointMap.ElapsedClockKeepsAll | TimedPointMap.TimedPointMap.CleanOldPoints |
| project/autobahn/autobahn-rust/src/main.rs:191-197 | the UNSUBSCRIBE `retain` predicate calls `tokio::runtime::Handle::current().block_on` inside the connection's task, which runs on the tokio runtime, so it panics the first time it is called: the task ends without `cleanup_subscriptions`, and the client's writer stays in every list it joined | a client not at a peer IP sends SUBSCRIBE "t", then UNSUBSCRIBE "t" | the client's entries are dropped from the topic's list and the connection stays open | not executed | Broker.UnsubscribeLeavesWriter | Broker.UnsubscribeThenPublish |
