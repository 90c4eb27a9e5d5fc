# KCF in Dafny

This project models the hard core of KCF, a Linux process and IPC framework, and proves what its
protocols and codecs promise. Sockets, clocks, shared memory, threads and child processes appear as
explicit steps, or as choices that nothing constrains; every other decision the code takes is
written out.

| file | what it is about |
|---|---|
| `SharedChannel`, `ChannelRuns`, `ChannelReads`, `ChannelPublish` | the lock-free KEEP_LAST topic channel: three slots per group, one publisher, pinning readers, memory copied byte by byte |
| `Wire`, `NetworkTypes`, `IdentityCodec` | big-endian numbers, identities, and the rows they are written in |
| `TypeDescriptors`, `ValueLayout`, `ValueCodec`, `ValueMeaning`, `TypeSchema` | descriptor validation, the layout-independent value codec and the numbers it carries, the schema codec |
| `ControlFrames`, `ControlLayout`, `FrameStreams` | control frames, their bytes, and the two incremental stream readers |
| `EndpointMetadata`, `PeerTable`, `PeerDiscovery`, `MetadataTransfer`, `PeerHistory`, `PeerPresence` | the endpoint list codec, the peer table, chunked metadata transfer over a network that loses, repeats, delays and reorders, what a receiver has believed of each host, and when it counts as present |
| `ReplayWindow`, `RequestBatches`, `GatewayLink`, `GatewaySessions`, `GatewayDelivery` | replay filtering, batches and futures, connections between gateways, the request table working on such a link, and where every request goes |
| `TopicRoutes`, `TopicHistory` | topic data routes and the rate scheduler, and what runs of them send, accept and publish |
| `ActionServer`, `ActionGoals`, `Supervisor`, `NetworkLifecycle` | the goal machine with its concurrent status publisher, the Bringup supervisor, the gateway's network lifecycle |
| `ServiceCalls` | at-most-once local service calls |

A protocol is a datatype of states with functions for its steps, an invariant, one lemma per step,
and a theorem about every run. Objects that the source updates in place are classes whose methods
are proved against those functions; `RequestBatches.RequestTable` and `Supervisor.Bringup` carry
the run they have made so far, so that the theorems about runs apply to every sequence of calls.

Four findings are worth knowing before reading the table.

- A repeated announcement can bring a LOST peer back. `PeerHistory.RepeatedRevivesIff` gives the
  exact condition in terms of what was taken into the host's present entry: the announced incarnation
  is unknown to this entry, because it was refused or taken into an entry that has been evicted since;
  or it was displaced so long ago that the list of eight has forgotten it; or it is the current one
  and the announcement continues the last one taken. `PeerTable.RefusedReplayRevives`,
  `PeerTable.EvictedReplayRevives` and `PeerTable.OldReplayRevives` are runs of the first two kinds.
  As long as at most eight incarnations were displaced from the present entry, no announcement that
  was taken into it revives the host (`PeerHistory.TakenReplayIsHarmless`).
  `PeerTable.ForgottenHostIsTaken` covers hosts without an entry.
- The publisher's slot search cannot fail when at most one slot of the group is in use
  (`ChannelPublish.OnePinNeverBlocks`). This is about pins that stay where they are during the
  search.
- An action server may put a goal id to the application more than once. After the last decision
  about it, this happens if and only if no goal is active and, since then, two goals were accepted if
  the decision was yes, or one decision was made if it was no (`ActionServer.AskedAgainIff`).
- A late interest can begin an older topic route again. While a pair is served in one session its
  route is the one with the largest number asked for (`TopicHistory.NewestIsServed`); but an
  interest whose reader does not open takes the served route away first, and what was asked for is
  then forgotten (`TopicHistory.OlderMayReturn`).

## Model

| member | source | states |
|---|---|---|
| `SharedChannel.OnlyRetainedInGroup` | kcf/include/kcf/ipc/shared_channel.hpp:156-165 | in the slot group of the next publication the only sequence still retained is the one `depth` before it |
| `SharedChannel.PublisherStep` | kcf/include/kcf/ipc/shared_channel.hpp:142-184 | every atomic step of a publication, each copied byte included, keeps the channel invariant |
| `SharedChannel.PinnedIsStable` | kcf/include/kcf/ipc/detail/storage_access.hpp:60-76 | a slot that a reader has pinned is not the publisher's to write |
| `SharedChannel.PinStep` | kcf/include/kcf/ipc/detail/storage_access.hpp:65-71 | pinning a slot keeps users, contents and every reader's account right |
| `SharedChannel.OpenStep` | kcf/include/kcf/ipc/shared_channel.hpp:129-132 | opening a subscriber, at the latest sequence or `depth` before it, keeps the channel's invariant |
| `SharedChannel.StepKeepsInv` | kcf/include/kcf/ipc/shared_channel.hpp:142-215 | every step of the publisher and of every reader keeps the invariant |
| `ChannelRuns.FreshHolds` | kcf/include/kcf/ipc/shared_channel.hpp:68-70 | freshly created storage satisfies the invariant |
| `ChannelRuns.RunKeepsInv` | kcf/include/kcf/ipc/shared_channel.hpp:142-215 | the invariant holds at every point of every interleaving |
| `ChannelRuns.RetainedIsWhole` | kcf/include/kcf/ipc/shared_channel.hpp:153-178 | a committed sequence of the last `depth` is complete in exactly one slot of its group, also in the middle of a write and after failed publications |
| `ChannelRuns.PinnedIsNeverWritten` | kcf/include/kcf/ipc/shared_channel.hpp:159-177 | no publisher step changes a slot that a reader has pinned |
| `ChannelRuns.PinnedKeepsContent` | kcf/include/kcf/ipc/shared_channel.hpp:142-215 | no step of publisher or readers changes number, version or bytes of a pinned slot |
| `ChannelRuns.ReaderAccount` | kcf/include/kcf/ipc/shared_channel.hpp:192-215 | delivered plus missed equals the cursor's advance since Open; deliveries ascend and are the committed values; every miss has left the retained window |
| `ChannelRuns.CursorMovesOnlyOnDelivery` | kcf/include/kcf/ipc/shared_channel.hpp:203-215 | a failed read leaves the cursor; a delivery moves it forward to its own number |
| `ChannelRuns.ChannelIsSafe` | kcf/include/kcf/ipc/shared_channel.hpp:142-215 | in every run with any number of readers: retained sequences are whole in exactly one slot, every reader's account is fair, and no step changes the content of a pinned slot |
| `ChannelReads.SnapshotIsLatest` | kcf/include/kcf/ipc/shared_channel.hpp:192-201 | in every run what ReadLatest delivers is the value committed under the number that was the latest when it began |
| `ChannelReads.DeliveryIsNext` | kcf/include/kcf/ipc/shared_channel.hpp:203-215 | in every run what ReadNext delivers is the value of the number after the cursor, or of the oldest retained one when it began, and the miss count is the difference |
| `ChannelReads.ReadsAloneSucceed` | kcf/include/kcf/ipc/shared_channel.hpp:282-293 | alone on a channel that is not being written, both reads deliver at once: the last committed value, and the next one |
| `ChannelPublish.OnePinNeverBlocks` | kcf/include/kcf/ipc/shared_channel.hpp:158-166 | with at most one slot of the group in use, the slot search finds a slot |
| `ChannelPublish.PublishIsARun` | kcf/include/kcf/ipc/shared_channel.hpp:142-184 | a call that is not interrupted is a run of the interleaving machine; it commits exactly its value or changes nothing |
| `ChannelPublish.WrittenKeepsInv` | kcf/src/network/topic_proxy.cpp:137-152 | the slots that a successful call leaves, of the proxy as of the channel, satisfy the channel's invariant |
| `ChannelPublish.ChannelStorage.constructor` | kcf/include/kcf/ipc/shared_channel.hpp:68-70 | fresh storage has free slots and nothing published |
| `ChannelPublish.ChannelStorage.ClaimSlot` | kcf/include/kcf/ipc/shared_channel.hpp:158-165 | the search claims the first free slot that does not hold the retained sequence, and restores the others |
| `ChannelPublish.ChannelStorage.PublishImpl` | kcf/include/kcf/ipc/shared_channel.hpp:142-184 | the exact result code and new slots for every error of lock, overflow, search and broadcast |
| `ChannelPublish.ChannelStorage.ProxyPublish` | kcf/src/network/topic_proxy.cpp:137-152 | the depth-1 proxy: exact result codes, and on success the slots that the channel would have written |
| `ChannelPublish.ChannelStorage.WriteSlot` | kcf/include/kcf/ipc/shared_channel.hpp:173-178 | the copy loop leaves the whole value, its number, a version two higher, and commits |
| `Wire.TakeOfPut` | kcf/src/network/control_frame.cpp:7-18 | a row of big-endian numbers is read back, whatever follows it |
| `Wire.PutOfTake` | kcf/src/network/control_frame.cpp:7-18 | a row that was read is written back to the same bytes |
| `IdentityCodec.RuntimeBack` | kcf/src/network/control_frame.cpp:10-17 | a runtime identity with a non-negative pid is read back |
| `IdentityCodec.RuntimeForth` | kcf/src/network/control_frame.cpp:10-17 | an accepted runtime identity is written back to the same bytes |
| `TypeDescriptors.ValidateTypeDescriptor` | kcf/src/type_registry.cpp:9-29 | the nested loops accept exactly the descriptors with a valid header, valid fields, unique names and disjoint fields |
| `TypeDescriptors.CoveredSize` | kcf/src/type_registry.cpp:20-27 | pairwise disjoint fields cover as many bytes as their sizes add up to |
| `TypeDescriptors.FieldsFitPayload` | kcf/src/type_registry.cpp:15-27 | whatever set of fields the overlap check accepts has a total size of at most the payload |
| `ValueCodec.WireTypeFailsOnlyOnZeroHash` | kcf/src/network/parameter_codec.cpp:6-17 | for a valid descriptor within the wire limit the size error cannot occur: only a zero hash is refused |
| `ValueCodec.LayoutOk` | kcf/src/type_registry.cpp:15-27 | all elements of a valid descriptor lie in the payload, apart from each other |
| `ValueCodec.SameWireType` | kcf/src/network/parameter_codec.cpp:6-17 | two layouts of the same elements have the same wire identity |
| `ValueCodec.DecodedEncodesBack` | kcf/src/network/parameter_codec.cpp:56-85 | a value accepted from the wire encodes back to the same bytes |
| `ValueCodec.LayoutIndependence` | kcf/src/network/parameter_codec.cpp:56-85 | a value encoded under one layout and byte order and decoded under another has the same bytes in every element, zero padding, and encodes again to the same wire bytes |
| `ValueCodec.RefusalAgrees` | kcf/src/network/parameter_codec.cpp:65-80 | sender and receiver refuse the same booleans, whatever their layouts |
| `ValueCodec.EncodeParameterValue` | kcf/src/network/parameter_codec.cpp:56-70 | the loop writes the elements in field order, most significant byte first, or returns the right error |
| `ValueCodec.DecodeParameterValue` | kcf/src/network/parameter_codec.cpp:71-85 | the loop scatters the wire bytes into a zeroed payload, or returns the right error |
| `ValueMeaning.WireIsBigEndian` | kcf/src/network/parameter_codec.cpp:56-70 | every element of an encoded payload stands on the wire, at its offset in field order without gaps, as the number it is in its machine's byte order, most significant byte first |
| `ValueMeaning.DecodedIsTheWire` | kcf/src/network/parameter_codec.cpp:71-85 | every element of a decoded payload is, in the machine's byte order, the number at its place on the wire |
| `ValueMeaning.NumbersSurvive` | kcf/src/network/parameter_codec.cpp:56-85 | a number sent from one machine is the same number on another, whatever layouts and byte orders |
| `ValueMeaning.EncodeIs` | kcf/src/network/parameter_codec.cpp:56-70 | exactly when encoding succeeds, and with which error it fails: another type or size, or a boolean other than 0 and 1 |
| `ValueMeaning.DecodeIs` | kcf/src/network/parameter_codec.cpp:71-85 | exactly when decoding succeeds, and with which error it fails |
| `ValueLayout.GatherOfScatter` | kcf/src/network/parameter_codec.cpp:61-83 | writing into separate cells and reading them back loses nothing |
| `ValueLayout.EncodeCells` | kcf/src/network/parameter_codec.cpp:61-69 | element loop with its early exit on a bad boolean |
| `ValueLayout.DecodeCells` | kcf/src/network/parameter_codec.cpp:74-84 | element loop with its early exit on a bad boolean |
| `TypeSchema.PackedIsSameType` | kcf/src/network/parameter_codec.cpp:44-52 | the packed descriptor is valid, has the same elements and the same wire identity |
| `TypeSchema.SchemaAlwaysFits` | kcf/src/network/parameter_codec.cpp:26-35 | the schema of every encodable type fits: at most 13221 of 16384 bytes |
| `TypeSchema.SchemaRoundTrip` | kcf/src/network/parameter_codec.cpp:26-55 | the schema of a native descriptor decodes, under its wire identity, to the packed descriptor |
| `TypeSchema.AcceptedSchemaIsCanonical` | kcf/src/network/parameter_codec.cpp:36-55 | every accepted schema is the encoding of what it decodes to, and that is packed |
| `TypeSchema.PeerExchangesValues` | kcf/src/network/parameter_codec.cpp:26-85 | a peer that knows a type only from its schema gets every element value of the native owner, and sends the same bytes back |
| `TypeSchema.EncodeTypeDescriptor` | kcf/src/network/parameter_codec.cpp:26-35 | the encoder computes the specified schema and errors |
| `TypeSchema.WriteSchema` | kcf/src/network/parameter_codec.cpp:29-32 | the field loop writes the specified bytes |
| `TypeSchema.DecodeTypeDescriptor` | kcf/src/network/parameter_codec.cpp:36-55 | the decoder computes the specified descriptor and error codes |
| `TypeSchema.ReadBody` | kcf/src/network/parameter_codec.cpp:44-51 | the field loop with cumulative offsets and its size limit |
| `ControlFrames.ValidIsWritable` | kcf/src/network/control_frame.cpp:19-76 | in a valid frame every field that is not written has its default, and every written one fits its width |
| `ControlFrames.ControlFrameSize` | kcf/src/network/control_frame.cpp:78-88 | an announced length is between 172 and the frame limit |
| `ControlFrames.DecodeOfEncode` | kcf/src/network/control_frame.cpp:89-123 | every valid frame of every operation comes back exactly, in at most 16916 bytes |
| `ControlFrames.EncodeOfDecode` | kcf/src/network/control_frame.cpp:89-123 | every accepted byte string is the encoding of the valid frame it decodes to |
| `ControlLayout.FrameIsLaidOut` | kcf/src/network/control_frame.cpp:89-105 | offset, width and value of every field of every written frame, and the name and payload behind them |
| `ControlLayout.AcceptedIsLaidOut` | kcf/src/network/control_frame.cpp:106-123 | whatever is accepted has the values it decodes to at those offsets |
| `FrameStreams.ParseInSteps` | kcf/src/network/control_node.cpp:407-423 | parsing a stream in two steps is parsing it at once; an error stays |
| `FrameStreams.RestIsShort` | kcf/src/network/control_node.cpp:414-421 | what is left after the loop is shorter than the largest frame, so the size check never fires |
| `FrameStreams.ParseOfSent` | kcf/src/network/control_frame.cpp:78-123 | a concatenation of encoded frames parses to those frames with nothing left |
| `FrameStreams.FeedIsParse` | kcf/src/network/control_node.cpp:407-423 | parsing piece by piece, wherever the cuts are, gives the frames, the error and the rest of the whole stream |
| `FrameStreams.AnyChunking` | kcf/src/network/control_node.cpp:407-423 | encoded frames come out of the pieces one by one, each parsed with what was left before it, however the bytes are cut |
| `FrameStreams.ThenNoFrame` | kcf/src/network/control_node.cpp:414-420 | behind the frames sent, bytes that are no frame end the reading with their error, and the beginning of a frame waits |
| `FrameStreams.ReadPieces` | kcf/src/network/control_node.cpp:407-423 | the node's reader, fed any pieces, delivers what parsing piece by piece gives |
| `FrameStreams.ReadArriving` | kcf/src/network/control_client_io.hpp:81-104 | the client's reader, while pieces arrive, collects the same |
| `FrameStreams.FramesSurviveChunking` | kcf/src/network/control_frame.cpp:89-123 | any valid control frames, encoded in a row and cut anywhere, are recovered in order with nothing left |
| `FrameStreams.ConnectionInput.Read` | kcf/src/network/control_node.cpp:407-423 | after any number of reads the delivered frames are the frames of the whole stream; reading goes on exactly as long as it parses |
| `FrameStreams.ConnectionInput.TakeFrames` | kcf/src/network/control_node.cpp:414-420 | the inner loop takes exactly the complete frames |
| `FrameStreams.FrameReader.Read` | kcf/src/network/control_client_io.hpp:81-104 | the outcome is what the unread stream says about its first frame; nothing is lost and nothing beyond that frame is taken |
| `FrameStreams.ReadAvailable` | kcf/src/network/control_client_io.hpp:81-104 | repeated reads collect the frames of the stream in order |
| `FrameStreams.ValidFramesAreEncoded` | kcf/src/network/control_frame.cpp:89-123 | the control frame codec meets what the stream results ask of a codec |
| `EndpointMetadata.MetadataBack` | kcf/src/network/discovery_protocol.cpp:122-150 | a valid endpoint is read back, whatever follows it |
| `EndpointMetadata.MetadataForth` | kcf/src/network/discovery_protocol.cpp:141-150 | an accepted endpoint is valid and is written back to the same bytes |
| `EndpointMetadata.EncodeListIs` | kcf/src/network/discovery_protocol.cpp:117-133 | the encoder accepts exactly the lists of valid endpoints within the count and size limits |
| `EndpointMetadata.DecodeOfEncode` | kcf/src/network/discovery_protocol.cpp:117-155 | an encoded list decodes to itself |
| `EndpointMetadata.EncodeOfDecode` | kcf/src/network/discovery_protocol.cpp:117-155 | an accepted byte string is the encoding of the list it decodes to |
| `EndpointMetadata.EncodeDiscoveryMetadata` | kcf/src/network/discovery_protocol.cpp:117-133 | the loop returns the specified bytes or its first error |
| `EndpointMetadata.ValidDiscoveryMetadata` | kcf/src/network/discovery_protocol.cpp:108-116 | the nested loops accept exactly the lists one incarnation may publish, with distinct identities |
| `PeerTable.AnnouncedOk` | kcf/src/network/peer_discovery.cpp:110-134 | an announcement leaves a sound entry of the announced incarnation, or changes nothing; a new host is always taken |
| `PeerTable.AnnounceKeeps` | kcf/src/network/peer_discovery.cpp:98-134 | one entry per host, never more than `max_peers`, every entry sound |
| `PeerTable.RespondKeeps` | kcf/src/network/peer_discovery.cpp:138-161 | metadata responses keep the table sound |
| `PeerTable.TickKeeps` | kcf/src/network/peer_discovery.cpp:83-93 | a peer becomes LOST only after the timeout, and then holds no metadata |
| `PeerTable.RecentIsKept` | kcf/src/network/peer_discovery.cpp:99-121 | an incarnation heard within the timeout is neither displaced nor evicted |
| `PeerTable.TakenIsTold` | kcf/src/network/peer_discovery.cpp:113-133 | an entry is what the announcements taken into it say: the last of them, and the last eight incarnations they displaced |
| `PeerTable.RevivesIff` | kcf/src/network/peer_discovery.cpp:113-133 | a lost peer is brought back exactly by an incarnation neither current nor among the last eight displaced, or by a later consistent announcement of the current one |
| `PeerTable.TakenIff` | kcf/src/network/peer_discovery.cpp:110-126 | live or lost: an announcement is taken exactly if it is one to take after the others and, within the timeout, is of the same incarnation and address |
| `PeerTable.RefreshIff` | kcf/src/network/peer_discovery.cpp:127-133 | the list is fetched again exactly if the entry was lost, or incarnation, address or revision is another |
| `PeerTable.TakenNeverRevives` | kcf/src/network/peer_discovery.cpp:113-133 | with at most eight displaced incarnations nothing that was taken into an entry may be taken into it again |
| `PeerTable.OldReplayRevives` | kcf/src/network/peer_discovery.cpp:113-133 | after ten sessions and a timeout, a repeated announcement of the first session revives the host |
| `PeerTable.RefusedReplayRevives` | kcf/src/network/peer_discovery.cpp:113-133 | an announcement refused while another session was alive revives the host when it comes again after the timeout |
| `PeerTable.EvictedReplayRevives` | kcf/src/network/peer_discovery.cpp:98-134 | a run of a table with one seat: an announcement taken before its entry was evicted revives the host after a single change of session |
| `PeerTable.ForgottenHostIsTaken` | kcf/src/network/peer_discovery.cpp:100-109 | any valid announcement of a host without an entry is taken when there is room |
| `PeerDiscovery.Peers.FindPeer` | kcf/src/network/peer_discovery.cpp:99-99 | the search returns the host's entry |
| `PeerDiscovery.Peers.OldestLost` | kcf/src/network/peer_discovery.cpp:102-105 | the loop finds the first of the lost entries heard longest ago |
| `PeerDiscovery.Peers.BeginMetadataAt` | kcf/src/network/peer_discovery.cpp:70-74 | metadata is dropped and gets a new request id, or the counter is exhausted |
| `PeerDiscovery.Peers.AnnounceTo` | kcf/src/network/peer_discovery.cpp:110-134 | the in-place update leaves the entry of the specification, whose time, address and presence `PeerPresence.PresenceIsLastHeard` ties to the announcements taken |
| `PeerDiscovery.Peers.NewPeer` | kcf/src/network/peer_discovery.cpp:100-109 | room is made by forgetting the oldest lost peer, or there is none |
| `PeerDiscovery.Peers.Announce` | kcf/src/network/peer_discovery.cpp:98-134 | one announcement is one step of the table, and keeps it valid |
| `PeerDiscovery.Peers.ReceiveResponse` | kcf/src/network/peer_discovery.cpp:135-162 | a metadata response is one step of the table, and keeps it valid |
| `PeerDiscovery.Peers.RespondTo` | kcf/src/network/peer_discovery.cpp:141-161 | staging grows, completes, or starts again |
| `PeerDiscovery.Peers.Tick` | kcf/src/network/peer_discovery.cpp:83-93 | the loop treats every entry, and keeps the table valid |
| `PeerDiscovery.Publisher.constructor` | kcf/src/network/peer_discovery.cpp:237-243 | a started session has published its first list as revision 1 |
| `PeerDiscovery.Publisher.UpdateMetadata` | kcf/src/network/peer_discovery.cpp:269-280 | exactly when it succeeds; success publishes at most one new revision and never loses the new base list, failure changes nothing |
| `PeerDiscovery.Publisher.RegisterConsumer` | kcf/src/network/peer_discovery.cpp:281-291 | exactly when it succeeds; the consumer is then published under the next revision; failure changes nothing |
| `PeerDiscovery.Publisher.UnregisterConsumer` | kcf/src/network/peer_discovery.cpp:292-299 | exactly when it succeeds; the first such consumer leaves and the rest is published under the next revision; failure changes nothing |
| `PeerDiscovery.Publisher.MakeAnnouncement` | kcf/src/network/peer_discovery.cpp:76-80 | what is announced describes the list of the current revision |
| `PeerDiscovery.Publisher.Answer` | kcf/src/network/peer_discovery.cpp:142-149 | what is answered is an aligned piece of the current list's bytes |
| `MetadataTransfer.AnnouncementIsTruthful` | kcf/src/network/peer_discovery.cpp:76-80 | an announcement as the publishing object makes it is one the transfer theorem admits |
| `MetadataTransfer.AnswerIsTruthful` | kcf/src/network/peer_discovery.cpp:142-149 | so is an answer |
| `MetadataTransfer.PublishKeeps` | kcf/src/network/peer_discovery.cpp:269-299 | publishing a new revision makes nothing untrue that was sent or stored before |
| `MetadataTransfer.AnnounceTrue` | kcf/src/network/peer_discovery.cpp:98-134 | after any truthful announcement every entry still describes a published list |
| `MetadataTransfer.RespondAtTrue` | kcf/src/network/peer_discovery.cpp:150-160 | the expected piece extends the prefix, or completes the list; decoding then cannot fail |
| `MetadataTransfer.NextKeeps` | kcf/src/network/peer_discovery.cpp:70-161 | every step of owners, network and receiver keeps the invariant |
| `MetadataTransfer.TransferIsExact` | kcf/src/network/peer_discovery.cpp:70-161 | in every run a ready entry holds exactly the list its owner published under that revision in that session, and an unready one a chunk-aligned proper prefix of its bytes |
| `PeerHistory.StepNews` | kcf/src/network/peer_discovery.cpp:83-161 | a step changes what announcements decide about a host only by taking one, or by making its entry |
| `PeerHistory.HistoryTells` | kcf/src/network/peer_discovery.cpp:98-134 | in every run each entry is what the announcements taken into it say, and each of them was one to take after those before |
| `PeerHistory.IncarnationAscends` | kcf/src/network/peer_discovery.cpp:122-132 | in every run, while an entry keeps its incarnation, sequence and revision do not go back, and each announcement taken made the sequence strictly larger |
| `PeerHistory.ReplayRevivesIff` | kcf/src/network/peer_discovery.cpp:110-134 | in every run an announcement of a lost host brings it back if and only if the history of taken ones says so |
| `PeerHistory.RepeatedRevivesIff` | kcf/src/network/peer_discovery.cpp:110-134 | in every run: exactly which of the announcements already heard bring their lost host back when repeated; one that the entry does not know was refused, or the host had no entry at some time since |
| `PeerHistory.TakenReplayIsHarmless` | kcf/src/network/peer_discovery.cpp:110-134 | in every run: with at most eight incarnations displaced from the present entry, no repetition of an announcement taken into it brings the host back |
| `PeerPresence.PresenceIsLastHeard` | kcf/src/network/peer_discovery.cpp:83-134 | in every run an entry's time and address are those of the last announcement taken into it, and it is lost exactly if a tick since then found it silent for the timeout |
| `PeerPresence.LostAfterTickIff` | kcf/src/network/peer_discovery.cpp:83-87 | in every run: after a tick a host is lost if and only if no announcement was taken within the timeout before it |
| `PeerPresence.HeartbeatTakenIff` | kcf/src/network/peer_discovery.cpp:110-134 | in every run, for a live or lost host: exactly which announcements are taken; a taken one makes the host present, heard now and from there, any other leaves the entry as it was |
| `PeerPresence.RefetchIff` | kcf/src/network/peer_discovery.cpp:70-133 | in every run: exactly which taken announcements restart the fetch of the endpoint list, under a new request id; otherwise the fetch stays as it was |
| `PeerPresence.FetchAdvances` | kcf/src/network/peer_discovery.cpp:150-160 | in every run: an expected answer extends the staged bytes by its piece, or makes the entry ready; any other answer changes nothing |
| `PeerPresence.FetchCompletes` | kcf/src/network/peer_discovery.cpp:150-160 | in every run: a fetch that gets the pieces it asks for is ready after as many pieces of 1024 bytes as the list takes, and not before |
| `ReplayWindow.Window.constructor` | kcf/src/network/control_node.cpp:95-96 | an empty window stands for no admitted id |
| `ReplayWindow.Window.Admit` | kcf/src/network/control_node.cpp:95-102 | the 256 bits decide like the full set: admitted iff never admitted and less than 256 below the largest |
| `ReplayWindow.ShiftRefines` | kcf/src/network/control_node.cpp:98-98 | shifting the bits keeps them standing for the same ids |
| `ReplayWindow.NeverTwice` | kcf/src/network/control_node.cpp:95-102 | in any order of arrivals no id is admitted twice |
| `ReplayWindow.FirstArrival` | kcf/src/network/control_node.cpp:373-385 | an id that arrives for the first time is refused iff an id at least 256 larger was admitted before |
| `RequestBatches.FinishKeeps` | kcf/src/network/control_node.cpp:173-187 | finishing one request answers one slot, counts down, and completes the future with the last |
| `RequestBatches.AdmitHeadKeeps` | kcf/src/network/control_node.cpp:212-246 | admission keeps one slot per selected endpoint, the counts, at most 256 pending, and ascending ids and goals |
| `RequestBatches.TransmitKeeps` | kcf/src/network/control_node.cpp:481-491 | sending the first unsent request of a host keeps ids and goals ascending on the wire |
| `RequestBatches.SubmitKeeps` | kcf/src/network/control_node.cpp:801-805 | a submission is queued untouched, or completed at once with its error |
| `RequestBatches.PromiseIsExact` | kcf/src/network/control_node.cpp:173-187 | a future is completed at most once, exactly when its batch is neither queued nor has a request pending, and then with one answer per selected endpoint or an error; `left` is the number of pending entries |
| `RequestBatches.FuturesAreExact` | kcf/src/network/control_node.cpp:209-247 | in every run of any number of submitters with the IO thread: the same at every moment, and after the end of the IO thread every submission is completed exactly once |
| `RequestBatches.ResultsStay` | kcf/src/network/control_node.cpp:173-187 | in every run a completed future keeps its results and an answer is never replaced |
| `RequestBatches.AnswersAreTheirs` | kcf/src/network/control_node.cpp:173-187 | in every run each answered slot was filled by ending the request of exactly that batch and index, and holds the error, or the success, that it ended with |
| `RequestBatches.RefusalsAreTheirs` | kcf/src/network/control_node.cpp:209-228 | in every run a batch completed with an error was refused with it, for the reason that the error names |
| `RequestBatches.SentAscends` | kcf/src/network/control_node.cpp:481-491 | in every run request ids to a host ascend, and so do goals |
| `RequestBatches.RequestTable.constructor` | kcf/src/network/control_node.cpp:92-104 | an empty table is valid |
| `RequestBatches.RequestTable.Submit` | kcf/src/network/control_node.cpp:790-806 | the new batch is queued, or completed at once with EINVAL, ENOTCONN or EAGAIN |
| `RequestBatches.RequestTable.FinishAt` | kcf/src/network/control_node.cpp:173-187 | the entry leaves, its own slot gets exactly this answer, and the last answer completes the future |
| `RequestBatches.RequestTable.Admit` | kcf/src/network/control_node.cpp:209-247 | takes over all submissions and admits them in order, each with the endpoints selected for it |
| `RequestBatches.RequestTable.AdmitFirst` | kcf/src/network/control_node.cpp:216-245 | one batch: its error, or one slot and one pending request per selected endpoint |
| `RequestBatches.RequestTable.PushRequests` | kcf/src/network/control_node.cpp:230-245 | the loop numbers requests and goals consecutively |
| `RequestBatches.RequestTable.Expire` | kcf/src/network/control_node.cpp:472-478 | the reverse loop ends every request that has a verdict, whose slot then holds that verdict; exactly the others remain, in order |
| `RequestBatches.RequestTable.Drop` | kcf/src/network/control_node.cpp:197-197 | exactly what was sent on the dropped connection ends, each with ECONNRESET in its slot |
| `RequestBatches.RequestTable.Respond` | kcf/src/network/control_node.cpp:398-405 | a response ends the request of its id that was sent on its connection, with its status or, past the deadline, with ETIMEDOUT, and no other; a mismatch is refused, and without such a request it is ignored |
| `RequestBatches.RemainingIs` | kcf/src/network/control_node.cpp:472-478 | a request remains exactly if it was pending and has no verdict |
| `RequestBatches.RequestTable.SendPass` | kcf/src/network/control_node.cpp:481-491 | what the pass makes of every request: sent on its ready connection in order, ended with EAGAIN in its slot, or left; and exactly what goes on the wire |
| `RequestBatches.RequestTable.Shutdown` | kcf/src/network/control_node.cpp:511-517 | with others submitting throughout: every pending request ends with ECANCELED in its slot, every queued submission with ECANCELED, and every future is completed exactly once with its results |
| `GatewayLink.SenderHelloKeeps` | kcf/src/network/control_node.cpp:314-328 | the sending gateway's handshake keeps at most one named connection |
| `GatewayLink.ReceiverHelloKeeps` | kcf/src/network/control_node.cpp:314-328 | the receiving gateway's handshake keeps at most one named connection |
| `GatewayLink.ReadIsNew` | kcf/src/network/control_node.cpp:386-393 | a request that is read is above the receiver's high-water marks for requests and goals |
| `GatewayLink.ReceiverNeverRepeats` | kcf/src/network/control_node.cpp:386-396 | whatever arrives, the receiver alone makes no two jobs of one request id or of one goal |
| `GatewayLink.ReceiverIsSafe` | kcf/src/network/control_node.cpp:386-396 | so over every run in which the other side and the network do anything at all |
| `GatewayLink.ReceiverAskKeeps` | kcf/src/network/control_node.cpp:386-396 | admission keeps jobs ascending in ids and goals, also when the job queue is full; what becomes a job is the matter of `GatewayDelivery.JobsAreTaken` |
| `GatewayLink.ActKeeps` | kcf/src/network/control_node.cpp:314-446 | every connect, drop, greeting, send and read keeps the invariant |
| `GatewayLink.LinkIsExact` | kcf/src/network/control_node.cpp:314-446 | in every run: at most one named connection per gateway, no request and no goal becomes two jobs, none is mistaken for a replay |
| `GatewaySessions.TransmitIsNext` | kcf/src/network/control_node.cpp:481-491 | what the request table transmits to a host has the next id and goal that the link may send |
| `GatewaySessions.SessionIsExact` | kcf/src/network/control_node.cpp:209-491 | in every run of request table and link: the receiver's jobs are requests the table transmitted, each once, in the order of ids and goals, none mistaken for a replay |
| `GatewayDelivery.JobsAreTaken` | kcf/src/network/control_node.cpp:386-396 | in every run the jobs are exactly the requests read on greeted connections while the job queue had room, in that order |
| `GatewayDelivery.ConnectionsDeliver` | kcf/src/network/control_node.cpp:386-430 | in every run, on every connection: the requests sent are those that became jobs, then at most one that was read without room, then those under way, in order; none is lost while the receiver keeps the connection |
| `GatewayDelivery.SentIsSomewhere` | kcf/src/network/control_node.cpp:386-430 | in every run a request that was sent is a job, is under way, or was read on a connection that the receiver dropped for it |
| `GatewayDelivery.TransmittedIsSomewhere` | kcf/src/network/control_node.cpp:209-491 | the same for every request that the table put on the wire to the host, in every run of table and link |
| `GatewayDelivery.HandshakeCompletes` | kcf/src/network/control_node.cpp:314-328 | a handshake that nothing disturbs leaves both ends ready |
| `GatewayDelivery.RequestArrives` | kcf/src/network/control_node.cpp:386-396 | on a ready connection a request that is sent and read is the next job |
| `TopicRoutes.TakeBalances` | kcf/src/network/topic_data_plane.cpp:213-224 | received plus missed equals the last accepted sequence; a packet that is not accepted changes one error counter |
| `TopicRoutes.DeliverBalances` | kcf/src/network/topic_data_plane.cpp:240-248 | published plus dropped plus waiting equals received |
| `TopicRoutes.AttemptBalances` | kcf/src/network/topic_data_plane.cpp:257-282 | sent plus dropped equals the sequence; sample numbers ascend and skipped samples are counted exactly; a fresh start sends nothing at or below the baseline |
| `TopicRoutes.ServedSlot` | kcf/src/network/topic_data_plane.cpp:263-264 | the served deadline is the last one on the grid before the attempt |
| `TopicRoutes.NextDeadline` | kcf/src/network/topic_data_plane.cpp:265-268 | the next deadline is on the grid, after the end of the attempt and at most one period later |
| `TopicRoutes.LaterAttempt` | kcf/src/network/topic_data_plane.cpp:257-268 | an attempt keeps the phase, whatever its delay |
| `TopicRoutes.InPhase` | kcf/src/network/topic_data_plane.cpp:257-268 | all deadlines of a route are congruent to its first one modulo the period |
| `TopicRoutes.OneAttemptPerSlot` | kcf/src/network/topic_data_plane.cpp:257-268 | at most one attempt falls in each period slot: no catch-up burst |
| `TopicRoutes.PathIsSound` | kcf/src/network/topic_data_plane.cpp:208-282 | end to end over a lossy, repeating, reordering network: accepted packets ascend, locally published ones were sent, ascend, appear once, and the counters balance at both ends, with the number of packets on the network and published |
| `TopicRoutes.DataPlane.Data` | kcf/src/network/topic_data_plane.cpp:213-224 | a packet changes the first route it belongs to, or counts as stale |
| `TopicRoutes.DataPlane.DeliverAll` | kcf/src/network/topic_data_plane.cpp:240-248 | the loop hands over every waiting packet once |
| `TopicRoutes.DataPlane.Transmit` | kcf/src/network/topic_data_plane.cpp:257-282 | the loop makes one attempt per route, at its own topic's period, and keeps the balances |
| `TopicRoutes.DataPlane.Interest` | kcf/src/network/topic_data_plane.cpp:187-212 | a known interest keeps its route; a newer one for a served pair replaces the route and archives its counts; an older one of the session is stale; never two routes for a pair |
| `TopicRoutes.ReplacementConserves` | kcf/src/network/topic_data_plane.cpp:192-200 | replacing a route moves its counts to the archive and loses none |
| `TopicHistory.SendsIff` | kcf/src/network/topic_data_plane.cpp:257-282 | in every run: a due attempt sends its sample if and only if it is newer than all numbered before and than a fresh start's baseline, numbers are left and the socket takes it; the packet carries the next number and the sample as read |
| `TopicHistory.SentAreSamples` | kcf/src/network/topic_data_plane.cpp:269-282 | in every run every packet on the network is a local sample read in one attempt, under that attempt's number |
| `TopicHistory.AcceptedIff` | kcf/src/network/topic_data_plane.cpp:213-224 | in every run a packet is accepted if and only if it passes the gate, decodes, and is newer in both numbers than everything accepted before |
| `TopicHistory.PublishedIff` | kcf/src/network/topic_data_plane.cpp:240-248 | in every run: at a hand-over exactly the last accepted packet is published, if any was accepted since the one before |
| `TopicHistory.NewestIsServed` | kcf/src/network/topic_data_plane.cpp:187-212 | in every history of interests, attempts and removals: while a pair is served in one session, its route is the one with the largest number asked for |
| `TopicHistory.InterestIsServed` | kcf/src/network/topic_data_plane.cpp:187-212 | an interest that is not late, with room and a reader that opens, is served under its own number |
| `TopicHistory.OlderMayReturn` | kcf/src/network/topic_data_plane.cpp:192-207 | a history in which an interest whose reader does not open takes the route away, and an older number is served again |
| `ActionServer.ApplyAdvances` | kcf/include/kcf/action/action_server.hpp:103-255 | within a goal the state only advances, feedback grows, a cancel request stays, and a terminal state with its result is final |
| `ActionServer.ReadyIff` | kcf/include/kcf/action/action_server.hpp:121-134 | a result is ready exactly for a current goal in a terminal state |
| `ActionServer.AskedAgain` | kcf/include/kcf/action/action_server.hpp:66-101 | in every run: between two questions to the application about one goal id its first answer was given, and after that two acceptances if it was yes, or one decision if it was no |
| `ActionServer.AskedAgainIff` | kcf/include/kcf/action/action_server.hpp:66-101 | in every run, exactly when a goal id that was decided before would be asked again, and which answer it gets otherwise |
| `ActionServer.NewGoalIsAsked` | kcf/include/kcf/action/action_server.hpp:66-78 | in every run a goal id that was never decided is asked exactly between goals |
| `ActionServer.EnterKeeps` | kcf/include/kcf/action/action_server.hpp:40-47 | entering Flush starts the only publisher or leaves the work to it |
| `ActionServer.LockAgainKeeps` | kcf/include/kcf/action/action_server.hpp:55-63 | leaving the loop, or publishing again, keeps a stale publication someone's business |
| `ActionServer.FlushIsSafe` | kcf/include/kcf/action/action_server.hpp:38-64 | in every run with any number of threads: one publisher at a time, revisions never go backwards, and when all is quiet after a success the last published snapshot is the current state |
| `ActionServer.GoalsAreSerial` | kcf/include/kcf/action/action_server.hpp:66-119 | in every run a goal is replaced only by a decision, never while active |
| `ActionServer.Core.constructor` | kcf/include/kcf/action/action_server.hpp:23-36 | the initial state is idle and valid |
| `ActionServer.Core.GoalRequest` | kcf/include/kcf/action/action_server.hpp:66-101 | each of the five answers to a goal request, and the new state |
| `ActionServer.Core.CancelRequest` | kcf/include/kcf/action/action_server.hpp:103-119 | the specified outcome, accepted also when the callback throws; revision counts changes |
| `ActionServer.Core.StartGoal` | kcf/include/kcf/action/action_server.hpp:183-194 | the new goal, answer and revision are those of the specified operation, which `ActionGoals.GoalIsItsLog` and `ActionGoals.AnswersFollow` tie to the operations before |
| `ActionServer.Core.PublishFeedback` | kcf/include/kcf/action/action_server.hpp:196-210 | the new goal, answer and revision are those of the specified operation, which `ActionGoals.GoalIsItsLog` and `ActionGoals.AnswersFollow` tie to the operations before |
| `ActionServer.Core.FinishGoal` | kcf/include/kcf/action/action_server.hpp:237-255 | the new goal, answer and revision are those of the specified operation, which `ActionGoals.GoalIsItsLog` and `ActionGoals.AnswersFollow` tie to the operations before |
| `ActionServer.Core.Flush` | kcf/include/kcf/action/action_server.hpp:38-64 | the drain loop, with operations and goal decisions of other threads meanwhile, ends with a failed publication or with the state current when the lock is taken back |
| `ActionGoals.EffectIff` | kcf/include/kcf/action/action_server.hpp:103-255 | one operation: exactly when it takes effect after those before it, and what the goal is then |
| `ActionGoals.GoalIsItsLog` | kcf/include/kcf/action/action_server.hpp:66-255 | in every run the goal's state, cancel request, feedback count, last feedback and result are exactly those of the operations that took effect since its acceptance |
| `ActionGoals.TakesEffectIff` | kcf/include/kcf/action/action_server.hpp:103-255 | in every run: exactly which operations take effect, by those that took effect before |
| `ActionGoals.AnswersFollow` | kcf/include/kcf/action/action_server.hpp:103-255 | in every run: the error that each operation returns, by the operations before it |
| `ActionGoals.ResultIsTheFinish` | kcf/include/kcf/action/action_server.hpp:121-134 | in every run a result that is ready has value and state of the one operation that ended the goal since its acceptance |
| `ActionGoals.FinishIsTheResult` | kcf/include/kcf/action/action_server.hpp:237-255 | in every run, once an operation ended the goal, its result is ready until another goal is accepted |
| `ActionGoals.PublishedAreStates` | kcf/include/kcf/action/action_server.hpp:38-64 | in every run whatever was published is a state the server was in, with the last feedback then given to its goal and their number |
| `Supervisor.ResetsNeedErrors` | bringup/src/bringup.cpp:208-261 | in every run resets are at most as many as entries into ERROR |
| `Supervisor.MoveKeeps` | bringup/src/bringup.cpp:119-566 | every move keeps error, gate, ownership and histories sound |
| `Supervisor.FailingKeeps` | bringup/src/bringup.cpp:322-350 | a failure is recorded once per element and generation and the first one is latched |
| `Supervisor.RenewKeeps` | bringup/src/bringup.cpp:223-237 | a new generation number, with every old child reaped, keeps ownership and the order of starts and reapings exact |
| `Supervisor.RunIsSafe` | bringup/src/bringup.cpp:119-566 | in every run, at every moment: no ERROR to RUNNING; RUNNING without an error and with all children owned and reported, entered only with all alive, ERROR and RESETTING with an error, published statuses likewise; the reset gate is open exactly in ERROR; one failure per element and generation; no child started before those of earlier generations are reaped; resets within entries into ERROR; STOPPED only with every child ever started reaped |
| `Supervisor.GenerationsDoNotOverlap` | bringup/src/bringup.cpp:130-155 | of two starts in different generations the later has the larger number, and the earlier child is reaped before it |
| `Supervisor.LatchedIsFirst` | bringup/src/bringup.cpp:322-350 | in every run the latched error is the first failure recorded since the start or the last recovery |
| `Supervisor.StatusesAreMoments` | bringup/src/bringup.cpp:280-312 | in every run each published status shows the state and the latched error of one moment |
| `Supervisor.ChangesArePublished` | bringup/src/bringup.cpp:254-261 | in every run every change of state is published at once |
| `Supervisor.Bringup.constructor` | bringup/src/bringup.cpp:78-86 | the initial state, alone in its run |
| `Supervisor.Bringup.SetApplicationState` | bringup/src/bringup.cpp:254-261 | the gate opens on entering ERROR and closes otherwise |
| `Supervisor.Bringup.RecordFailure` | bringup/src/bringup.cpp:322-350 | the specified record, unless a shutdown is asked for |
| `Supervisor.Bringup.StartGeneration` | bringup/src/bringup.cpp:130-155 | starts every child once; fails only with a latched error or a shutdown |
| `Supervisor.Bringup.AwaitRunning` | bringup/src/bringup.cpp:156-199 | success means that every child is up and has reported RUNNING, with the error untouched; failure means a latched error or a shutdown; request ids do not run out |
| `Supervisor.Bringup.CheckStartup` | bringup/src/bringup.cpp:162-194 | one round of the startup barrier: it fails exactly if a child is gone, reports badly, or is late in the last round, and is passed exactly if it does not fail and no child is late; every failure is recorded |
| `Supervisor.Bringup.PollRuntimeStatuses` | bringup/src/bringup.cpp:368-408 | a new request id, or EOVERFLOW exactly when there is none; children report and nothing else changes |
| `Supervisor.Bringup.StopGeneration` | bringup/src/bringup.cpp:462-529 | success means that no child is owned; a child of unknown end stays owned |
| `Supervisor.Bringup.ReapRound` | bringup/src/bringup.cpp:486-514 | exactly the children that have ended in a known way are reaped, and nothing remains exactly if no child is owned |
| `Supervisor.Bringup.ResetGeneration` | bringup/src/bringup.cpp:214-253 | only with a request in the gate; ends in RUNNING, in ERROR, or in a shutdown |
| `Supervisor.Bringup.FinishReset` | bringup/src/bringup.cpp:240-252 | unless a shutdown is asked for: RUNNING after success, ERROR otherwise |
| `Supervisor.Bringup.Setup` | bringup/src/bringup.cpp:70-129 | EBUSY exactly outside the initial state; otherwise ends in RUNNING, ERROR, a shutdown, or unprepared |
| `Supervisor.Bringup.Run` | bringup/src/bringup.cpp:409-461 | resets only through the gate, and ends stopped or still owning children |
| `Supervisor.Bringup.ResetRequested` | bringup/src/bringup.cpp:208-213 | a request counts exactly in ERROR, and before a shutdown is asked for |
| `Supervisor.Bringup.Monitor` | bringup/src/bringup.cpp:421-457 | unless a shutdown is asked for: exactly the children that were alive and are not well fail, those that are gone are not alive, an exit is never seen without a failure, and without a failure the state stays; RUNNING then means that all are up |
| `Supervisor.Bringup.CheckHealth` | bringup/src/bringup.cpp:425-452 | one living child: gone, unwell or out of request ids, it has failed, unless a shutdown is asked for |
| `Supervisor.Bringup.Shutdown` | bringup/src/bringup.cpp:530-566 | STOPPED exactly when every child is reaped; a cleanup that failed is tried again by the next call |
| `NetworkLifecycle.LawfulMeans` | gateway/src/network_lifecycle.hpp:34-69 | starts minus stops is 0 or 1, and 0 after a fatal failure |
| `NetworkLifecycle.RetriesWait` | gateway/src/network_lifecycle.hpp:60-78 | in every lawful history a start tried after a k-th failure in a row comes at least 2^(k-1) seconds later, and k is at most four |
| `NetworkLifecycle.StableInterfaceRuns` | gateway/src/network_lifecycle.hpp:35-69 | from any state but ERROR: an interface that two looks a second apart find has the transport running on it |
| `NetworkLifecycle.RunningIsLeftAlone` | gateway/src/network_lifecycle.hpp:54-54 | a transport that runs on the interface that is found runs on, undisturbed |
| `NetworkLifecycle.ErrorIsFinal` | gateway/src/network_lifecycle.hpp:37-37 | after a fatal failure, the fifth in a row or one that cannot be retried, nothing is started any more |
| `NetworkLifecycle.StableMeans` | gateway/src/network_lifecycle.hpp:57-60 | "stable since t" means that from a look at t on, every look found this interface |
| `NetworkLifecycle.AttemptsAreSettled` | gateway/src/network_lifecycle.hpp:56-63 | in every lawful history a start is tried with nothing running, on an interface that every look of at least the last 500 ms found |
| `NetworkLifecycle.FiveFailuresAreFatal` | gateway/src/network_lifecycle.hpp:38-75 | in every lawful history five failures, without ten uninterrupted seconds of running among them, are fatal |
| `NetworkLifecycle.TenSecondsClear` | gateway/src/network_lifecycle.hpp:38-42 | in every lawful history a run of ten seconds that ends in a step not told to stop leaves no failure counting |
| `NetworkLifecycle.AttemptAgrees` | gateway/src/network_lifecycle.hpp:56-63 | a start is tried only on an interface found unchanged for 500 ms, with nothing running |
| `NetworkLifecycle.FailureAgrees` | gateway/src/network_lifecycle.hpp:73-78 | the failure count, the delay and the ERROR state are what the history says |
| `NetworkLifecycle.NetworkLifecycle.constructor` | gateway/src/network_lifecycle.hpp:84-86 | the initial machine agrees with the empty history |
| `NetworkLifecycle.NetworkLifecycle.Stop` | gateway/src/network_lifecycle.hpp:34-34 | stops what runs, once, and voids the candidate |
| `NetworkLifecycle.NetworkLifecycle.Failure` | gateway/src/network_lifecycle.hpp:73-78 | ERROR or the next delay |
| `NetworkLifecycle.NetworkLifecycle.Step` | gateway/src/network_lifecycle.hpp:35-69 | the exact machine after a step; every step extends the history lawfully; ERROR is absorbing; a run of ten seconds is noted |
| `NetworkLifecycle.NetworkLifecycle.CheckWorker` | gateway/src/network_lifecycle.hpp:38-42 | exactly from ten seconds of running on the failures are cleared; a worker error stops the run and counts as the next failure |
| `NetworkLifecycle.NetworkLifecycle.Poll` | gateway/src/network_lifecycle.hpp:44-53 | a look is recorded, and the exact machine after it |
| `NetworkLifecycle.NetworkLifecycle.Consider` | gateway/src/network_lifecycle.hpp:54-61 | the selected interface changes nothing; another ends the run and becomes the candidate; a candidate is started after half a second |
| `NetworkLifecycle.NetworkLifecycle.TryStart` | gateway/src/network_lifecycle.hpp:62-68 | the exact events and the new state; a start that succeeds while stopping is stopped again |
| `ServiceCalls.FoundIff` | kcf/src/service_server.cpp:129-137 | a request is found exactly if it is among the last 64 handled |
| `ServiceCalls.HandleKeeps` | kcf/src/service_server.cpp:129-186 | the ring holds the last 64 handled requests, and equal keys are more than 64 apart |
| `ServiceCalls.HandleIs` | kcf/src/service_server.cpp:129-186 | a request whose key is among the last 64 handled is answered from that run, or refused if it differs, and nothing runs; any other one runs and is answered with what its handler gave |
| `ServiceCalls.HandledAreOutcomes` | kcf/src/service_server.cpp:129-186 | in every run each entry of the history is one step in which a handler was called and gave that |
| `ServiceCalls.AnswerIs` | kcf/src/service_server.cpp:129-186 | in every run exactly what is answered to each request, and when its handler is called |
| `ServiceCalls.CachedDistinct` | kcf/src/service_server.cpp:129-186 | cached keys are distinct |
| `ServiceCalls.RerunsAreFarApart` | kcf/src/service_server.cpp:129-186 | in every run two executions for a key are separated by at least 64 others, and every answer comes from an execution |
| `ServiceCalls.AtMostOnce` | kcf/src/service_server.cpp:129-186 | within that window every answer to a request is the answer of its single execution |
| `ServiceCalls.CallRunIsRun` | kcf/src/service_client.cpp:58-69 | clients that number their calls as CallRaw does never use a key twice, so their runs are among those above |
| `ServiceCalls.ServiceServer.constructor` | kcf/include/kcf/service/service_server.hpp:111-112 | the empty ring is valid |
| `ServiceCalls.ServiceServer.Serve` | kcf/src/service_server.cpp:129-186 | lookup, execution and ring update do what the specification says |
| `ServiceCalls.ServiceClient.constructor` | kcf/src/service_client.cpp:45-50 | a new client starts at request id 0 |
| `ServiceCalls.ServiceClient.CallRaw` | kcf/src/service_client.cpp:54-131 | a fresh id per call; the result is that of the first datagram that settles it, over all retries |
| `ServiceCalls.SuccessIsTheOneExecution` | kcf/src/service_client.cpp:77-129 | behind a successful call there is an execution of its request with that output; unless more than 64 requests came after the first one, it is the only one |
| `ServiceCalls.TimesOutIff` | kcf/src/service_client.cpp:77-131 | a call times out if and only if no datagram is a final answer to it |
| `ServiceCalls.FirstDecides` | kcf/src/service_client.cpp:77-129 | otherwise the first final one decides |
| `ServiceCalls.ReturnsWhatWasGiven` | kcf/src/service_client.cpp:77-129 | in every run what a call returns was decided by one answer, of one execution: its output, its framework error, or that types or size of that answer are wrong |
| `ServiceCalls.FailureIsTheOneExecution` | kcf/src/service_client.cpp:119-126 | unless more than 64 requests came after the first execution, a framework error that a call returns is that of the only one |

## Left out

- Sockets, poll loops, eventfd, mmap, flock, robust-mutex recovery, fork and exec, signals, `/proc`: they are steps that succeed or fail freely.
- Exceptions, allocation failure, thread creation failure, logging and tracing.
- Weak memory: the channel's atomics are sequentially consistent, as the source's default orders are, and its plain copies are single bytes.
- The diagnostics snapshot codec: control frames are proved for any snapshot decoder.
- The discovery packet codec, the topic packet codec and the proxy record codec have the shape of the control frame codec; discovery and topic packets enter the model decoded and valid.
- Peer profiles and capabilities: profiles are compared for equality only; compatibility checks, access lists and client grants are outcomes chosen freely.
- Limited clients of the control node apart from their replay window; diagnostics jobs; backend job execution.
- ActionServer.FlushIsSafe: revision numbers are unbounded; the source's 64-bit counter would have to wrap.
- ActionServer.GoalsAreSerial: goal requests come from one service thread, as the service server's single loop makes them; all other operations come from any number of threads.
- Supervisor.Bringup.Monitor: whether a living child is well, by the rules for timeouts, heartbeats and reported errors, is a parameter; so is its exit. The kind of failure and exit details in the error record are not modelled.
- Supervisor.Bringup.AwaitRunning, Supervisor.Bringup.StopGeneration and Supervisor.Bringup.Run take the number of cycles until their time limit, or the shutdown, as a parameter; every number is covered, for the startup barrier every 32-bit number, since its timeout is a 32-bit number of milliseconds.
- Supervisor.Bringup.Setup: what the validation of the element specifications finds is a parameter.
- RequestBatches.RequestTable.Submit: submitting is one step, since it holds the mutex; the `running` flag that the IO thread clears without the mutex can be ordered after it. Other threads' submissions are steps of the runs anywhere, and in the methods only at the end of the IO thread.
- GatewayLink.LinkIsExact: one direction and one sender session; a new session resets the receiver's marks. Ids are unbounded here; running out of 64-bit ids is an error path of RequestBatches.
- ServiceCalls.AtMostOnce: malformed requests, which are answered with EMSGSIZE before the lookup, are not part of the exchange.
- TopicRoutes.LaterAttempt: the period is a positive whole number of clock ticks; its computation from a rate in floating point is not modelled.
- ValueCodec.WireTypeFailsOnlyOnZeroHash: FNV-1a is computed as written; nothing is claimed about collisions.
- Registries other than descriptor validation, route selection and proxy creation, JSON IPC, command lines and interface enumeration: they would add only easy members.
