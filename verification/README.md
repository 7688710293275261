# A verified model of foctet's multiplexer, codec and file transfer

Foctet runs many logical streams over one byte pipe. A session actor on each side opens,
accepts, feeds and removes streams; a codec turns frames into bytes and back; file
transfers are loops on top. This project models that core and proves what holds in every
run of it.

| file | what it holds |
|---|---|
| `Seqs.dfy` | facts about sequences |
| `Frames.dfy` | flags, frame types, headers, the 14-byte wire form |
| `Codec.dfy` | the incremental decoder, the encoder, the one-shot parser |
| `StreamIds.dfy` | id allocation |
| `LogicalStreams.dfy` | the close state machine, the whole stream and its two halves |
| `Session.dfy` | one side of a session as a state and its actions |
| `SessionActor.dfy` | the session actor as a class, with its application at work; its runs are runs of `Session` |
| `Openers.dfy` | every `open_stream` call is answered exactly once |
| `Demux.dfy` | what reaches a stream's channel |
| `Handover.dfy` | which stream an opener or acceptor gets |
| `Endings.dfy` | what removes a stream, and that the session's end ends all |
| `TwoPeers.dfy` | two sides joined by two pipes |
| `Handshake.dfy`, `Invariants.dfy` | the open handshake and its invariant |
| `Flow.dfy` | conservation of each stream's frames |
| `Closing.dfy` | closing a split stream while its reader runs |
| `SessionRuns.dfy` | the theorems about every reachable state |
| `Crossing.dfy` | exactly when it is safe that both sides open |
| `BytePipes.dfy` | a session over bytes refines the session over frames |
| `FileTransfer.dfy` | `send_file`, `receive_file`, and the end-to-end theorem |
| `Scenario.dfy` | a run that exists, so that the theorems are not empty |
| `QuicChunks.dfy` | the chunk loops of the QUIC streams |
| `Connecting.dfy` | the order of connection attempts |

## How the session is modelled

A `Peer` is the state of one side: the actor's maps and channels, and the logical streams
with everything their application has read and written. An `Action` is one uninterrupted
piece of work. Accepting a stream is three actions (register, publish, respond), because the
actor awaits between them; the writer's `close` is up to four, because the reader half
shares the state behind the mutex. Two peers and two pipes form a `System`; a step is any
action of either side, so a run is any interleaving.

Conventions of the model:

- Channels are unbounded. The code's bounded channels only disable steps; a `close` that is
  dropped while it waits for room is a step of its own. Nothing is claimed about deadlock
  freedom or progress.
- In the two-peer theorems pipes are lossless, and reads and writes may fail once the far side
  has ended. A pipe that fails while both sides run is not a run of the two-peer system; the
  theorems of `Openers`, `Demux` and `SessionActor` hold with failures at any time.
- Arithmetic of machine width is explicit: a length field is written modulo 2^32, ids advance by
  a checked addition that falls to 0, a flags byte loses bit 7.
- A frame that has crossed the wire has `payload_len` filled in (`Received`); builders leave
  it 0.
- Either side may open streams. The two-peer theorems are about every state in which no id has
  been issued twice. `SessionRuns.ApartExactly` says which states these are (the client has
  opened at most one stream or the server none), `Crossing.SafeExactly` that the handshake is
  safe for no other numbers of opens, and `Openers.CrossedOpensStrandTheOpener` what happens
  where it fails.
- Applications send on a stream only frames with the stream's own id, without control flags,
  that the codec can carry (`AppFrame`); `send_frame` itself checks none of this.
- The streams of the two-peer system are split into reader and writer halves as soon as they
  exist, as the TCP connection does with every stream it opens or accepts.

Where the code and its comments disagree, the model follows the code: the comment on
`sort_addrs_by_reachability` says that addresses of equal rank are sorted by IP address, but
the sort is stable, so that holds exactly when they were given in that order
(`Connecting.SortedByIpExactly`, with an input at which it fails in `Connecting.NotSortedByIp`);
the reserved id 0 is issued once the
counter overflows (`StreamIds.ReservedIdFirstIssued`); and of an empty file nothing is sent,
so the receiver of an empty file waits (`FileTransfer.TransferCompletesExactly`).

## Model

| member | source | states |
|---|---|---|
| `Frames.FlagsRoundTrip` | foctet-core/src/frame.rs:16-44 | every set of known flags survives its byte |
| `Frames.TruncationClearsBit7` | foctet-core/src/frame.rs:16-44 | reading a flags byte and writing it back clears bit 7 and nothing else |
| `Frames.TypeRoundTrip` | foctet-core/src/frame.rs:187-213 | a frame type survives its byte if and only if it is not `Reserved(0..5)` |
| `Frames.TypeByteRoundTrip` | foctet-core/src/frame.rs:187-213 | every type byte survives, and parses to a type that survives |
| `Frames.HeaderRoundTrip` | foctet-core/src/codec.rs:39-52 | a written header reads back with the written length and the canonical type |
| `Frames.HeaderBytesRoundTrip` | foctet-core/src/codec.rs:85-89 | re-encoding any 14 header bytes changes bit 7 of byte 8 at most |
| `Frames.WireLayout` | foctet-core/src/codec.rs:85-91 | the place of every field of an encoded frame: ids and length big-endian in bytes 0-3, 4-7 and 10-13, flags in byte 8, type in byte 9, then the payload |
| `Frames.HeaderLayout` | foctet-core/src/codec.rs:39-52 | the places from which a reader takes them |
| `Frames.FlagPositions` | foctet-core/src/frame.rs:16-44 | flag number k is bit k of the flags byte |
| `Frames.ControlBytes` | foctet-core/src/frame.rs:116-134 | the five exact tests hold exactly of the bytes 0x11, 0x12, 0x32, 0x41 and 0x42 |
| `Frames.TypeBytes` | foctet-core/src/frame.rs:174-213 | the named types are the bytes 0 to 5, any other byte stands for itself |
| `Frames.SessionFrameBytes` | foctet-mux/src/session.rs:164-167 | the bytes of open requests, open responses, close requests and data frames, for every id |
| `Codec.DecodeMore` | foctet-core/src/codec.rs:31-76 | more bytes behind a complete frame do not change the frame and stay in the buffer |
| `Codec.DecodeResumes` | foctet-core/src/codec.rs:31-76 | a call that returns nothing resumes exactly where it stopped, inside a header or a payload too |
| `Codec.DrainSplit` | foctet-core/src/codec.rs:31-76 | draining two pieces one after the other is draining their concatenation, from any decode state |
| `Codec.ChunkingIndependence` | foctet-core/src/codec.rs:31-76 | for every byte string and every way of cutting it into reads: same frames, same decode state, same leftover as in one read |
| `Codec.SameBytesSameFrames` | foctet-core/src/codec.rs:31-76 | two cuttings of the same bytes are indistinguishable to a fresh decoder |
| `Codec.DecodeEncoded` | foctet-core/src/codec.rs:82-94 | what a decoder makes of any encoded frame, also when the length or the type does not fit |
| `Codec.SequenceRoundTrip` | foctet-core/src/codec.rs:31-94 | decoding the concatenated encodings of encodable frames returns them, with `payload_len` set and nothing left over |
| `Codec.OnlyEncodableRoundTrips` | foctet-core/src/codec.rs:82-94 | a list that survives holds only encodable frames |
| `Codec.RoundTripExactly` | foctet-core/src/codec.rs:31-94 | a frame list survives the wire if and only if every payload is under 2^32 bytes and no type is `Reserved(0..5)` |
| `Codec.ReservedTypeIsLost` | foctet-core/src/frame.rs:187-213 | every `Reserved(0..5)` frame fails to round trip |
| `Codec.UniquelyDecodable` | foctet-core/src/codec.rs:82-94 | equal concatenated encodings of encodable frames come from lists that are equal once `payload_len` is filled in |
| `Codec.CanonicalForm` | foctet-core/src/codec.rs:39-72 | for every byte string: re-encoding the decoded frames gives the consumed bytes with only bit 7 of each flags byte cleared, every frame carries its true length, the leftover is what a fresh decoder keeps of the rest |
| `Codec.DecodeEncodeIdempotent` | foctet-core/src/codec.rs:31-94 | decode, encode, decode is decode |
| `Codec.OneShotAgreesExactly` | foctet-core/src/frame.rs:325-338 | the one-shot parser and a fresh decoder that empties the buffer agree if and only if the declared length is the length present |
| `Codec.OneShotRoundTrip` | foctet-core/src/frame.rs:314-338 | `from_bytes(to_bytes(f))` is `f` with its length if and only if the type is canonical |
| `Codec.ToBytes` | foctet-core/src/frame.rs:314-323 | its own appends make up the encoding that the codec's encoder appends |
| `Codec.FromBytes` | foctet-core/src/frame.rs:325-338 | an error below 14 bytes, else the parsed header and all remaining bytes |
| `Codec.DecodedLayout` | foctet-core/src/codec.rs:31-76 | for any bytes: the fields a fresh decoder and the one-shot parser read, byte by byte, and what the decoder leaves |
| `Codec.WriteFrame` | foctet-core/src/codec.rs:82-94 | appends exactly the encoding, field by field |
| `Codec.ReadHeader` | foctet-core/src/codec.rs:39-52 | reads the header and takes exactly 14 bytes off the buffer |
| `Codec.FrameCodec.Decode` | foctet-core/src/codec.rs:31-76 | frame, new decode state and remaining buffer are those of the specification |
| `Codec.FrameCodec.Encode` | foctet-core/src/codec.rs:82-94 | appends the encoding and leaves the decode state alone |
| `Codec.FramedReader.OnRead` | foctet-mux/src/session.rs:96-110 | one read, then frames until there is none: the drain of buffer and new bytes |
| `StreamIds.StreamIdCounter.FetchAdd` | foctet-core/src/stream.rs:18-22 | returns the old value and advances with overflow to 0 |
| `StreamIds.AdvanceIsModularExactly` | foctet-core/src/stream.rs:18-22 | advancing is addition modulo 2^32 if and only if the sum is at most 2^32 |
| `StreamIds.IdAtIsModular` | foctet-mux/src/session.rs:215 | the k-th id of a side is (start + k) mod 2^32 |
| `StreamIds.IdsRepeatExactly` | foctet-mux/src/session.rs:215 | two opens share an id if and only if they are a multiple of 2^32 apart |
| `StreamIds.ReservedIdFirstIssued` | foctet-mux/src/lib.rs:16-17 | the reserved id 0 is first issued by the open number 2^32 - start |
| `StreamIds.ServerIdsAreClientIdsShifted` | foctet-mux/src/session.rs:343-346 | the server's ids are the client's, shifted by one |
| `StreamIds.SpacesDisjointExactly` | foctet-mux/src/session.rs:343-346 | the two sides' ids are disjoint if and only if the client opens at most one stream or the server none |
| `LogicalStreams.ExactTestsExclude` | foctet-core/src/frame.rs:116-134 | at most one exact flag test holds of any flags |
| `LogicalStreams.SplitReceivesAlikeExactly` | foctet-mux/src/stream.rs:257-265 | a frame separates split and whole stream if and only if it is a close frame not yet acted on |
| `LogicalStreams.StateAfterFrame` | foctet-mux/src/stream.rs:404-416 | the state after a frame, whole and split, for every flags byte |
| `LogicalStreams.CloseAfterFrame` | foctet-mux/src/stream.rs:375-416 | what a close does right after a frame: after a close request it sends a request, then Closed, and is Closed; after a reset or close response it only tells the session |
| `LogicalStreams.ClosesFinish` | foctet-mux/src/stream.rs:375-402 | from any state two closes end in Closed and tell the session last; the state and events of the first, for every state |
| `LogicalStreams.SplitSimulatesWhole` | foctet-mux/src/stream.rs:375-434 | on every sequence of closes and frames without close flags the halves and the whole reach the same state and send the same events |
| `LogicalStreams.CloseAccounting` | foctet-mux/src/stream.rs:375-416 | over every sequence: requests sent plus the ability to send one never exceed the start value plus the re-arming frames; one Closed event for each close that ends in Closed |
| `LogicalStreams.CloseRequestsBounded` | foctet-mux/src/stream.rs:375-416 | a new stream sends at most one close request plus one for each re-arming frame |
| `LogicalStreams.CloseBoundAttained` | foctet-mux/src/stream.rs:375-416 | for every number of re-arming frames the bound is attained |
| `LogicalStreams.LogicalStream.Close` | foctet-mux/src/stream.rs:375-402 | new state and events are those of the close table; with the session gone the state changes and nothing is sent |
| `LogicalStreams.LogicalStream.RecvFrame` | foctet-mux/src/stream.rs:332-343 | takes the first frame and sets the state from its flags; an ended channel is an error |
| `LogicalStreams.LogicalStream.Split` | foctet-mux/src/stream.rs:419-434 | the halves share one state cell that starts with the stream's state |
| `LogicalStreams.LogicalStreamWriter.Close` | foctet-mux/src/stream.rs:127-158 | the same table through the shared cell |
| `LogicalStreams.LogicalStreamWriter.SendFrame` | foctet-mux/src/stream.rs:85-95 | one frame event, unless the session is gone |
| `LogicalStreams.LogicalStreamWriter.SendBytes` | foctet-mux/src/stream.rs:98-105 | one data frame with the stream's id |
| `LogicalStreams.LogicalStreamReader.RecvFrame` | foctet-mux/src/stream.rs:232-249 | takes the first frame; open flags set the shared state |
| `LogicalStreams.LogicalStreamReader.PollRead` | foctet-mux/src/stream.rs:269-287 | payload, not ready, or end of file, which sets Closed; a payload larger than the buffer's room is taken off the channel and the call panics |
| `Session.NextIsValid` | foctet-mux/src/session.rs:89-293 | every action keeps the maps and queues pointing at streams that exist with the right id |
| `SessionActors.SessionActor.constructor` | foctet-mux/src/session.rs:343-366 | a client starts at id 1, a server at id 2, everything else empty |
| `SessionActors.SessionActor.HandleIncomingFrame` | foctet-mux/src/session.rs:130-209 | the new state is that of the frame's route; accepting registers, publishes (or drops) and responds, with any application steps during its two awaits |
| `SessionActors.SessionActor.HandleControlCommand` | foctet-mux/src/session.rs:211-254 | an open books the next id, answers an overwritten waiter, and writes the request or drops the caller; a shutdown sets its flag, is answered and changes nothing else |
| `SessionActors.SessionActor.HandleStreamEvent` | foctet-mux/src/session.rs:256-278 | writes a frame or removes a closed stream |
| `SessionActors.SessionActor.Shutdown` | foctet-mux/src/session.rs:280-293 | every waiting opener is dropped exactly once, in some order |
| `SessionActors.SessionActor.Run` | foctet-mux/src/session.rs:89-128 | for any sequence of ready branches, application steps (also inside the accept branch), shutdown requests and losses of the pipe or the session: the actor's run is a run of the transition system that writes exactly its output; only four kinds of input can stop it; every call of `open_stream` is issued a ticket, and each ticket is answered once |
| `SessionActors.FrameDoes` | foctet-mux/src/session.rs:130-209 | handling a frame, with the application at work in the awaits, is a run that keeps the openers' account and writes at most the open response |
| `SessionActors.SessionActor.Try` | foctet-mux/src/session.rs:392-411 | what the application does between the actor's steps is the transition of that action, or nothing when it is not possible |
| `SessionActors.OpensAreIssued` | foctet-mux/src/session.rs:392-404 | in every run the tickets issued are as many as the calls of `open_stream` |
| `Session.AcceptIsThreeActions` | foctet-mux/src/session.rs:140-171 | uninterrupted, the accept branch is register, publish, respond |
| `Openers.NextKeepsAccount` | foctet-mux/src/session.rs:172-242 | every action keeps each ticket in exactly one place |
| `Openers.EveryOpenerAnsweredOnce` | foctet-mux/src/session.rs:172-242 | in every run against any peer: answered at most once, else waiting in one place; nobody waits once the actor has ended |
| `Openers.EndAnswersEveryone` | foctet-mux/src/session.rs:280-293 | dropping the actor answers all that waited, each once |
| `Openers.AnswersOnlyGrow` | foctet-mux/src/session.rs:172-200 | no action changes or withdraws an answer |
| `Handover.OpenersGetTheirStreams` | foctet-mux/src/session.rs:172-200 | in every run against any peer: the opener number t gets a stream that carries the id number t, is in the application's hands and went to no other opener, after the response for that id arrived; it is rejected only after a reset for it; it gets nothing only if the actor ends or ids came round |
| `Handover.EveryStreamHasOneOwner` | foctet-mux/src/session.rs:140-187 | in every run: each stream is with the application, in the accept queue or being handed over, in exactly one place, or was dropped; the queue is in order of the requests |
| `Handover.AcceptTakesTheOldest` | foctet-mux/src/session.rs:406-411 | `accept_stream` returns the waiting stream whose request came first |
| `Handover.NewStreamsAreEstablished` | foctet-mux/src/session.rs:140-187 | exactly a request, or an awaited response, for an unregistered id makes a stream: registered under that id, empty and Established |
| `Openers.CrossedOpensStrandTheOpener` | foctet-mux/src/session.rs:133-177 | for any peer: a crossing request under a pending id is accepted; the later response is delivered as data, leaving the opener waiting, if and only if the accepted stream was published |
| `Demux.EpochReceivesItsFrames` | foctet-mux/src/session.rs:130-138 | for any frames from any peer: a registered channel gets exactly the frames with its id that arrive up to the action that removes it, or up to the end of the run, in order |
| `Demux.EpochIsUnique` | foctet-mux/src/session.rs:130-138 | meanwhile no second stream is registered under the id; a repeated open request is forwarded |
| `Demux.RemovalIsFinal` | foctet-mux/src/session.rs:264-268 | a removed channel gets nothing more and is never registered again |
| `Endings.RemovesExactly` | foctet-mux/src/session.rs:133-138 | a registered stream is removed by an action if and only if that takes its Closed event, delivers a frame for it to a dropped reader, fails to hand it over, or ends the actor |
| `Endings.EpochEndsExactly` | foctet-mux/src/session.rs:264-267 | so the epochs above end by exactly these actions |
| `Endings.ToldStreamsAreRemoved` | foctet-mux/src/session.rs:264-267 | in any run, once the Closed event at place n of the channel has been taken, the stream is not registered |
| `Endings.TwoClosesRemoveTheStream` | foctet-mux/src/stream.rs:127-158 | two closes of an Established stream send a close request and a Closed event, and once these are taken the stream is not registered, whatever else happens |
| `Endings.DroppedReadersAreRemoved` | foctet-mux/src/session.rs:133-138 | in any run, the first frame that arrives after the reader was dropped removes the stream |
| `Endings.FailureEndsTheActor` | foctet-mux/src/session.rs:96-122 | after a failed read, or a failed write of an open request or an event, the actor can only end |
| `Endings.EndedSessionsEndTheirStreams` | foctet-mux/src/session.rs:280-293 | in every run, once the actor has ended no stream is registered, and every reader reads what it has and then sees the end |
| `Endings.ReadersPoll` | foctet-mux/src/stream.rs:269-287 | a reader of the session can read or see the end exactly when `poll_read` is ready, with the same new state and channel |
| `Handshake.ShakeOpen` | foctet-mux/src/session.rs:213-227 | a new open has a fresh id and creates the one token of its handshake |
| `Handshake.ShakeAccept` | foctet-mux/src/session.rs:140-159 | an arriving request is for an unknown id and hands the token to the accept |
| `Handshake.ShakeRespond` | foctet-mux/src/session.rs:161-169 | responding hands the token to the response and keeps the pipe in order |
| `Handshake.ShakeEstablish` | foctet-mux/src/session.rs:172-187 | an arriving response is for a pending id that the acceptor has, and uses up the token |
| `Handshake.ShakeAcceptorSends` | foctet-mux/src/session.rs:256-263 | the acceptor's data is written only behind the stream's open response |
| `Handshake.ShakeOpenFails` | foctet-mux/src/session.rs:213-227 | an open whose request cannot be written, the acceptor being gone, uses up its id and leaves no token |
| `Handshake.ShakeForeignSent` | foctet-mux/src/session.rs:161-169 | frames about the other side's opens do not disturb the handshake of one's own |
| `Invariants.WhatArrives` | foctet-mux/src/session.rs:130-209 | what arrives is a response to a pending open of this side, a request of the other side for an id unknown here, or a frame of a registered or removed stream |
| `Invariants.FrameArrives` | foctet-mux/src/session.rs:130-209 | handling any frame that can arrive keeps both sides' handshake invariants |
| `Invariants.SideFails` | foctet-mux/src/session.rs:96-128 | reads and writes that fail once the far side has ended keep both invariants |
| `Invariants.SideMoves` | foctet-mux/src/session.rs:89-293 | every action of one side keeps both invariants as long as no id is issued twice, with application steps between register, publish and respond |
| `Flow.WriterMoves` | foctet-mux/src/session.rs:256-263 | every action of the writer's side keeps each stream's frames accounted for |
| `Flow.ReaderMoves` | foctet-mux/src/session.rs:130-138 | every action of the reader's side keeps them accounted for |
| `Flow.ArrivalExpected` | foctet-mux/src/session.rs:130-209 | no frame arrives for a stream that its receiver never had |
| `SessionRuns.RunAllocates` | foctet-mux/src/session.rs:213-215 | in every run the ids a side has issued are those of its counter, in order |
| `SessionRuns.IssuedIds` | foctet-mux/src/session.rs:343-346 | the client's ids are 1, 2, 3, ... and the server's 2, 3, 4, ..., modulo 2^32 |
| `SessionRuns.ApartExactly` | foctet-mux/src/session.rs:343-346 | in every run: no id has been issued twice if and only if the client has opened at most one stream or the server none |
| `SessionRuns.ReachableIsSound` | foctet-mux/src/session.rs:89-293 | handshake, conservation and closing invariants hold in every reachable state |
| `SessionRuns.PendingHasOneToken` | foctet-mux/src/session.rs:140-227 | in every reachable state and for either side: an id is pending there if and only if exactly one token of its handshake is in flight, and otherwise none is |
| `SessionRuns.EstablishedAtAcceptorFirst` | foctet-mux/src/session.rs:152-187 | a stream exists at the acceptor before it does at the opener; no side waits for a stream it has; every stream was opened by one side or the other |
| `SessionRuns.ResponsePrecedesData` | foctet-mux/src/session.rs:153-169 | on the pipe to an opener that still runs, a stream's open response comes before all its frames, however early the application sends |
| `SessionRuns.StraysBelongToRemovedStreams` | foctet-mux/src/session.rs:188-205 | a request is only accepted for the other side's opens, a response only for this side's, and the only unknown frames are those of streams that the receiver had and has removed |
| `SessionRuns.NoOrphanFrames` | foctet-mux/src/session.rs:201-205 | without closes and drops the unknown-stream branch is never reached |
| `SessionRuns.NothingLostOrReordered` | foctet-mux/src/session.rs:133-138 | in every reachable state, for every stream that is registered at its reader's side and whose writer's session is up: sent = read ++ waiting ++ on the pipe ++ in the event channel |
| `SessionRuns.ReadersSeeAPrefix` | foctet-mux/src/session.rs:133-138 | what a reader got is always the beginning of what the writer sent, closed or not, ended or not |
| `SessionRuns.SplitStreamsCloseOnce` | foctet-mux/src/stream.rs:127-158 | no open-flagged frame reaches a reader and no split stream sends two close requests |
| `SessionRuns.NeverReestablished` | foctet-mux/src/stream.rs:127-158 | a split stream that has left Established never returns |
| `SessionRuns.RunRecordsSends` | foctet-mux/src/stream.rs:85-105 | in any run a stream's record of sent frames only grows, by exactly what its application hands over, in order, and its close requests; without closes by the former alone |
| `Crossing.CrossedRun` | foctet-mux/src/session.rs:133-177 | for every number of at least two client opens and at least one server open, some run leaves the server waiting for an id without a token, the response to it in the queue of the stream it accepted under that id |
| `Crossing.SafeExactly` | foctet-mux/src/session.rs:343-346 | for given numbers of opens: no side waits for a stream it has, and every waiting open has its one token, in every run, if and only if the client opens at most one stream or the server none |
| `Closing.NextClosesOnce` | foctet-mux/src/stream.rs:127-158 | every action keeps each stream's close account, with the reader between the writer's read and its set |
| `Closing.UninterruptedClose` | foctet-mux/src/stream.rs:127-158 | the steps of a close, uninterrupted, are the method |
| `Closing.AbandonedClose` | foctet-mux/src/stream.rs:127-158 | a close dropped while it waits has changed the state, sent nothing and leaves the writer free |
| `BytePipes.WriteEnqueues` | foctet-core/src/codec.rs:82-94 | writing frames appends them to the queue a pipe holds |
| `BytePipes.ReadKeepsContents` | foctet-core/src/codec.rs:31-76 | reading any number of bytes does not change the queue |
| `BytePipes.PollDequeues` | foctet-core/src/codec.rs:31-76 | a poll takes the first frame of the queue or changes nothing |
| `BytePipes.NothingIsHeldBack` | foctet-core/src/codec.rs:31-76 | once all bytes are read, a poll returns nothing if and only if the queue is empty |
| `BytePipes.ByteStepRefines` | foctet-mux/src/session.rs:89-128 | a step over bytes is a step over frames or none |
| `BytePipes.BytesReachOnlyReachable` | foctet-mux/src/session.rs:89-128 | every state reached over bytes is reachable over frames |
| `FileTransfer.ReceiveFileStopsExactly` | foctet-net/src/transport/tcp/stream.rs:295-310 | `receive_file` stops on a frame if and only if it is the first at which the bytes number exactly `len` |
| `FileTransfer.FileArrivesWhole` | foctet-net/src/transport/tcp/stream.rs:274-310 | from any prefix of a file's frames: the bytes so far, and completion exactly on the last chunk |
| `FileTransfer.FileFramesAreSendable` | foctet-net/src/transport/tcp/stream.rs:283-289 | the frames of a file carry the stream's id, no control flags and the file's pieces |
| `FileTransfer.TransferCompletesExactly` | foctet-net/src/transport/tcp/stream.rs:274-310 | a transfer with nothing behind it completes if and only if the file is not empty |
| `FileTransfer.EndToEnd` | foctet-net/src/transport/tcp/stream.rs:274-310 | in every state of every byte-level run a non-empty file is received byte for byte and the receiver stops on exactly the last chunk frame |
| `FileTransfer.SendFileArrives` | foctet-net/src/transport/tcp/stream.rs:274-310 | the same for a run in which the application hands over the file's frames and then sends, closes or drops as it likes, while everything else goes on |
| `FileTransfer.LogicalTcpStream.SendFile` | foctet-net/src/transport/tcp/stream.rs:274-293 | the chunks sent are non-empty, fit the buffer and make up the file; one data frame each, in order |
| `FileTransfer.LogicalTcpStream.ReceiveFile` | foctet-net/src/transport/tcp/stream.rs:295-310 | the loop's result, the frames left and the stream's state are those of the specification, on an ended channel or one that holds the file |
| `Scenario.EarlySendArrives` | foctet-mux/src/session.rs:153-187 | for every payload there is a run in which the acceptor sends before the open response is written and the opener reads exactly that frame |
| `QuicChunks.Send` | foctet-net/src/transport/quic/stream.rs:278-290 | non-empty chunks within the buffer size, all but the last full, ceil(n / size) of them, concatenating to the data |
| `QuicChunks.SendIsStuckExactly` | foctet-net/src/transport/quic/stream.rs:278-290 | with something left to send, a pass of the loop changes nothing if and only if the write buffer has size 0 |
| `QuicChunks.ReceiveFile` | foctet-net/src/transport/quic/stream.rs:331-350 | takes chunks up to the first that is empty or completes `len` bytes, else all; fails if and only if a read error comes first |
| `QuicChunks.WholeTransferHaltsAtTheEnd` | foctet-net/src/transport/quic/stream.rs:331-350 | over any non-empty chunking of the data the receiver halts on the last chunk and no other |
| `QuicChunks.PassedLengthNeverHalts` | foctet-net/src/transport/quic/stream.rs:331-350 | once the bytes exceed `len` only an empty chunk halts the receiver |
| `Connecting.GetDirectAddrs` | foctet-core/src/addr/node.rs:41-74 | exactly the eligible addresses, in set order |
| `Connecting.DirectKeepsOrder` | foctet-core/src/addr/node.rs:41-74 | an address is kept if and only if it is eligible; order is kept |
| `Connecting.SortRanks` | foctet-net/src/device.rs:159-171 | sorting keeps the addresses and orders them by descending rank, then set order |
| `Connecting.SortedByIpExactly` | foctet-net/src/device.rs:150-171 | for any list: addresses of equal rank come back in IP order if and only if they were given in IP order |
| `Connecting.NotSortedByIp` | foctet-net/src/device.rs:158-171 | two global addresses given in descending IP order come back so |
| `Connecting.EndpointBuilder.PushProtocol` | foctet-net/src/endpoint.rs:342-346 | adds the protocol once, behind the others |
| `Connecting.EndpointBuilder.Build` | foctet-net/src/endpoint.rs:409-426 | priorities 1, 2, ... in list order and a transport for every protocol, or an error if one cannot be created |
| `Connecting.PlanIsLexicographic` | foctet-net/src/endpoint.rs:214-233 | the attempts are exactly the eligible ones, in strict lexicographic order of priority, descending rank and set order |
| `Connecting.PlanHasNoDuplicates` | foctet-net/src/endpoint.rs:214-233 | no attempt is made twice |
| `Connecting.PlanByTransport` | foctet-core/src/addr/node.rs:41-74 | exactly the diallable QUIC and UDP addresses are tried over QUIC, exactly the TCP and TLS ones over TLS, none over both |
| `Connecting.PlanByReachability` | foctet-net/src/device.rs:126-171 | over one transport: loopback first, then the interface's networks, then global, then the rest |
| `Connecting.Endpoint.ConnectNode` | foctet-net/src/endpoint.rs:214-233 | without a default interface nothing is tried; otherwise the attempts are that list, cut at the first success; a transport is never missing |

## Left out

- TLS, certificates, keys and the TLS upgrade: the substance is in libraries that are not part of this model.
- Hashing, base32, serialisation, compression and metadata: thin wrappers over libraries.
- Sockets, name resolution, timeouts, tracing and the scheduler: pipes are FIFO queues and scheduling is any interleaving.
- Liveness, fairness and deadlock freedom: bounded channels block in both directions and the code does not guarantee them.
- Channel capacities: they only disable steps; `poll_write`, which fails on a full channel, is not modelled.
- What else happens in runs that issue an id twice, beyond `Crossing.CrossedRun`, `Openers.CrossedOpensStrandTheOpener` and the theorems that hold against any peer (`Openers`, `Demux`).
- Unsplit streams in the two-peer system: `LogicalStreams` treats them one stream at a time.
- Sharing of channel objects between actor and streams: the actor refers to streams by their number in a table, so aliasing is not captured.
- Mutex poisoning of the state that the halves of a stream share.
- The end of a byte stream in the middle of a frame, which the framing library reports; so an actor that is aborted inside a write is modelled as ending before or after it.
- Keepalive, and the flags that no decision reads.
- SessionRuns.ResponsePrecedesData: says nothing about the pipe to an opener that has ended, because then the response may have failed to be written; nobody reads that pipe.
- Connecting.SortRanks: the library's stable sort is modelled by a function on sequences, not in place, and whether an IP address is local or global is a given set.
- `pick_best_addr`, listen-address expansion, relay and endpoint commands, builder setters: only easy facts or unfinished code.
