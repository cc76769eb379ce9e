# A verified model of the streaming server, segmenter and player

The repository is a small live-streaming system in C: an HTTP server that relays HLS segments and
SFF packet feeds while they are uploaded, an HLS segmenter, a timestamp repair stage, a serializer
for codec headers, a control channel, a date parser and a player with packet and frame queues.
This project models the parts of it that are state machines, wire formats and arithmetic, and
proves what they are for. Sockets, `poll`, files, codecs and clocks appear as parameters: any
number of bytes received or sent at a time, any result of a call into the codec, any interleaving
of threads, any order in which connections are served.

Each component has a specification on values (functions, and a `Step` function where it is a
machine), a class or methods in the source's own imperative form whose contracts tie every call to
the specification, and lemmas about all inputs or all runs of the specification.

| file | what it models |
|---|---|
| `Connections.dfy` | the connections of `ffserver.c` and the loops over their list |
| `HlsSlots.dfy` | the eleven growing HLS slots, their writer and their readers |
| `Server.dfy` | the poll loop as a transition system, with the routing of requests |
| `FeedRefs.dfy` | reference counts of feeds, over every run |
| `Relay.dfy` | what readers of a segment receive, over every run |
| `SffRing.dfy`, `SffFraming.dfy` | the packet ring of a feed; the SFF wire format and its resumable receiver |
| `FeedRelay.dfy`, `FeedHeaders.dfy` | the poll loop joined to a ring for every feed; which readers are sent the stream header |
| `Chunked.dfy` | the chunked coding: frames built in place, and the resumable decoder |
| `FrameQueue.dfy`, `PacketQueue.dfy` | the player's queues, one step per unlocked statement, and the decoder loop |
| `HlsMuxer.dfy` | the segmenter: window, file names, deletion, split clock, byte ranges |
| `Timestamps.dfy` | `ff_ts_wrap` |
| `CodecHeader.dfy`, `CodecLayout.dfy` | `header_write` and `header_read`; the place of every field |
| `ControlChannel.dfy` | the compacting byte FIFO and the framed messages on top of it |
| `Dates.dfy` | `ff_strptime` and `av_timegm` |
| `Chains.dfy` | singly linked lists with their nodes |
| `Bytes.dfy`, `Text.dfy`, `Wrappers.dfy` | big-endian numbers, 32-bit integers, slices; characters and `atoi`; `Option` |

## What was found

Some properties one would expect fail for the code as it is. The model keeps the code's behaviour
and the lemmas say exactly when the property holds.

- A second upload to an HLS slot breaks the relay exactly when an upload to it is still going on or
  a reader has read something or is about to end; a switch to another playlist, which resets all
  slots, exactly when an upload has sent something or a reader has (`Relay.RequestKeepsRelayIff`).
  `Relay.SecondUploadBreaksReader` is a run of eight events and such a request: a reader was sent a
  byte that is no prefix of the slot any more, and two connections upload to it.
- The guard against two feeds of one name refuses a post exactly when another poster of the name
  connected later (`FeedRefs.SecondFeedRefusedIff`); the usual second feed, which connects later
  itself, is let in (`FeedRefs.TwoFeedsOfOneName`).
- A feed whose connection breaks is closed whoever reads it, and leaves readers pointing at it
  exactly when it has any (`FeedRefs.HangUpLeavesReadersIff`, with the run
  `FeedRefs.ReaderLeftBehind`). The end of a segment's upload does the same to readers that point
  at it or sleep on its name (`FeedRefs.UploadEndLeavesReadersIff`, with the run
  `Relay.UploadEndLeavesReader`). At the end of its body a feed is closed exactly
  when it has none (`FeedRefs.EndLeavesNoReader`).
- `remuxing.c` sets both the wrap and the list size to 6, so in a full window the file being
  written is one the playlist lists (`HlsMuxer.FileInUseIffWrapTooSmall`,
  `HlsMuxer.FullWindowClashes`).
- The reader of codec headers evaluates its guard 4 bytes later than the writer, so it refuses some
  headers the writer produced (`CodecHeader.HeaderRoundTrip` has the exact condition): one audio
  stream with 7920 to 7923 bytes of extradata is written and not read
  (`CodecHeader.WrittenButRefused`). Without the global-header flag no guard runs in the writer:
  enough streams leave its buffer (`CodecHeader.BareStreamsOverrun`).
- Without a start time, or with a 64-bit clock, the first timestamps have `AV_NOPTS_VALUE` added to
  them (`Timestamps.FirstOutput`).
- A reader with a slow socket that falls exactly 128 packets behind looks up to date and is put to
  sleep with all of them unread (`FeedRelay.SlowReaderSleeps`); a turn sleeps exactly when the
  writer is a whole number of rounds ahead (`FeedRelay.TurnSleepsIff`).
- A reader is sent its feed's header exactly once and first when the feed sends one header before
  its packets, unless the reader met the feed by a packet (`FeedHeaders.HeaderComesFirst`). A reader
  that asks before there is a feed and is not asleep yet when the header comes does that, and never
  gets the header (`FeedHeaders.HeaderMissed`); a second header is sent to the readers that sleep
  when it comes (`FeedHeaders.HeaderTwice`).
- An `S` right before a header on a feed's connection hides it (`SffFraming.StrayTagHidesHeader`),
  and a length cut by the end of what has arrived is filled up with stale bytes
  (`SffFraming.CutLength`). A chunk's size line that arrives in two parts is read from the second
  part only (`Chunked.CutLineIsDropped`, `Chunked.CutLineMisleads`).
- `ff_ctl_send` leaves part of a frame exactly when the frame does not fit but its head, its name or
  its data would (`ControlChannel.PartOfFrameIff`).
- `ff_ctl_recv` fails to return exactly when its scan of the buffer runs into a place where the
  data it wants is not all there, behind a name that it has or that is not all there either; this
  holds of every buffer, from every position and with anything pending (`ControlChannel.NeverEndsIff`).
  On a message cut short, with nothing pending, that is when the cut leaves more than 4 bytes of
  data behind a whole name, or more than 4 bytes of a cut name and fewer than the data is long, or
  when the same goes for what follows bytes of the name taken for data
  (`ControlChannel.ReceiveStallsIff`; by lengths alone for names without a tag in them,
  `ControlChannel.PlainNameStallsIff`). 18 of the 19 bytes of a message with a name of 1 and data
  of 6 are such an input (`ControlChannel.StallingFrame`). A message cut inside its name, with
  as many bytes behind its lengths as its data is long, is delivered without a name and with the
  beginning of the name for its data (`ControlChannel.CutFrameDelivers`). A head cut inside a field
  leaves the read position past the write position (`ControlChannel.ShortHeadBreaks`). The other
  cuts, between two fields or at most 4 bytes into the tag, the name or the data, are exactly those
  that a cleared parser takes well (`ControlChannel.ResumableIff`); later calls complete them
  (`ControlChannel.StreamIsDelivered`), but a message of which fewer than 5 bytes are unread waits
  for more.
- The frame queue's read index is outside the ring between an increment at the last slot and its
  wrap-around, as in the run `FrameQueue.ReadIndexOutside` (`FrameQueue.ReadIndexInRange`).
  `frame_queue_last_pos` is called by the event loop, which drains the picture queue itself, so it
  can see this only of the sample queue, which the audio callback drains.

## Model

| member | source | states |
|---|---|---|
| Connections.WakeContext | ffserver.c:1037-1048 | one turn of the wake-up loop changes a connection as the specification says and counts one reference exactly when it attaches a sleeper |
| Connections.WakeOthers | ffserver.c:1033-1050 | the loop over the list wakes exactly the sleepers on the caller's packets or segment, attaches the sleepers of its name that have no feed, and adds their number to the caller's references |
| Connections.Find | ffserver.c:1820-1830 | the loop returns the first match of the list, which is the latest connection that posts to the name, or none when nobody does |
| Connections.FindFeed | ffserver.c:1820-1830 | the feed found posts to the name and no later connection does; none found means nobody posts to it |
| Connections.Unlink | ffserver.c:1651-1659 | the loop removes exactly the given connection and keeps the rest in order |
| Connections.CloseConnection | ffserver.c:1647-1687 | the connection is gone, its feed, if still open, has one reference less, and nothing else changed |
| Connections.NewConnection | ffserver.c:1625-1634 | a new connection goes in front of the list and every other one stays as it was |
| HlsSlots.Hls.Open | ffserver.c:796-805 | a writer finds an empty slot with a buffer, marked as being written |
| HlsSlots.Hls.Grow | ffserver.c:840-850 | reallocation to a larger size keeps the contents |
| HlsSlots.Hls.Write | ffserver.c:829-857 | the bytes are appended, after growing by whole blocks when needed, which always makes room; a slot without a buffer is left alone |
| HlsSlots.ReadInPlace | ffserver.c:859-874 | hls_read hands out everything not read yet, or puts the reader to sleep or to its end |
| HlsSlots.SendInPlace | ffserver.c:2359-2409 | the loop of http_send_data over hls_read prepares at most one range and sends at most once, and the connection stays open unless the socket fails or it is left in the trailer state |
| HlsSlots.ReadKeepsInv | ffserver.c:859-874 | hls_read keeps a reader in step with its segment, and ends it exactly when the segment is complete and wholly read |
| HlsSlots.SendKeepsInv | ffserver.c:2391-2405 | after a partial send of any length what was sent and what is pending are still the segment up to the read position |
| HlsSlots.TurnKeepsInv | ffserver.c:1772-1785 | a turn keeps a reader in step with its segment; unless the socket fails it is closed exactly when the segment is complete and was wholly sent |
| HlsSlots.TurnSends | ffserver.c:2359-2409 | a turn of a reader with bytes left puts on the wire as many of the next ones as the socket takes, up to the end of the range in hand, or of the slot; it closes the reader exactly when the socket fails |
| HlsSlots.AppendKeepsInv | ffserver.c:1199-1213 | bytes that arrive, with everyone asleep woken, keep every reader of the slot in step |
| HlsSlots.FinishKeepsInv | ffserver.c:1180-1196 | the end of an upload, with everyone asleep woken to end, keeps every reader in step |
| HlsSlots.StartOverIff | ffserver.c:803-805 | starting a slot over is safe for a reader exactly when it has read nothing of it and is not about to end |
| Server.ReceiveSegment | ffserver.c:1100-1106 | the branch for segments appends what was received and wakes the readers when the slot is not empty |
| Server.EndBody | ffserver.c:1173-1197 | the end of a body completes a segment, wakes its readers to end, and closes the connection unless it is a feed that is still read |
| Server.CloseSlots | ffserver.c:744-755 | closing the uploads empties all eleven slots and clears their flags |
| Server.SegmentNumberPicksSlot | ffserver.c:757-787 | segment n of a numbered upload goes to slot n modulo 10 whatever its base name, so ten successive segments have slots of their own |
| Server.PlaylistPicksSlot | ffserver.c:773-774 | a playlist goes to slot 10 whatever its base name of at most 31 characters |
| Server.SlotIff | ffserver.c:757-787 | a name takes slot 10 exactly when it ends in .m3u8, and slot i below 10 exactly when it ends in the digit i and .ts, behind at most 31 characters, and is no stream's |
| Server.RefusedIff | ffserver.c:2185-2190 | refused are exactly the names with either extension, in any case of letters, that take no slot and are no stream's |
| Server.KeepsPostIff | ffserver.c:2155-2162 | a post stays a post unless it has content and a name that is no stream's and has none of the three extensions, in any case of letters |
| Server.PlaylistReader | ffserver.c:789-824 | the first playlist reader whose base name is no prefix of the current one empties all eleven slots, makes its name the current one and is refused exactly when the number it starts with is above 10000 or negative; any other changes no slot and is served |
| Server.NumberRead | ffserver.c:2192 | the number a name starts with is read up to its first other character |
| FeedRefs.WakeKeepsNames | ffserver.c:1037-1048 | waking keeps every reader pointing at a poster of its own name |
| FeedRefs.WakeReaders | ffserver.c:1033-1050 | a wake-up adds to the readers of the feed exactly those it attaches and changes no other feed's readers |
| FeedRefs.WakeKeepsRefs | ffserver.c:1037-1048 | waking keeps every count equal to the number of readers that point at the feed |
| FeedRefs.CloseKeepsRefs | ffserver.c:919-934 | closing any connection keeps every count equal to the number of readers that point at the feed |
| FeedRefs.JoinCounts | ffserver.c:2238-2249 | a reader that finds a feed when it connects is counted once on it, and no other count changes |
| FeedRefs.HandleKeeps | ffserver.c:2153-2250 | handling any request keeps names, pointers and counts consistent |
| FeedRefs.StepKeepsFeedInv | ffserver.c:1689-1814 | every event of the poll loop keeps names, pointers and counts consistent |
| FeedRefs.FeedsCountTheirReaders | ffserver.c:919-934 | in every reachable state the count of an open feed is the number of open readers that point at it |
| FeedRefs.EndLeavesNoReader | ffserver.c:1173-1197 | at the end of its body a feed is closed exactly when nobody reads it, so that no reader is left pointing at it; otherwise it stays with its count, and all its sleeping readers are woken |
| FeedRefs.HangUpLeavesReadersIff | ffserver.c:1786-1797 | a feed whose connection breaks is closed, and leaves readers pointing at it exactly when it has any, sleepers attached at that moment included |
| FeedRefs.UploadEndLeavesReadersIff | ffserver.c:1195-1196 | the end of a segment's upload closes the connection, and leaves readers pointing at it exactly when some pointed at it already or slept on its name |
| FeedRefs.SecondFeedRefusedIff | ffserver.c:2218-2227 | a post to a feed is refused exactly when another poster of the name connected after it |
| FeedRefs.TwoFeedsOfOneName | ffserver.c:2218-2227 | a run after which two connections feed the same stream |
| FeedRefs.ReaderLeftBehind | ffserver.c:1786-1797 | a run after which an open reader points at a closed feed |
| Relay.WakeReading | ffserver.c:1033-1050 | a wake-up changes no more of a segment's reader than its state and its feed, and the state only of sleepers of the caller's own slot |
| Relay.ReceiveKeepsRelay | ffserver.c:1100-1106 | bytes received for one slot keep every reader of every slot in step, and the slot equal to what its uploader sent |
| Relay.FinishSegment | ffserver.c:1173-1197 | the end of an upload, by end of body or by hang-up, keeps every reader in step and records the upload |
| Relay.SegmentTurnKeeps | ffserver.c:1772-1785 | any turn of any reader keeps everybody in step, and a reader closed by the trailer state is recorded with a finished upload |
| Relay.OpenReaderKeeps | ffserver.c:812-824 | a new reader is in step; one that switches playlists, which resets all slots, keeps the relay when no upload has sent anything and no reader has read anything or is about to end |
| Relay.StepKeepsRelay | ffserver.c:1689-1814 | no event but a request that starts over a slot in use breaks the relay |
| Relay.SentIsPrefix | ffserver.c:829-874 | at every moment of every run in which requests start slots over only when nobody is in the middle of them, what a reader was sent is a prefix of the segment |
| Relay.SleepersAreUpToDate | ffserver.c:1803-1808 | in such runs a reader waiting for its feed was sent everything uploaded so far, and never waits on a segment that is complete |
| Relay.SlotIsTheUpload | ffserver.c:829-857 | in such runs a slot being written holds exactly what came from its one uploader, and that goes on record when the upload ends |
| Relay.ServedInFull | ffserver.c:1782-1784 | in such runs whatever was sent to a reader closed by the trailer state is the whole of a finished upload |
| Relay.ReaderEndsInFull | ffserver.c:1772-1785 | a turn of a reader whose socket works closes it exactly when its segment is complete and was wholly sent |
| Relay.RequestKeepsRelayIff | ffserver.c:789-824 | any request keeps the relay exactly when nobody is in the middle of a slot it starts over: for an upload no other upload and no reader that has read something or is about to end, for a switch of playlists no upload that has sent something and no such reader of any slot |
| Relay.SecondUploadBreaksReader | ffserver.c:791-811 | a run after which a second upload leaves a reader with bytes that are no prefix of its slot, and the slot with two uploaders |
| Relay.UploadEndLeavesReader | ffserver.c:1195-1196 | a run after which a reader of a segment points at the closed connection of its uploader |
| SffRing.Feed.Put | ffserver.c:968-982 | sff_write stores headers in the last slot and packets in the next of the others |
| SffRing.Reader.Get | ffserver.c:984-1010 | sff_read returns the header, or the packet due, and moves on only past a packet |
| SffRing.RingHoldsNewest | ffserver.c:968-982 | whatever is written, the slots hold the newest packets, each at its number modulo 128 |
| SffRing.RingHoldsHeader | ffserver.c:968-975 | the last slot holds the last header written, or nothing when none was |
| SffRing.ReadByNumber | ffserver.c:984-1010 | a reader due for packet n is given a packet of a number at least n that was written, or nothing |
| SffRing.ReadIsNextIffNotLapped | ffserver.c:1003-1005 | the packet given is the one due exactly while the writer is between 1 and 127 packets ahead, and nothing is given exactly when it is a multiple of 128 ahead |
| SffRing.LateReaderIsContiguous | ffserver.c:984-1010 | a reader that joins after W packets receives the run from packet 128*(W/128) on, in order, without gap or repeat, as long as the writer never laps it |
| FeedRelay.StepMakesNoSleeper | ffserver.c:1033-1050 | only a turn of a feed's own reader puts it to sleep, and a packet of a feed, header or data, leaves none of its readers asleep |
| FeedRelay.SleepersHaveNothingToRead | ffserver.c:2310-2347 | in every reachable state a reader that sleeps on an open feed does so because the feed has no header yet or because there is no packet for it to read |
| FeedRelay.SleepersFaceTheWriter | ffserver.c:1003-1005 | in every run a sleeper of a feed with a header and at least 128 packets is due for the slot that the writer fills next |
| FeedRelay.ReadersAreInStep | ffserver.c:984-1010 | in such a run any reader was given the packets of its feed from the one it started at, in order, without gap or repeat |
| FeedRelay.SleepersAreServed | ffserver.c:2310-2347 | in a run in which the writer never laps it, a reader that sleeps on a feed with a header was given exactly the packets from the one it started at to the last |
| FeedRelay.TurnSleepsIff | ffserver.c:1003-1005 | a reader that has sent all it had, and was not lapped up to the last move, is put to sleep exactly when a multiple of 128 packets is unread: none, or 128 |
| FeedRelay.SlowReaderSleeps | ffserver.c:1003-1005 | a run after which a reader of an open feed with a header sleeps with 128 packets unread |
| FeedHeaders.PacketWakes | ffserver.c:1203-1213 | a header wakes exactly the sleepers on its feed, and those on its name without a feed, to send the header, a packet wakes them to send packets, and nobody else changes state or feed |
| FeedHeaders.WokenSendsHeader | ffserver.c:2316-2328 | whoever sleeps on a feed or its name when a header comes sends that header at its next turn |
| FeedHeaders.WokenIsGivenPacket | ffserver.c:2329-2346 | a reader that sleeps on a feed with a header and was not lapped is given the next packet as soon as it comes |
| FeedHeaders.HeaderComesFirst | ffserver.c:2310-2347 | of a feed that sends one header, before its packets, a reader is sent the header exactly once and before its first packet, unless it met the feed by a packet; then it is sent packets only |
| FeedHeaders.HeaderThenPackets | ffserver.c:2310-2347 | when the writer never laps it, such a reader was sent nothing, or the header and the packets from the one it started at, in order; when it sleeps, all of them |
| FeedHeaders.HeaderTwice | ffserver.c:1203-1213 | a run after which a reader was sent both headers of its feed, because it slept when the second came |
| FeedHeaders.HeaderMissed | ffserver.c:1033-1050 | a run after which a reader that asked before there was a feed was sent a packet and never the header |
| FeedHeaders.EndsIff | ffserver.c:2337-2346 | a reader that takes a packet goes on exactly when it can be parsed and its stream index is not -1 |
| FeedHeaders.TakenThenClosed | ffserver.c:2329-2346 | a turn that takes a packet sends that one, moves on by one slot, and closes the reader exactly when the stream ends with it |
| SffFraming.Receiver.TakePayload | ffserver.c:1121-1130 | the rest of a payload is taken as far as it has arrived, and the block delivered when it is whole |
| SffFraming.Receiver.Receive | ffserver.c:1120-1166 | one call finishes the block in hand or synchronises to the next header, byte by byte, with the code's own resynchronisation |
| SffFraming.PendingIsShort | ffserver.c:1121-1130 | a block left pending still misses bytes, and none is pending after a delivery |
| SffFraming.SyncFindsHeader | ffserver.c:1138-1153 | at a header the receiver finds the type and the length that were written |
| SffFraming.HeaderIsFound | ffserver.c:1138-1153 | from a header on the search finds it when its length is 1 to 1000000, and otherwise goes on behind it |
| SffFraming.SyncPasses | ffserver.c:1138-1153 | noise without an S, and headers with a length out of range, are passed over to the next header |
| SffFraming.StrayTagHidesHeader | ffserver.c:1139-1146 | an S right before a header makes the search miss it |
| SffFraming.CutLength | ffserver.c:1148-1153 | a length of which fewer than 4 bytes have arrived is filled up with the digit and zeros of the scratch buffer |
| SffFraming.TypeIsReduced | ff_utils.c:89-100 | a block arrives under its type modulo 10 |
| SffFraming.BlocksRoundTrip | ff_utils.c:89-100 | any list of blocks of 1 to 1000000 bytes is reassembled in order, same types and payloads, however payload bytes are split across calls |
| SffFraming.ParseUndoesWrite | ffserver.c:1012-1030 | sff_parse recovers the stream index and the data that sff_write_packet put into a block |
| SffFraming.ParsedIff | ffserver.c:1012-1030 | exactly the blocks of type 2 with at least the 4 bytes of an index are parsed |
| Chunked.HexReadsBack | ffserver.c:2372 | the size printed in hexadecimal reads back as the size |
| Chunked.HexIsShort | ffserver.c:2372 | the size of anything that fits the buffer takes at most 4 digits, so its line fits the 8 bytes kept free |
| Chunked.HexIsLowerCase | ffserver.c:2372 | the digits printed are 0 to 9 and a to f |
| Chunked.FileSender.FrameInPlace | ffserver.c:2371-2377 | the head and the tail are built around the payload inside the 8192-byte buffer and no payload byte moves or changes |
| Chunked.FileSender.MoveHead | ffserver.c:2373 | memmove brings the head, also when the ranges overlap, against the payload, which stays |
| Chunked.FileSender.HttpSendData | ffserver.c:2359-2409 | a call reads at most once and sends at most once, as the specification says |
| Chunked.SendCallKeepsInv | ffserver.c:701-738 | after any call what was sent and what is buffered are the coding of the chunks cut so far, which are the file up to where it was read |
| Chunked.ResponseIsChunkedBody | ffserver.c:2359-2409 | whatever the reads and the sends return, a finished response is a chunked body of the file, and an unfinished one a prefix of such a coding |
| Chunked.SendGrowsWire | ffserver.c:2380-2407 | a call puts on the wire exactly what the socket takes of the chunk in hand, or of the next one, and ends the response exactly when the buffer is empty and the file at its end |
| Chunked.CallMakesProgress | ffserver.c:2359-2409 | every call in which the socket takes something brings the end of the response nearer, and no call takes it further off |
| Chunked.ResponseFinishes | ffserver.c:701-716 | six calls for each byte of the file, and six more, in which the socket takes something finish the response with a chunked body of the file, whatever the reads return |
| Chunked.ChunkReader.ReadLine | ffserver.c:1060-1069 | the size line is found where it ends within 32 bytes, and its bytes are in the buffer |
| Chunked.ChunkReader.Recv | ffserver.c:1052-1086 | a call returns, leaves in the buffer and consumes what the specification says |
| Chunked.LineSizeReadsBack | ffserver.c:1063-1065 | a size line reads as the size of its chunk, also with the line break of the chunk before in front |
| Chunked.SizeStopsAtOther | ffserver.c:1065 | the size is read up to the first character that is no hexadecimal digit, so that chunk extensions are passed over |
| Chunked.SizeLineForms | ffserver.c:1065 | a size line may begin with any of the six blanks and a sign |
| Chunked.SizeWith0x | ffserver.c:1065 | and with 0x |
| Chunked.NegativeSizeFails | ffserver.c:1065-1079 | a negative size is no end of the body but fails this call and all later ones |
| Chunked.CutLineIsDropped | ffserver.c:1060-1073 | what has arrived of a size line that is not whole, up to 32 bytes, is dropped, and the next call starts a line over |
| Chunked.CutLineMisleads | ffserver.c:1060-1073 | a chunk of 18 bytes whose size line arrives in two parts is taken for one of 2 bytes |
| Chunked.FindsLine | ffserver.c:1060-1069 | the decoder finds exactly the size line in any window that holds it |
| Chunked.CallStep | ffserver.c:1052-1086 | a call at any place of a coding returns the next bytes of the content, and is then at the place after them |
| Chunked.DecodingReturnsContent | ffserver.c:1052-1086 | any valid chunked body is decoded to exactly its content and then the end, however its data is fragmented |
| Chunked.ResponseIsReceived | ffserver.c:1052-1086 | whatever is received of a finished response is the beginning of the file, and all of it at the end |
| Chunked.FileRoundTrip | ffserver.c:2359-2409 | a file sent chunked and received again arrives unchanged and to its end, for any reads, after 6 sends and 6 receives for each of its bytes and 6 more that take something, however its data is fragmented |
| FrameQueue.Queue.constructor | ffplay2.c:658-673 | the size is the given one, at most the capacity, and the queue is empty |
| FrameQueue.Queue.Fill | ffplay2.c:710-724 | a frame is stored in the slot at the write index exactly when there is room and no abort |
| FrameQueue.Queue.Push | ffplay2.c:742-750 | the write index advances with wrap-around and the size grows |
| FrameQueue.Queue.Next | ffplay2.c:752-765 | the first call only notes that the kept frame was shown; any other releases a frame |
| FrameQueue.Queue.Prev | ffplay2.c:768-773 | whether a kept frame was shown, which from now on counts as not shown |
| FrameQueue.UninterruptedPush | ffplay2.c:742-750 | without interference the three steps of a push are the method |
| FrameQueue.UninterruptedNext | ffplay2.c:752-765 | without interference the four steps of a release are the method |
| FrameQueue.PushAdds | ffplay2.c:710-750 | with room in the queue the producer's steps add its frame, whatever the consumer is at |
| FrameQueue.AbandonedIsGone | ffplay2.c:710-724 | a frame given up before or after it was stored leaves every other frame and both indices as they were |
| FrameQueue.LetOnIff | ffplay2.c:776-779 | a consumer is let on exactly when there are frames it has not shown |
| FrameQueue.KeptIsNoted | ffplay2.c:752-773 | where the last frame is kept the first advance only notes that it was shown, releases nothing, and is undone by a step back |
| FrameQueue.AdvanceReleases | ffplay2.c:752-765 | any other advance releases the oldest frame pushed and not released |
| FrameQueue.StepKeepsInv | ffplay2.c:742-765 | every statement of either thread, at any moment, keeps the indices, the size and the slots consistent |
| FrameQueue.IndicesAgree | ffplay2.c:742-765 | in every reachable state, between any two statements, the write index is the read index plus the size modulo the length, up to the one slot each thread has moved past and not yet counted; an index is the length only between its increment and its wrap-around |
| FrameQueue.FramesLeaveInOrder | ffplay2.c:742-765 | frames are released in the order they were pushed, none lost and none twice |
| FrameQueue.PeeksFindTheNextFrames | ffplay2.c:695-708 | the peeks find the kept frame, the frame to show and the one after it |
| FrameQueue.FilledSlotIsPrivate | ffplay2.c:710-724 | the slot being filled is never one the consumer may look at, the kept frame included |
| FrameQueue.ReadIndexInRange | ffplay2.c:782-789 | the read index is inside the ring except exactly between an increment at the last slot and its wrap-around |
| FrameQueue.ReadIndexOutside | ffplay2.c:752-765 | a run after which the read index is the length of the queue |
| PacketQueue.Queue.Put | ffplay2.c:405-431 | a node is linked behind the last one with the serial in force, a flush packet with a new one, unless the queue was aborted |
| PacketQueue.Queue.Clear | ffplay2.c:470-485 | a flush walks the list, empties it and clears the counters |
| PacketQueue.Queue.Start | ffplay2.c:505-511 | a start clears the abort and puts a flush packet |
| PacketQueue.Queue.Get | ffplay2.c:514-549 | the first node is unlinked, the last pointer with it when it was the only one, and its packet taken with its serial and counted off; or the caller learns of the abort or that it would wait |
| PacketQueue.Fetch | ffplay2.c:564-582 | the inner loop of the decoder skips exactly the flush packets and the packets of older serials |
| PacketQueue.StepKeepsInv | ffplay2.c:559-646 | every step of the reading and the decoding thread keeps the queue, the decoder and the calls into the codec consistent |
| PacketQueue.QueueIsConsistent | ffplay2.c:405-431 | the counters are the length and the byte sum of the list, and serials along it rise to at most the queue's own |
| PacketQueue.FirstInFirstOut | ffplay2.c:405-549 | over every run what the decoder took since the queue was last emptied, followed by the list, is exactly what was put on the open queue since then, in order, each packet under the number of flush packets put up to it |
| PacketQueue.CodecIsFlushedBetweenSerials | ffplay2.c:559-646 | over every interleaving with puts, seeks and aborts the codec is flushed before its first packet and between two of different serials, and is fed rising serials |
| PacketQueue.AcceptedIsFed | ffplay2.c:559-646 | over every run the calls into the codec are a flush for each flush packet taken and feeds of the packet accepted last, each after a look that found its serial in force; every packet whose serial is in force when it is judged is fed before the next one is accepted |
| PacketQueue.FedAgainIff | ffplay2.c:624-644 | after a call into the codec the packet is fed again exactly when it is audio with bytes left or the empty packet with a frame out, and the codec did not fail |
| PacketQueue.AudioIsConsumed | ffplay2.c:629-636 | an audio packet is fed until the bytes consumed reach its size, and then the next is taken |
| PacketQueue.AcceptedIsWhole | ffplay2.c:583-585 | a packet accepted starts with all its bytes left |
| PacketQueue.AbortStopsDecoder | ffplay2.c:569-580 | an aborted queue stops the decoder before it takes another packet |
| HlsMuxer.HlsContext.DeleteOldSegments | hlsenc.c:94-157 | the walk over the two linked lists keeps exactly the specified number of removed segments, cuts the list there and deletes the others in order |
| HlsMuxer.HlsContext.Cut | hlsenc.c:106-115 | the list of removed segments is cut behind a node and both halves are lists |
| HlsMuxer.HlsContext.AppendSegment | hlsenc.c:189-229 | a node is linked behind the last one, the first of a full window unlinked and, when deletion applies, linked in front of the removed ones and deletion run |
| HlsMuxer.HlsContext.Start | hlsenc.c:291-308 | the next file is named after the sequence number, wrapped if asked, and counted |
| HlsMuxer.HlsContext.WritePacket | hlsenc.c:415-493 | a packet drops, extends or splits the segment as the specification says |
| HlsMuxer.HlsContext.WriteTrailer | hlsenc.c:495-505 | the trailer closes the last segment |
| HlsMuxer.HlsContext.Window | hlsenc.c:242-281 | the loops print the playlist with its media sequence number and its target duration |
| HlsMuxer.CeilIsLeast | hlsenc.c:257-260 | target durations are rounded up to the next whole number |
| HlsMuxer.KeptIsLeast | hlsenc.c:106-115 | newest first, exactly the removed segments after the least number of newer ones that last as long as the playlist are deleted, and the newest always stays |
| HlsMuxer.PlaylistIsTheWindow | hlsenc.c:242-281 | over every run the playlist lists the newest segments, at most the configured number, under the file numbers that follow the printed media sequence number, which counts the dropped ones |
| HlsMuxer.FileInUseIffWrapTooSmall | hlsenc.c:291-308 | the file being written is a listed one exactly when names wrap after no more files than are listed |
| HlsMuxer.FullWindowClashes | hlsenc.c:291-308 | with a wrap no larger than the list the file being written is always a listed one, once that many segments were closed |
| HlsMuxer.WrapSuffices | hlsenc.c:291-308 | with no wrap, or a wrap above a positive list size, the file being written is never a listed one |
| HlsMuxer.EveryFileInOnePlace | hlsenc.c:212-224 | with deletion on, every file created is deleted, waiting or listed, once, in order of creation |
| HlsMuxer.NoListedFileDeleted | hlsenc.c:94-157 | no listed file is deleted, none is deleted twice, and created is listed plus waiting plus deleted |
| HlsMuxer.SplitClock | hlsenc.c:415-493 | the k-th split comes no sooner than k recording times after the start, and the durations of closed segments add up to the last split less the start |
| HlsMuxer.KeySplitsIff | hlsenc.c:415-456 | a stamped key frame splits exactly when it is at least as many recording times behind the first one as there are segments with the current one |
| HlsMuxer.DueKeyFramesSplit | hlsenc.c:415-493 | over a whole run the splits are exactly the key frames that are due: each the first behind the one before that is one more recording time behind the first key frame |
| HlsMuxer.LastSegmentLasts | hlsenc.c:444-452 | the segment the trailer closes lasts from the last split, or the first key frame, to the last video packet, and those before it from split to split |
| HlsMuxer.RangesTileTheFile | hlsenc.c:456-505 | whatever stamps the packets carry, the byte ranges tile the file from 0 to its end, the trailer's segment included; only in single-file mode are they ranges of one file |
| HlsMuxer.TilesAreAdjacent | hlsenc.c:456-505 | tiling means that each range starts where the one before ends and that the sizes add up |
| HlsMuxer.RangesAreRanges | hlsenc.c:456-505 | when write positions only move on, no range has a negative position or size |
| HlsMuxer.SplitsAtKeyFrames | hlsenc.c:441-456 | over a whole run the splits are at stamped key frames of the video stream, each at its own, in their order |
| Timestamps.TimestampContext.Wrap | ff_utils.c:13-87 | the method rewrites the packet and the context as the specification says and reports a corrected jump |
| Timestamps.OutputIsContinuous | ff_utils.c:43-55 | after the first call, whatever arrives, the output is within the threshold of the prediction and at most the trick-play margin behind the last stamp, and a corrected jump lands on the prediction |
| Timestamps.CorrectedIff | ff_utils.c:43-55 | a stamp is corrected exactly when it is more than ten seconds of the time base off the prediction or more than a tenth of a second behind the last stamp; otherwise it keeps its distance from the input and the offset stays |
| Timestamps.UnwrapIsNearest | ff_utils.c:24-36 | a stamp loses one period exactly when it is more than half a period above the start time, which brings every stamp near enough within half a period of it |
| Timestamps.NoUnwrapPastInt64 | ff_utils.c:24-36 | nothing is unwrapped when a period above the start time is no int64 |
| Timestamps.UnstampedIsPredicted | ff_utils.c:57-85 | a packet without a dts takes the place of the prediction and changes no offset; before the first stamp that is its pts and the frame delay |
| Timestamps.StampsMoveTogether | ff_utils.c:38-86 | both stamps are their unwrapped inputs plus the same updated offset, the next prediction is the stamp plus the duration, and the two halves of the state agree |
| Timestamps.FirstOutput | ff_utils.c:20-41 | the first output is relative to the start time exactly when that is known and the clock is narrower than 64 bits; otherwise AV_NOPTS_VALUE is added |
| Timestamps.ExactStep | ff_utils.c:26-55 | one packet of a true timeline comes out exactly at the prediction, wrapped or not |
| Timestamps.ExactUnwrapping | ff_utils.c:13-87 | through any number of wraparounds output i is the first output plus the durations before it |
| Timestamps.DriftIsBounded | ff_utils.c:43-86 | for arbitrary stamps the output drifts from the sum of durations by at most one threshold a packet |
| Timestamps.SmoothRunIsShifted | ff_utils.c:13-87 | no packet of a run but perhaps the first is corrected exactly when every stamp follows the one before within the two bounds; then output less unwrapped input is one constant |
| CodecHeader.BlockRoundTrip | ff_header.c:42-123 | a block of fields read back restores every field from its last copy and touches no other |
| CodecHeader.SetGlobalSets | ff_header.c:53-55 | setting the flag for extradata sets it whatever the other 31 bits are |
| CodecHeader.StreamRoundTrip | ff_header.c:144-240 | a stream comes back whole, and consumes what was written, unless the reader's guard refuses it |
| CodecHeader.HeaderRoundTrip | ff_header.c:133-250 | a header written is restored stream by stream, consuming exactly its bytes, if and only if every extradata block leaves the reader's guard its 4 extra bytes; otherwise reading fails |
| CodecHeader.InRangeIsPortable | ff_header.c:42-123 | a known codec and numbers in the range of the width they come back from are all a stream needs; the narrow copies do not matter |
| CodecHeader.StandardRoundTrip | ff_header.c:22-131 | the round trip for the field list of the code, for any conversion of the two fields written in thousandths |
| CodecHeader.WrittenButRefused | ff_header.c:168-173 | one audio stream with 7920 to 7923 bytes of extradata is written whole and refused by the reader |
| CodecHeader.MarginSuffices | ff_header.c:65-68 | with the global-header flag on every stream no number of streams makes the writer leave its buffer |
| CodecHeader.BareStreamsOverrun | ff_header.c:39-72 | video and audio streams without the flag and without extradata leave a buffer of any size exactly when 8 + 207 * video + 41 * audio bytes exceed it |
| CodecHeader.VideoSize | ff_header.c:76-117 | the video block takes 174 bytes |
| CodecLayout.LiesThere | ff_header.c:10-13 | the bytes at a field's offset are its number, most significant first |
| CodecLayout.NumberIs | ff_header.c:10-13 | the number is the low bits of the field's width, or the thousandths of a floating-point field |
| CodecLayout.FrontPlaces | ff_header.c:42-62 | the offsets and widths of the fields ahead of the extradata |
| CodecLayout.PicturePlaces | ff_header.c:76-83 | the offsets and widths of bytes 0 to 19 of the video block |
| CodecLayout.RatePlaces | ff_header.c:84-90 | of its bytes 20 to 40 |
| CodecLayout.QuantPlaces | ff_header.c:91-98 | of its bytes 41 to 88 |
| CodecLayout.ToolPlaces | ff_header.c:99-106 | of its bytes 89 to 121 |
| CodecLayout.MotionPlaces | ff_header.c:107-113 | of its bytes 122 to 149 |
| CodecLayout.CopyPlaces | ff_header.c:114-117 | of its bytes 150 to 173 |
| CodecLayout.AudioPlaces | ff_header.c:120-122 | the offsets and widths of the audio block |
| CodecLayout.HeadSays | ff_header.c:30-36 | whatever becomes of its streams, a header begins with their number and the sum of their bit rates |
| CodecLayout.StopsIff | ff_header.c:39-126 | the writer stops at a stream exactly when it has no codec, too much extradata or an unknown kind, and returns -1 exactly in the last case |
| CodecLayout.GuardsAre | ff_header.c:64-68 | the writer's guard refuses from byte position and extradata of 7932 on, the reader's from 7928 |
| CodecLayout.FirstStopReturns | ff_header.c:38-130 | the return value is that of the first stream the writer stops at |
| CodecLayout.RefusedIfNoCodec | ff_header.c:154-165 | a stream whose codec id reads 0 is refused |
| CodecLayout.NegativeCountReadsNone | ff_header.c:133-143 | a negative number of streams reads none |
| CodecLayout.SetGlobalKeepsOthers | ff_header.c:53-55 | setting the flag for extradata changes no other bit |
| CodecHeader.HeaderBuffer.PutNumber | ff_header.c:10-13 | the write macros store a number most significant byte first |
| CodecHeader.HeaderBuffer.PutStream | ff_header.c:39-126 | a turn of the writer's loop stores the fields, the extradata and the guard's outcome as specified |
| CodecHeader.HeaderBuffer.WriteHeader | ff_header.c:22-131 | header_write returns and stores what the specification says |
| CodecHeader.HeaderReader.GetStream | ff_header.c:144-240 | a turn of the reader's loop takes a stream off the buffer as specified |
| CodecHeader.HeaderReader.ReadStreams | ff_header.c:133-250 | header_read restores what the specification says |
| ControlChannel.StreamBuffer.Compact | stream_buffer.c:101-124 | sliding the unread bytes to the front, over themselves, keeps the contents |
| ControlChannel.StreamBuffer.Write | stream_buffer.c:101-124 | a write fails exactly when the data is longer than the free space, compaction included, and then changes nothing; otherwise the data is appended |
| ControlChannel.StreamBuffer.Read | stream_buffer.c:126-141 | a read takes as much as there is off the front |
| ControlChannel.StreamBuffer.SendPending | stream_buffer.c:188-210 | what the socket takes comes off the front and the rest stays |
| ControlChannel.WholeFrameIffItFits | stream_buffer.c:364-388 | a message arrives whole exactly when all of it fits the free space beforehand |
| ControlChannel.PartsAreStored | stream_buffer.c:364-388 | head, name and data are each stored exactly when they fit what is left at their turn |
| ControlChannel.PartOfFrameIff | stream_buffer.c:364-388 | a send leaves part of a frame exactly when the frame does not fit and its head, its name or its data would |
| ControlChannel.SendsAppend | stream_buffer.c:364-388 | any list of sends whose frames together fit puts them on the wire whole and in order |
| ControlChannel.Sender.Send | stream_buffer.c:364-388 | the three writes of ff_ctl_send leave what the specification says |
| ControlChannel.TurnTakesFrame | stream_buffer.c:311-357 | a frame at the cursor of a cleared parser is consumed and delivered in one turn |
| ControlChannel.WholeFramesAreDelivered | stream_buffer.c:311-358 | on whole frames the loop ends with every message delivered once, in order, and nothing left over |
| ControlChannel.TurnMoves | stream_buffer.c:311-357 | a turn changes nothing where the parser is stuck, and moves on anywhere else |
| ControlChannel.NeverEndsIff | stream_buffer.c:311-358 | on every buffer, from every position and with any message pending, the loop fails to end exactly when the scan meets a place where data is missing behind a name in hand or missing too |
| ControlChannel.ReceiveStallsIff | stream_buffer.c:311-358 | on whole frames and one cut short, with a cleared parser, the loop never ends exactly under a condition on the length of the cut frame and the lengths in it, and, where the name is taken for data, on a scan of what follows in the buffer |
| ControlChannel.PlainNameStallsIff | stream_buffer.c:311-358 | when the name holds no tag, lengths alone decide whether the loop ends on a cut frame |
| ControlChannel.CutFrameDelivers | stream_buffer.c:337-357 | a cut frame delivers nothing, except that one cut inside its name with as many bytes behind its lengths as its data is long delivers the beginning of the name as the data of a message without a name |
| ControlChannel.ShortHeadBreaks | stream_buffer.c:321-335 | a cut head ends the loop, past the end of the bytes unless it is cut between its fields |
| ControlChannel.StallingFrame | stream_buffer.c:311-358 | 18 of the 19 bytes of one message are an input on which the loop never ends |
| ControlChannel.CallResumes | stream_buffer.c:299-362 | a call with a message pending, the rest of it, whole frames and a resumable cut in the buffer delivers each message once and in order, and leaves the parser at a stage of the cut one |
| ControlChannel.PartResumes | stream_buffer.c:299-362 | a call that meets no more than another resumable part of the pending message returns, delivers nothing and keeps the parser at a stage of it |
| ControlChannel.ResumableIff | stream_buffer.c:311-358 | a cleared parser returns from a cut frame, delivers nothing and stays inside the buffer exactly when the cut is resumable: within 4 bytes of the start, of a whole name or, unless that is enough for the data, of the lengths, or between the two lengths |
| ControlChannel.StreamIsDelivered | stream_buffer.c:299-362 | over any run of calls on a stream cut at resumable places every call returns and every message that has arrived whole is delivered once and in order, except that the last may wait while fewer than 5 bytes of it are unread |
| ControlChannel.Receiver.TurnInPlace | stream_buffer.c:311-357 | the loop body with its gotos moves cursor and message as specified |
| ControlChannel.Receiver.Recv | stream_buffer.c:299-362 | on any buffer, with anything pending, on which the scan meets no stuck place, the callback gets what the turns deliver, and the parser and the read position are left as after the last turn |
| Dates.Timegm | avstring.c:275-292 | of the fields of a valid date and a time, the seconds from 1970-01-01 by the recursive calendar |
| Dates.DivTruncates | avstring.c:284-287 | division drops the fraction, towards zero |
| Dates.DaysInClosedForm | avstring.c:279-291 | the closed form is the recursive day count of the Gregorian calendar |
| Dates.TimegmCountsDays | avstring.c:275-292 | av_timegm is 86400 times the days since 1970-01-01 of the recursive calendar plus the seconds of the day |
| Dates.TimegmIncreases | avstring.c:275-292 | av_timegm increases strictly with date and time, unless the earlier is a leap second at the end of its day |
| Dates.GetWord | avstring.c:261-273 | get_word skips spaces and returns the next word and where it ends |
| Dates.GetMon | avstring.c:294-311 | the loop over the month names returns the index of the name |
| Dates.Strptime | avstring.c:313-336 | ff_strptime assigns the words of the string to the fields in order, for the one format it knows |
| Dates.ShortClock | avstring.c:332 | a time cut behind its hours or its minutes reads as what is there, and one without digits as midnight |
| Dates.SignedField | avstring.c:332 | a sign counts as one of the two characters of a field |
| Text.AtoiHeedsSigns | avstring.c:325-329 | a sign in front of digits is heeded |
| Text.AtoiSkipsBlanks | avstring.c:325-329 | the six blanks of the C locale are skipped, and any other character ends the number |
| Dates.WordsOfJoin | avstring.c:261-273 | the cursor walks a joined list of words one by one |
| Dates.BlanksAreSkipped | avstring.c:261-266 | any number of blanks of any kind may stand ahead of a word |
| Dates.MonthReadsBack | avstring.c:294-311 | a word has index m exactly when it is the name of month m in print, and never one above 12 |
| Dates.FixdateParses | avstring.c:313-336 | every IMF-fixdate (section 5.6.7 of RFC 9110) of the years 1 to 9999, leap seconds included, parses to its second since the epoch |

## Left out

- Sockets, `poll`, TLS, compression, file opening, and the FFmpeg and SDL calls: their results are parameters. `http_client.c`, `ff_transcoding.c`, `remuxing.c`, `pes.c` and the plug-ins are not modelled, nor is the graphical part of `ffplay2.c`.
- Allocation failure and failed opens: every allocation succeeds, as does opening a segment or a playlist.
- Connections.CloseConnection: memory after a connection is freed is not modelled. Connections are known by numbers that are never used again, so a reference given back to a closed feed has no effect here, where the code writes to freed memory.
- Connections.Unlink: the list of connections is a sequence, latest first; the splice through its `next` pointers is not captured.
- FeedRefs.FeedsCountTheirReaders: holds of the numbers of connections; in the code the memory of a closed feed may be that of a later connection.
- The memory behind a range being sent: ranges are positions in a slot, not pointers, so a buffer moved by `realloc` between two sends of one range is not captured, nor are the bytes of a slot beyond its current size.
- Requests: the parsing of request lines and headers, the `upload/`, `sign_apk` and directory branches, the DVB commands, the connection limit, the request timeout as a time, and local files, whose sending is in `Chunked.dfy` on its own; a get of an ordinary name answers 404 in `Server.dfy`. A name whose base is empty is refused, where the code reads the byte before the string.
- Readers of segments and feeds send no `Transfer-Encoding: chunked` header. With one, ffserver.c:2371-2376 writes a chunk head and a line break around the range inside the slot's buffer or the packet's; the chunked coding is in `Chunked.dfy`, for local files.
- One request per connection: keep-alive reuse is not modelled. Response headers go out in one piece.
- An uploader whose content length is below what its connection already counted as sent (only possible after a reused connection or a 100 response) is not modelled; in the branch for segments that count is always 0.
- `atoi` is without the width of an int, and names are strings of characters without a NUL.
- The turns of a feed's reader in `Server.dfy` are any of sleeping, sending or closing; which of these a turn is follows from the ring in `FeedRelay.dfy`, up to whether the last packet is all sent, and what it sends is in `SffRing.dfy`.
- SffRing: readers ask for the header once, before packets; a packet still being sent when its slot is overwritten is not captured.
- SffFraming.BlocksRoundTrip: 8-byte headers are available in one call, because the code ignores short reads inside a header.
- Chunked.DecodingReturnsContent: size lines are available in one call, because the code starts a line over after an empty receive; a negative chunk size fails as an ordinary read error.
- Chunked.FileSender.HttpSendData: reads succeed and the response is kept alive; a failed read closes the connection, as does the end of a response that is not.
- ControlChannel.Receiver.Recv: a call that never returns, which `ControlChannel.NeverEndsIff` characterises, has no contract; four bytes read across the end of the buffer's memory read as 0.
- ControlChannel.Sender.Send: the result of the three writes is ignored, as in the code; `ControlChannel.PartOfFrameIff` says when part of a frame is left.
- PacketQueue: the condition variable is the `Empty` answer of a get, and the codec an oracle; a node, once unlinked, is not freed.
- FrameQueue: one producer and one consumer; the frames' pictures, the display clock and the abort of a waiting reader are not modelled.
- HlsMuxer: one video stream, whose first key frame starts the output; without video every packet is dropped. Durations and their comparison are exact where the code uses `float` and `double`. The count of dropped packets is not kept.
- Timestamps: 64-bit overflow is not modelled outside the first output, and the frame delay before the first stamp is a parameter.
- CodecHeader: a struct is a map from fields to numbers in which fields never set are 0; doubles are their bit patterns. The position of the `return 0` on an unknown codec is kept, the log messages are not.
- Dates.Strptime: the buffer of 64 bytes for a word is not bounded; `sscanf` and `atoi` are written out for the shapes they are used with.
