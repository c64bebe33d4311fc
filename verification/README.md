# A verified model of a user-space TCP

The project models the transport protocol of the repository from the sequence-number arithmetic up to two complete
connections joined by a network, together with the wire form of TCP segments and IPv4 datagrams.

Every stateful part appears twice. A module of values (`Streams`, `Reassembly`, `Receiving`, `Sending`, `Connecting`)
says what each call does and carries the theorems. A class with the program's own fields (`ByteStream`,
`UnassembledBuffer`, `StreamReassembler`, `TcpReceiver`, `Timer`, `TcpSender`, `TcpConnection`, `InternetChecksum`,
`NetParser`) has methods with the program's loops, in-place ring buffers and queues; each is proved to move the
object's value exactly as the value-level definition says. Values carry some history that the program does not keep:
every byte ever written to a stream, every first transmission of a sender with the absolute number it was sent with,
and the time since new data was last acknowledged.

The results build on each other:

- `unwrap` picks the preimage nearest its checkpoint, and recovers exactly the numbers within 2^31 of it
  (or, from above, below 2^32).
- Both ring buffers refine sequences: a bounded first-in first-out stream, and a map from indices to early bytes whose
  interval map is merged by set union. The reassembler is modelled slot by slot, in every state; over any run of
  conforming slices its output is the longest prefix given, whatever the order and repetition.
- Over any run the sender's first transmissions are SYN, the stream cut in order, FIN; the outstanding queue tiles the
  numbers in flight; the timer runs exactly while something is outstanding and has doubled once per retransmission.
  Every segment is as large as the payload limit, the stream and the window allow.
- Over any run, whatever the peer sends, a connection's states and advertisements never go back, it gives up only after
  511 timeouts, and it stops cleanly only when the inbound stream is complete.
- Three segments open any two fresh connections, and four close any two that have said all they have to say: the side
  that ended second is done at once, the other after exactly ten timeouts.
- Two connections over a network that loses, repeats and reorders: after every run what each owner has read is a prefix
  of what the other owner wrote, an ended inbound stream is the whole of it and the other owner had ended it,
  acknowledgements never lie, and every packet ever sent fits the window of the side it is going to. The last of these
  is what discharges the reassembler's condition.
- Conversely, once every segment sent has been received, everything is delivered. Whatever has happened, and even if
  everything on the way is then lost, two active sides that each have an attempt left can still deliver both streams
  and their ends: a timeout sends the oldest segment again and one segment follows the other. Without an attempt left
  they cannot: a side cut off after its ninth SYN is never heard, and for two sides that know how far the other is,
  having an attempt left is the exact condition.
- Serializing and parsing are inverse, for a segment alone and nested in a datagram, and any single changed byte of a
  segment is rejected. Everything two connections ever send can be put into a datagram and is read back unchanged.

Where the code and its documentation disagree, the model follows the code:

- The reassembler's comments promise that bytes beyond the capacity are discarded. The code counts the room from the
  first unassembled byte instead of the reader's position, its unsigned subtraction can wrap, and it records the end
  of the stream after cutting the segment. `PushAsDocumented` gives the exact condition on an offer under which the
  promise is kept; `StoresWithoutRoom` and `EndsEarly` are inputs on which it is not. After an offer that does not
  conform the ring can get out of step with the output, because it moves on by the whole run while the output takes only
  what fits: from then on every byte held is read from a slot that much further on, as `OutOfStepReads` says.
  `Misassembles` is a run that then delivers a wrong byte; `InStepSafe` says that no run that stays in step does, and
  `RunAssembles` that runs of conforming offers deliver all they were given.
- `TCPSegment::parse` and `IPv4Datagram::parse` do not look at the result of the header's `parse`.
  `HeaderVerdictDropped` and `IpVerdictDropped` say exactly for which buffers that makes a difference.

`hide` statements in proofs only keep definitions from the solver; they weaken nothing.

## Model

| member | source | states |
|---|---|---|
| `WrappingIntegers.Advance` | libsponge/wrapping_integers.hh:58-59 | adding to a 32-bit point wraps at most once |
| `WrappingIntegers.Retreat` | libsponge/wrapping_integers.hh:61-62 | subtracting by two's complement goes back that many steps round the circle |
| `WrappingIntegers.WrapSpaced` | libsponge/wrapping_integers.cc:8 | absolute numbers with the same 32-bit form are equal or at least 2^32 apart |
| `WrappingIntegers.WrapShift` | libsponge/wrapping_integers.cc:8 | wrapping commutes with addition |
| `WrappingIntegers.UnwrapIsPreimage` | libsponge/wrapping_integers.cc:20-39 | the result of `unwrap` wraps back to its input, for every checkpoint |
| `WrappingIntegers.UnwrapNear` | libsponge/wrapping_integers.cc:20-39 | the result is within 2^31 of the checkpoint unless no smaller preimage exists |
| `WrappingIntegers.UnwrapClosest` | libsponge/wrapping_integers.cc:14-39 | no number with that 32-bit form is nearer the checkpoint |
| `WrappingIntegers.UnwrapRecovers` | libsponge/wrapping_integers.cc:8-39 | `unwrap` undoes `wrap` if and only if the number is within 2^31 of the checkpoint, or above it and below 2^32 |
| `Streams.RunIsFifo` | libsponge/byte_stream.cc:11-80 | over any interleaving of calls, what was held plus what was accepted equals what was handed out plus what is held, and no more than the capacity is held |
| `Streams.WriteExtendsView` | libsponge/byte_stream.cc:11-28 | a write appends exactly the prefix that fits to what can be read |
| `Streams.PopSplitsView` | libsponge/byte_stream.cc:31-51 | peeking and popping cut the readable bytes in two without loss |
| `Bytes.SlotIsModulo` | libsponge/byte_stream.cc:80 | the remainder by the capacity is one step round the ring |
| `Bytes.RotateTwice` | libsponge/stream_reassembler.cc:41 | moving the start of a ring twice is moving it once by the sum, round the end |
| `ByteStreams.ByteStream.constructor` | libsponge/byte_stream.cc:8-9 | an empty stream of the given capacity |
| `ByteStreams.ByteStream.CopyIn` | libsponge/byte_stream.cc:16-23 | the two-part copy places the new bytes after the held ones round the ring and overwrites none of those |
| `ByteStreams.ByteStream.Write` | libsponge/byte_stream.cc:11-28 | the ring holds the old contents followed by the part that fits, whose length is returned |
| `ByteStreams.ByteStream.PeekOutput` | libsponge/byte_stream.cc:31-43 | returns the first bytes not yet read, across the end of the array |
| `ByteStreams.ByteStream.PopOutput` | libsponge/byte_stream.cc:46-51 | drops at most the bytes held from the front; the ring still holds the rest |
| `ByteStreams.ByteStream.Read` | libsponge/byte_stream.cc:56-60 | returns what it drops |
| `ByteStreams.ByteStream.EndInput` | libsponge/byte_stream.cc:62-64 | marks the end and keeps the contents |
| `ByteStreams.ByteStream.SetError` | libsponge/byte_stream.hh:41 | marks the error and keeps the contents |
| `ByteStreams.ByteStream.IsEof` | libsponge/byte_stream.cc:72 | true exactly when the input has ended and everything written was read |
| `ByteStreams.ByteStream.RemainingCapacity` | libsponge/byte_stream.cc:78 | the capacity less the bytes written and not yet read |
| `Intervals.LowerBound` | libsponge/stream_reassembler.cc:57 | the first key that is at least the index |
| `Intervals.TotalCountsCovered` | libsponge/stream_reassembler.cc:48-83 | the sizes of separated intervals add up to the number of covered indices |
| `Intervals.SeparatedIsCanonical` | libsponge/stream_reassembler.cc:48-83 | a set of indices has only one separated map, so scanning from a different place could not give another result |
| `UnassembledBuffers.UnassembledBuffer.MergeInterval` | libsponge/stream_reassembler.cc:48-83 | terminates; the map stays sorted, disjoint and non-touching, covers exactly the union of the old indices and the new interval, and the counter is the number of covered indices |
| `UnassembledBuffers.UnassembledBuffer.PlaceInterval` | libsponge/stream_reassembler.cc:63-67 | inserting an interval clear of its neighbours adds exactly its indices |
| `UnassembledBuffers.UnassembledBuffer.TakeInterval` | libsponge/stream_reassembler.cc:73-78 | joining an overlapping or touching entry leaves the union unchanged |
| `UnassembledBuffers.UnassembledBuffer.CopyIn` | libsponge/stream_reassembler.cc:13-21 | seen from its start the ring is the old one with the bytes written over it at their distance |
| `UnassembledBuffers.UnassembledBuffer.PushSubstring` | libsponge/stream_reassembler.cc:8-43 | for any contents: the bytes go in at their distance from the start index, the indices are joined to the map, the run of recorded indices at the start is handed over byte for byte from the front of the ring, and ring and map move on by as much |
| `UnassembledBuffers.UnassembledBuffer.TakeRun` | libsponge/stream_reassembler.cc:26-42 | hands over exactly as many bytes as the map records in one run from the start index |
| `UnassembledBuffers.UnassembledBuffer.PopFirst` | libsponge/stream_reassembler.cc:29-42 | the first interval leaves the map and as many bytes leave the front of the ring |
| `UnassembledBuffers.UnassembledBuffer.Advance` | libsponge/stream_reassembler.cc:41 | the ring seen from its new start is the old view rotated |
| `UnassembledBuffers.UnassembledBuffer.CopyOut` | libsponge/stream_reassembler.cc:33-40 | the two-part copy returns the front of the ring in order |
| `UnassembledBuffers.UnassembledBuffer.constructor` | libsponge/stream_reassembler.cc:6 | a ring of zeros and nothing recorded |
| `Reassembly.PushAsDocumented` | libsponge/stream_reassembler.hh:57-65 | from a state within the reader's room the code does what the documentation promises of an offer if and only if the offer conforms: it is old or empty, or it starts in reach, no part of it beyond the reader's room is kept apart from the output, and a final one is not cut |
| `Reassembly.AbortsExactly` | libsponge/stream_reassembler.cc:12-123 | the assertion stops the program if and only if, after the cut to a room computed in 64 bits, something is left that starts a capacity or more beyond the output |
| `Reassembly.StoresWithoutRoom` | libsponge/stream_reassembler.cc:120-123 | an input on which a byte without room is stored although the documentation says it is discarded |
| `Reassembly.EndsEarly` | libsponge/stream_reassembler.cc:125-139 | every final segment longer than the capacity ends an empty stream before its last byte |
| `Reassembly.PushContinues` | libsponge/stream_reassembler.cc:95-140 | whatever is offered in whatever state without tripping the assertion, assembled bytes stay, an ended output stays ended, and everything recorded lies within one ring beyond the output |
| `Reassembly.FeedAssembles` | libsponge/stream_reassembler.cc:130-135 | while ring and output stay in step, the ring mechanics assemble a piece exactly as laying bytes over a map of indices does |
| `Reassembly.InWindowInStep` | libsponge/stream_reassembler.cc:130-135 | from a state within the reader's room no piece puts ring and output out of step: a run the output cuts short, its result being ignored, leaves nothing recorded |
| `Reassembly.Misassembles` | libsponge/stream_reassembler.cc:41-135 | for every stream whose bytes at 3 and 6 differ, four offers that trip no assertion, the second not conforming, make a reassembler with room for four bytes deliver a wrong byte |
| `Assembly.DocumentedAgrees` | libsponge/stream_reassembler.hh:57-65 | done as documented, any slice of a fixed stream adds exactly the indices there is room for |
| `Reassembly.PushAgrees` | libsponge/stream_reassembler.cc:95-140 | every conforming slice of a fixed stream keeps the state in agreement with it, adds exactly the indices there is room for, and ends the output exactly when the end is known and reached |
| `Reassembly.PushKeepsWindow` | libsponge/stream_reassembler.cc:120-135 | conforming offers leave nothing held beyond the reader's room |
| `Reassembly.OfferableConforms` | libsponge/stream_reassembler.cc:120-128 | offers that fit the reader's room, and short ones that start no later than the first missing byte, conform and do not stop the program |
| `Reassembly.PushInStep` | libsponge/stream_reassembler.cc:95-140 | in any state in agreement with a fixed stream, within the reader's room or not, an offer of a slice that keeps ring and output in step leaves the state in agreement and adds nothing that was not offered |
| `Reassembly.OutOfStepReads` | libsponge/stream_reassembler.cc:41-135 | a piece that puts them out of step leaves every held index to be read from the slot as many places further on as the run taken out exceeds what the output took |
| `ReassemblyRuns.InStepSafe` | libsponge/stream_reassembler.cc:95-140 | in every run whose offers keep ring and output in step, beyond the window or not, the output is always a prefix of the stream |
| `ReassemblyRuns.LegalInStep` | libsponge/stream_reassembler.cc:95-140 | conforming offers in the window keep in step |
| `ReassemblyRuns.RunKeeps` | libsponge/stream_reassembler.cc:95-140 | over any run of conforming slices and reads, exactly the indices offered while the reader had room for them have been received |
| `ReassemblyRuns.RunAssembles` | libsponge/stream_reassembler.cc:95-140 | after any such run the output is the longest prefix of the stream so given, the other given bytes are held, and the output has ended exactly when all of it and its end were offered |
| `ReassemblyRuns.OrderIndependent` | libsponge/stream_reassembler.cc:92-140 | two runs of conforming offers, zero-window probes among them, that give the same indices and end deliver the same and hold the same bytes, whatever the order, repetition and reading |
| `ReassemblyRuns.AllOffersGiven` | libsponge/stream_reassembler.cc:120-123 | when the reader has room for every offer, what is given is what is offered |
| `ReassemblyRuns.OffersInAnyOrder` | libsponge/stream_reassembler.cc:92-140 | so two such runs making the same offers in any order and with any repetition deliver the same |
| `StreamReassemblers.StreamReassembler.constructor` | libsponge/stream_reassembler.cc:89-90 | an empty output and nothing held |
| `StreamReassemblers.StreamReassembler.PushSubstring` | libsponge/stream_reassembler.cc:95-140 | in every state and on every offer that trips no assertion, the two rings move as `Reassembly.Push` says |
| `StreamReassemblers.StreamReassembler.CutToRoom` | libsponge/stream_reassembler.cc:105-123 | the two cuts, wrapping subtraction included, leave the part of the offer that is new and has a slot |
| `StreamReassemblers.StreamReassembler.Settle` | libsponge/stream_reassembler.cc:125-139 | recording the end, feeding the ring and ending the output give the value of `Reassembly.Place` |
| `StreamReassemblers.StreamReassembler.Feed` | libsponge/stream_reassembler.cc:130-135 | the ring's run goes into the output, which takes what fits of it, and the ring moves on by the whole run |
| `StreamReassemblers.StreamReassembler.UnassembledBytes` | libsponge/stream_reassembler.cc:142 | counts each held index once, however often it arrived |
| `Receiving.KeptWindow` | libsponge/tcp_receiver.cc:5-23 | a peer that keeps to the window never trips the reassembler and leaves nothing held beyond the reader's room |
| `Receiving.ReceiveKeeps` | libsponge/tcp_receiver.cc:5-23 | any segment that trips no assertion leaves the receiver well formed, in any state |
| `Receiving.ReceiveAdvances` | libsponge/tcp_receiver.cc:5-58 | no segment that trips no assertion moves the acknowledgement or the right edge of the window back, or the state backwards |
| `Receiving.ReadAdvances` | libsponge/tcp_receiver.cc:25-45 | reading leaves the acknowledgement and opens the window by exactly what was read |
| `Receiving.RightEdgeIsLimit` | libsponge/tcp_receiver.cc:25-45 | acknowledgement plus window is the first sequence number the reader has no room for |
| `Receiving.SliceReceived` | libsponge/tcp_receiver.cc:5-23 | any peer's segment, with or without SYN and FIN, whose number is read rightly and whose payload is a conforming slice of a fixed stream: exactly the indices with room are received besides those before, the end is recorded if and only if known before or carried, and the first SYN fixes the initial number for good |
| `Receiving.FirstSegmentBrings` | libsponge/tcp_receiver.cc:15-41 | a first segment with SYN, data and possibly FIN that fits the capacity is assembled whole and acknowledged with one for each byte and flag |
| `Receiving.NothingTaken` | libsponge/tcp_receiver.cc:6-19 | without a SYN a listening receiver takes nothing in, and neither does an open one at the number of the SYN |
| `TcpReceivers.TcpReceiver.constructor` | libsponge/tcp_receiver.hh:45 | a listening receiver with an empty reassembler |
| `TcpReceivers.TcpReceiver.SegmentReceived` | libsponge/tcp_receiver.cc:5-23 | skips until SYN, fixes the initial number, and offers the payload at its unwrapped index |
| `TcpReceivers.TcpReceiver.AbsAckNo` | libsponge/tcp_receiver.cc:25-33 | the count of sequence numbers received without a gap, with SYN and FIN |
| `TcpReceivers.TcpReceiver.AckNo` | libsponge/tcp_receiver.cc:35-41 | none while listening or in error, else the 32-bit form of that count |
| `TcpReceivers.TcpReceiver.WindowSize` | libsponge/tcp_receiver.cc:43-45 | the capacity less what is assembled and unread |
| `TcpReceivers.TcpReceiver.State` | libsponge/tcp_receiver.cc:47-58 | the state as a function of error, SYN and end |
| `Sending.FillStepProgress` | libsponge/tcp_sender.cc:56-76 | every pass of the loop sends at least one number, at most the free window, and leaves strictly less of it, so the loop ends |
| `SenderInvariants.NextSegmentCarries` | libsponge/tcp_sender.cc:66-75 | the segment of a pass is the next slice of the stream, at most 1000 bytes, with FIN only at its end; how large it is says `SenderRuns.FillCuts` |
| `SenderInvariants.FillStepInv` | libsponge/tcp_sender.cc:44-77 | a pass keeps the log, queue and timer in order and sends within the window or one number into a shut one |
| `SenderInvariants.FillWindowInv` | libsponge/tcp_sender.cc:44-77 | filling keeps every invariant, and everything new is a first transmission the window admitted |
| `SenderInvariants.SendSynInv` | libsponge/tcp_sender.cc:44-53 | from the closed state, filling sends the SYN at absolute number zero |
| `SenderInvariants.FinSentMeans` | libsponge/tcp_sender.cc:56-77 | once FIN is out the stream is ended and used up and nothing more can be sent |
| `SenderInvariants.SynAckedMeans` | libsponge/tcp_sender.cc:141-158 | the sender is between SYN and FIN exactly when something was acknowledged and no FIN was sent |
| `SenderInvariants.EntryBounds` | libsponge/tcp_sender.cc:19-28 | no first transmission reaches beyond the next sequence number |
| `SenderInvariants.FrontRecovered` | libsponge/tcp_sender.cc:96-98 | unwrapping in the pop loop recovers the absolute number the segment was sent with |
| `SenderInvariants.PopAckedShape` | libsponge/tcp_sender.cc:95-107 | the loop drops exactly the segments that end at or before the acknowledgement, and restarts the timer if one remains |
| `SenderInvariants.AckReceivedInv` | libsponge/tcp_sender.cc:81-110 | any acknowledgement whatever, old, repeated, impossible or new, keeps every invariant; it says which window and last acknowledgement result, and only new ones reset count and timeout |
| `SenderInvariants.TickInv` | libsponge/tcp_sender.cc:113-128 | the assertion in `tick` never fails, and at most the oldest outstanding segment goes out again |
| `SenderInvariants.RetransmitTimer` | libsponge/tcp_sender.cc:120-127 | doubling keeps the timeout at the initial one times two to the count, and at least the sum of the timeouts has passed |
| `SenderInvariants.SendEmptyInv` | libsponge/tcp_sender.cc:132-139 | an empty segment keeps every invariant and leaves something queued |
| `SenderInvariants.WriteInv` | libsponge/byte_stream.cc:11-28 | writing to a stream not ended keeps every segment sent a slice of it |
| `SenderRuns.RunInv` | libsponge/tcp_sender.cc:19-139 | the invariant holds after every run of calls |
| `SenderRuns.SendingConserves` | libsponge/tcp_sender.cc:19-77 | over any run the first transmissions are SYN, then segments of at most 1000 bytes whose payloads are exactly the bytes taken from the stream, FIN at most on the last and only after all bytes |
| `SenderRuns.PayloadsAreStream` | libsponge/tcp_sender.cc:66-75 | any number of first transmissions carry exactly a prefix of the stream |
| `SenderRuns.OutstandingTiles` | libsponge/tcp_sender.cc:19-128 | over any run outstanding segments are non-empty, each carries the number where the lengths of the ones from it on reach up to the next number, and together they are the numbers in flight; the last acknowledgement lies in the oldest, at most 65535 numbers are unacknowledged, the timer runs if and only if something is outstanding, and the timeout is the initial one times two to the count |
| `SenderRuns.ShutWindowProbed` | libsponge/tcp_sender.cc:30-42 | with a shut window, nothing in flight and data waiting, exactly its next byte goes out |
| `SenderRuns.OldestSentAgain` | libsponge/tcp_sender.cc:113-128 | letting the timeout pass sends the oldest outstanding segment again, counted and doubled unless the window is shut |
| `SenderRuns.NothingSentEarly` | libsponge/tcp_sender.cc:113-117 | before the timeout nothing changes but the time elapsed |
| `SenderRuns.ExpiresOnTime` | libsponge/tcp_sender.cc:113-117 | however time is cut into ticks, the timer expires at exactly the tick with which the sum reaches the timeout |
| `SenderRuns.FillsUp` | libsponge/tcp_sender.cc:54-76 | filling stops only when the window is used up or everything is sent, FIN with it once the stream has ended and the SYN is acknowledged |
| `SenderRuns.FillCuts` | libsponge/tcp_sender.cc:30-77 | filling sends from the next number on segments each of exactly min(1000, bytes left, numbers left in the window) bytes, a shut window counting as one number, with FIN if and only if the stream has ended, the SYN is acknowledged, the payload reaches the last byte and the window has one number more; and it goes on exactly to the end of the window or of what there is to send |
| `TcpSenders.Timer.constructor` | libsponge/tcp_sender.hh:15 | a stopped timer |
| `TcpSenders.Timer.Restart` | libsponge/tcp_sender.hh:21-24 | runs from zero with the same timeout |
| `TcpSenders.Timer.Reset` | libsponge/tcp_sender.hh:26-29 | stopped at zero with the same timeout |
| `TcpSenders.Timer.ResetTo` | libsponge/tcp_sender.hh:31-34 | stopped at zero with the new timeout |
| `TcpSenders.Timer.Tick` | libsponge/tcp_sender.hh:36-40 | time counts only while the timer runs |
| `TcpSenders.Timer.Expired` | libsponge/tcp_sender.hh:42 | running and at or past the timeout |
| `TcpSenders.TcpSender.constructor` | libsponge/tcp_sender.cc:11-15 | a closed sender that satisfies the invariant |
| `TcpSenders.TcpSender.SendSegment` | libsponge/tcp_sender.cc:19-28 | queues and records the segment at the next number and starts a timer at rest |
| `TcpSenders.TcpSender.FreeWindowSize` | libsponge/tcp_sender.cc:30-42 | the room left, with one for a shut window and nothing in flight |
| `TcpSenders.TcpSender.FillWindow` | libsponge/tcp_sender.cc:44-77 | the loop ends in the state the recursive definition gives, whose segments `SenderRuns.FillCuts` determines, and keeps the invariant |
| `TcpSenders.TcpSender.SendNext` | libsponge/tcp_sender.cc:66-75 | one pass, through the stream's ring buffer |
| `TcpSenders.TcpSender.AckReceived` | libsponge/tcp_sender.cc:81-110 | any acknowledgement leaves the state of the definition and keeps the invariant |
| `TcpSenders.TcpSender.PopAcknowledged` | libsponge/tcp_sender.cc:95-107 | the pop loop equals its recursive definition |
| `TcpSenders.TcpSender.Tick` | libsponge/tcp_sender.cc:113-128 | keeps the invariant; an expired timer implies something outstanding |
| `TcpSenders.TcpSender.SendEmptySegment` | libsponge/tcp_sender.cc:132-139 | queues an empty segment with the next number only when nothing is queued |
| `TcpSenders.TcpSender.State` | libsponge/tcp_sender.cc:141-158 | the state as a function of counters and stream |
| `Connecting.StampAll` | libsponge/tcp_connection.cc:23-33 | every segment moved out is stamped with the receiver's present state, in order |
| `Connecting.TakeInReady` | libsponge/tcp_connection.cc:72-83 | taking in any segment that trips no assertion leaves both halves fit for the reply |
| `ConnectionInvariants.EnqueueEmits` | libsponge/tcp_connection.cc:15-35 | everything queued carries the current acknowledgement and the window cut to 16 bits if there is one to carry and none otherwise, and nothing stays behind |
| `ConnectionInvariants.ReceiveMoves` | libsponge/tcp_connection.cc:57-99 | any segment that trips no assertion and is neither ignored nor a reset moves the connection on, all it queues is current and no reset, a segment that occupies numbers or a keep-alive probe gets a reply, and the connection ends exactly when a clean stop is due |
| `ConnectionInvariants.ReplyMoves` | libsponge/tcp_connection.cc:84-96 | after filling, something is queued whenever a reply is due |
| `ConnectionInvariants.ReplyExact` | libsponge/tcp_connection.cc:84-96 | the sender's queue after a segment is what filling sent, or one empty segment if nothing was sent and the segment occupied numbers or carries the number before the one expected, or nothing |
| `ConnectionInvariants.ListenerHears` | libsponge/tcp_connection.cc:57-66 | while nothing was sent or received, a segment without SYN, with acknowledgement or with reset changes nothing at all; a bare SYN opens the receiver and is answered |
| `ConnectionInvariants.ResetHeard` | libsponge/tcp_connection.cc:67-71 | once anything was sent or received a reset ends the connection with both streams in error, unanswered, and takes back nothing delivered |
| `ConnectionInvariants.LingerDecided` | libsponge/tcp_connection.cc:78-83 | on any segment that trips no assertion: a side stops lingering if and only if its peer has finished, its SYN is acknowledged and its FIN was not sent before, whether or not its stream has ended |
| `ConnectionInvariants.WriteMoves` | libsponge/tcp_connection.cc:105-110 | writing moves the connection on and queues only current segments; what it writes says `Owners.StepOwned`, what it queues `Transmission.CallSentOn` |
| `ConnectionInvariants.EndMoves` | libsponge/tcp_connection.cc:126-130 | so does ending the outbound stream |
| `ConnectionInvariants.ConnectMoves` | libsponge/tcp_connection.cc:132-135 | so does connecting |
| `ConnectionInvariants.ReadMoves` | libsponge/tcp_connection.hh:61 | so does reading the inbound stream |
| `ConnectionInvariants.TickMoves` | libsponge/tcp_connection.cc:113-124 | a tick with at most eight retransmissions moves the connection on and ends it exactly when a clean stop is due |
| `ConnectionInvariants.TickGivesUp` | libsponge/tcp_connection.cc:113-124 | the ninth retransmission in a row resets both streams, queues the oldest segment marked as a reset and leaves it in the sender's queue, and comes at least 511 timeouts after the last acknowledgement of new data or the start of the timer |
| `ConnectionInvariants.GivesUpExactly` | libsponge/tcp_connection.cc:116-121 | a tick resets the connection if and only if it finds the timer expired, the window open and eight retransmissions counted |
| `ConnectionInvariants.ReceiveReset` | libsponge/tcp_connection.cc:67-71 | a peer's reset ends the connection at once and is not answered |
| `ConnectionInvariants.StopMeans` | libsponge/tcp_connection.cc:37-48 | over without a reset means the inbound stream is complete and either everything outbound with FIN is acknowledged, or ten timeouts have passed since the last segment |
| `ConnectionInvariants.CleanStopMeans` | libsponge/tcp_connection.cc:37-48 | the stop is due if and only if the side lingers, the peer has finished and ten timeouts have passed, whatever is unacknowledged, or it does not linger and its FIN is acknowledged |
| `ConnectionRuns.SenderRankGrows` | libsponge/tcp_sender.cc:141-158 | the sender's state never goes back |
| `ConnectionRuns.StepMoves` | libsponge/tcp_connection.cc:57-135 | every call, with any segment that trips no assertion, keeps the connection's invariant and moves states and advertisements only forward |
| `ConnectionRuns.RunOnward` | libsponge/tcp_connection.cc:57-135 | over any run, with any peer whose segments trip no assertion, states never go back, inactive is permanent, acknowledgement and right edge do not retreat, and giving up takes at least 511 timeouts of ticks, however they are cut up |
| `ConnectionRuns.NewConnectionInv` | libsponge/tcp_connection.hh:22-29 | a new connection satisfies the invariant, listens, advertises its receive capacity and has room for its send capacity |
| `TcpConnections.TcpConnection.constructor` | libsponge/tcp_connection.hh:22-29 | fresh parts, apart from each other, forming a new connection |
| `TcpConnections.TcpConnection.EnqueueSegments` | libsponge/tcp_connection.cc:15-35 | the loop moves every segment over stamped, or on giving up marks the first as reset and leaves it in the sender's queue |
| `TcpConnections.TcpConnection.MoveFront` | libsponge/tcp_connection.cc:17-33 | the first segment, stamped, changes queues |
| `TcpConnections.TcpConnection.TryCleanShutdown` | libsponge/tcp_connection.cc:37-48 | inactive exactly on the two clean conditions |
| `TcpConnections.TcpConnection.UncleanShutdown` | libsponge/tcp_connection.cc:50-55 | both streams in error, inactive, not lingering |
| `TcpConnections.TcpConnection.Absorb` | libsponge/tcp_connection.cc:72-83 | both halves take the segment in, and the halves stay apart in memory |
| `TcpConnections.TcpConnection.Fill` | libsponge/tcp_connection.cc:85 | the sender fills its window, and nothing else of the connection changes |
| `TcpConnections.TcpConnection.ReplyEmpty` | libsponge/tcp_connection.cc:95 | the sender queues an empty segment if nothing is queued, and nothing else changes |
| `TcpConnections.TcpConnection.Respond` | libsponge/tcp_connection.cc:84-96 | fills the window and adds an empty segment when a reply is due |
| `TcpConnections.TcpConnection.NeedsReply` | libsponge/tcp_connection.cc:86-94 | true exactly for segments that occupy numbers and for keep-alive probes, as `ReplyDue` says |
| `TcpConnections.TcpConnection.HandleSegment` | libsponge/tcp_connection.cc:72-98 | the usual case from end to end |
| `TcpConnections.TcpConnection.SegmentReceived` | libsponge/tcp_connection.cc:57-99 | every branch leaves the state of `Receive`, which `ListenerHears`, `ResetHeard`, `AnsweredExactly`, `AckHeard`, `SliceReceived` and `LingerDecided` determine, and keeps the invariant, for any segment that trips no assertion |
| `TcpConnections.TcpConnection.Write` | libsponge/tcp_connection.cc:105-110 | returns how many bytes fit, puts exactly those from the front of the data into the stream as `Owners.StepOwned` says, sends what the window allows, keeps the invariant |
| `TcpConnections.TcpConnection.Tick` | libsponge/tcp_connection.cc:113-124 | passes time, gives up or stops when due, keeps the invariant |
| `TcpConnections.TcpConnection.EndInputStream` | libsponge/tcp_connection.cc:126-130 | ends the outbound stream, sends FIN if the window allows, keeps the invariant |
| `TcpConnections.TcpConnection.Connect` | libsponge/tcp_connection.cc:132-135 | fills the window, keeps the invariant |
| `TcpConnections.TcpConnection.ReadInbound` | libsponge/tcp_connection.hh:60-62 | reading returns and removes the first unread bytes and keeps the invariant |
| `TcpConnections.TcpConnection.TakeSegments` | libsponge/tcp_connection.hh:86-90 | the owner takes everything queued and the invariant stays |
| `Handshakes.SynOpens` | libsponge/tcp_receiver.cc:5-23 | a SYN opens a listening receiver at its number, acknowledged as one more |
| `Handshakes.SynAcknowledged` | libsponge/tcp_sender.cc:81-110 | acknowledging the SYN empties the queue and rests the timer |
| `Handshakes.ConnectSends` | libsponge/tcp_connection.cc:132-135 | connecting sends exactly the SYN, without an acknowledgement |
| `Handshakes.ListenerAnswers` | libsponge/tcp_connection.cc:57-99 | a listening side answers a SYN with exactly one segment: its own SYN, acknowledging the peer's number plus one and advertising its window |
| `Handshakes.OpenerAnswers` | libsponge/tcp_connection.cc:57-99 | the side that sent its SYN takes SYN and acknowledgement and answers with exactly one bare acknowledgement |
| `Handshakes.ListenerOpens` | libsponge/tcp_connection.cc:57-99 | the last acknowledgement opens the listening side and is not answered |
| `Handshakes.HandshakeCompletes` | libsponge/tcp_connection.cc:57-135 | for any two fresh sides the three segments leave both open, each with the other's initial number |
| `Closings.EndSends` | libsponge/tcp_connection.cc:126-130 | ending the stream with everything said and acknowledged sends exactly the FIN, one number, even into a shut window |
| `Closings.FinAnswered` | libsponge/tcp_connection.cc:57-99 | the FIN completes the inbound stream and is answered with exactly one bare acknowledgement; a side that has not ended its own stream gives up lingering |
| `Closings.FinAckTaken` | libsponge/tcp_connection.cc:57-99 | the acknowledgement of the FIN is not answered; a side that does not linger stops on it |
| `Closings.SaidAllAtRest` | libsponge/tcp_connection.cc:57-135 | two linked active sides with everything said and acknowledged are where the closing exchange starts |
| `Closings.ClosingCompletes` | libsponge/tcp_connection.cc:37-130 | FIN, acknowledgement, FIN, acknowledgement: the side that ended second is inactive at once and without error, the other is active and lingers |
| `Closings.LingersTenTimeouts` | libsponge/tcp_connection.cc:37-124 | however time is cut into ticks and whatever its sender still has outstanding, a lingering side whose peer has finished is active if and only if less than ten timeouts have passed since the last segment, unless it gives up before; with nothing outstanding it neither gives up nor says anything |
| `Links.LinkMeans` | libsponge/tcp_sender.cc:81-110 | in one direction: delivered bytes are a prefix, an ended delivery is the whole stream, and oldest outstanding ≤ last acknowledgement ≤ received ≤ next number |
| `Links.AdmittedFits` | libsponge/tcp_sender.cc:30-42 | what the sender's window admits the receiver has room for, or it is a one-number probe |
| `Links.FillWindowAims` | libsponge/tcp_sender.cc:30-77 | at the moment of sending, every new segment ends within the receiver's room or is one number sent exactly where the receiver stands |
| `Links.AckRecovered` | libsponge/tcp_sender.cc:82 | a fresh acknowledgement is unwrapped to the number the receiver gave |
| `Links.AckMove` | libsponge/tcp_sender.cc:81-110 | taking a true acknowledgement keeps the direction in order |
| `Links.FillWindowMove` | libsponge/tcp_sender.cc:44-77 | filling keeps the direction in order and queues only what fits |
| `Links.TickMove` | libsponge/tcp_sender.cc:113-128 | retransmission keeps the direction in order and queues only what fits |
| `Links.StartRecovered` | libsponge/tcp_receiver.cc:17 | a fresh segment is unwrapped to the number it was sent with |
| `Links.DeliverMove` | libsponge/tcp_receiver.cc:5-23 | delivering any packet ever sent, in any order and any number of times, never trips the reassembler, conforms, and keeps the direction in order |
| `Links.DeliverExact` | libsponge/tcp_receiver.cc:5-23 | an open receiver gains exactly the indices a packet carries within the reader's room, and the end if it carries FIN |
| `Links.CarriedBySome` | libsponge/tcp_sender.cc:66-75 | every byte taken from the stream is in some first transmission |
| `Links.AllGot` | libsponge/tcp_receiver.cc:5-41 | once every segment sent has been received, everything sent has been assembled |
| `Links.FewerOnTheWay` | libsponge/tcp_connection.hh:86-90 | losing packets on the way, in either direction, disturbs nothing |
| `Links.AcknowledgeMove` | libsponge/tcp_connection.cc:23-31 | stamping a segment puts only true acknowledgements on the way |
| `Duplex.EnqueueLinked` | libsponge/tcp_connection.cc:15-35 | handing the queue on keeps both directions in order |
| `Duplex.ReceiveLinked` | libsponge/tcp_connection.cc:57-99 | so does receiving any fresh packet |
| `Duplex.TickLinked` | libsponge/tcp_connection.cc:113-124 | so does a tick, giving up included |
| `Network.ArrivalPermitted` | libsponge/stream_reassembler.cc:120-135 | no arriving packet of a peer of this kind trips the reassembler: the condition of `SegmentReceived` is met |
| `Owners.StepOwned` | libsponge/tcp_connection.cc:57-135 | a write appends to the outbound stream exactly the prefix of the data that fits, ending marks its end, a read takes exactly the first unread bytes; no other call, whatever arrives, writes, ends or reads anything |
| `Network.NextGood` | libsponge/tcp_connection.cc:57-135 | every owner's call, departure, arrival and loss keeps the whole system in order |
| `Network.RunExchanged` | libsponge/tcp_connection.cc:57-135 | over any run a side's outbound stream grows by the concatenation, in order, of what its owner's writes took, ends if and only if the owner ends it, and the owner's reads return the inbound stream in order |
| `Network.RunSaid` | libsponge/tcp_connection.cc:105-130 | so from the start the outbound stream is exactly what the owner wrote and had taken |
| `Network.EndToEnd` | libsponge/tcp_connection.cc:57-135 | after every run over a losing, repeating, reordering network, for both directions: the inbound stream and everything its owner read are prefixes of what the other owner's writes took, all of it once ended, and then the other owner had ended it; last acknowledgement ≤ received ≤ next number; every popped segment had been received; every segment ever sent and every packet on the way fits its window or is a probe |
| `Network.ShortStreamsFresh` | libsponge/wrapping_integers.cc:20-39 | with streams below 2^31 no assumption on the age of packets is needed |
| `Delivery.NewSegmentsAimed` | libsponge/tcp_sender.cc:30-77 | whatever event happens in the system, each segment it sends for the first time ends within the peer's room at that moment, or is one number sent into a shut window exactly where the peer stands |
| `Delivery.ArrivalGot` | libsponge/tcp_receiver.cc:5-23 | a packet arriving whole within an open receiver's room has been received |
| `Delivery.GotStays` | libsponge/tcp_connection.cc:57-135 | what has been received stays received whatever happens next at either endpoint |
| `Delivery.GotForever` | libsponge/tcp_connection.cc:57-135 | and over every run |
| `Delivery.AllDelivered` | libsponge/tcp_receiver.cc:5-41 | if every segment ever sent has been received, the whole stream is delivered, and ended once FIN is among them |
| `Transmission.HandledParts` | libsponge/tcp_connection.cc:72-98 | after a segment both halves are what the parts made of it, and nothing is queued in answer that starts below the next sequence number |
| `Transmission.ExpirySends` | libsponge/tcp_connection.cc:113-124 | letting the timeout pass queues exactly the oldest outstanding segment with a current acknowledgement, counts and doubles unless the window is shut, and touches nothing else |
| `Transmission.AnsweredExactly` | libsponge/tcp_connection.cc:72-98 | what a segment makes a connection queue: everything sent for the first time, stamped and in order, or else one empty segment if it occupied numbers or is a keep-alive probe, or else nothing |
| `Transmission.CallSentOn` | libsponge/tcp_connection.cc:105-135 | connecting, writing and ending queue exactly what they send for the first time, stamped and in order |
| `Transmission.EarlyTickQueuesNothing` | libsponge/tcp_connection.cc:113-124 | before the timeout a tick queues nothing |
| `Transmission.AckHeard` | libsponge/tcp_connection.cc:75-77 | a segment without acknowledgement leaves last acknowledgement, window and count; one with it, read rightly, moves the first forward if it is new and possible, and sets the window if it is not old and possible |
| `Reachability.StepStays` | libsponge/tcp_connection.cc:57-124 | arrivals, reads, ticks and filling the window change nothing written and take back nothing delivered |
| `Progress.ExpiryWaits` | libsponge/tcp_connection.cc:113-124 | with an attempt left and no lingering about to run out, the timeout puts the first number without an acknowledgement on the queue again and the side stays up |
| `Progress.FillWaits` | libsponge/tcp_connection.cc:132-135 | with nothing outstanding, filling the window sends that number first |
| `Progress.WaitingFresh` | libsponge/wrapping_integers.cc:20-39 | such a segment is unwrapped rightly at the peer, however long the streams |
| `Progress.SegmentArrives` | libsponge/tcp_connection.cc:57-99 | where the reader has room it is received and answered with an acknowledgement that tells its sender more than it knew |
| `Progress.AckArrives` | libsponge/tcp_connection.cc:72-98 | that acknowledgement brings the sender up to date and gives it all its attempts back |
| `Progress.StoppedDelivers` | libsponge/tcp_connection.cc:37-48 | an endpoint that stops on a segment leaves both directions complete, ends included |
| `Progress.Recover` | libsponge/tcp_connection.cc:57-135 | from every good state of two active sides, each with an attempt left, whatever is or is not on the way, a run delivers both streams whole, with their ends if they ended |
| `Progress.AlwaysRecoverable` | libsponge/tcp_connection.cc:57-135 | after every run of the system that leaves both sides active with an attempt left, even if everything on the way is then lost, some run delivers exactly what both owners wrote, ended if and only if they ended it |
| `Exhaustion.TickSpent` | libsponge/tcp_connection.cc:113-124 | with eight attempts used and the window open, no tick sends a number again except in a reset |
| `Exhaustion.AckSpent` | libsponge/tcp_sender.cc:81-110 | no acknowledgement that can still arrive gives an attempt back or shuts the window |
| `Exhaustion.NotReceived` | libsponge/tcp_receiver.cc:5-23 | a packet without the number expected next brings the receiver no further |
| `Exhaustion.NothingMore` | libsponge/tcp_connection.cc:57-135 | once the peer waits for a number of which every copy is lost and the sender has no attempt left, no run whatever delivers one more byte |
| `Exhaustion.RecoverableExactly` | libsponge/tcp_connection.cc:116-123 | for two active sides with nothing on the way, each knowing how far the other is and with something left to deliver, some run delivers both streams if and only if each side has nothing outstanding, or a shut window, or fewer than eight retransmissions behind it |
| `Exhaustion.NineSyns` | libsponge/tcp_connection.cc:113-135 | from the start, `connect` and eight timeouts with all nine SYNs lost lead to two active sides of which in no run the second ever hears the first |
| `Wires.EverythingTransmissible` | libsponge/tcp_helpers/tcp_over_ip.cc:73-90 | after every run of the system every packet on the way, given any ports, has no urgent or push mark, can be put into a TCP datagram between any addresses, and is read back there unchanged, checksum apart |
| `Checksums.FoldRemainder` | libsponge/util/util.cc:100-108 | folding keeps the remainder modulo 65535 and tells zero from its multiples |
| `Checksums.ChecksumZero` | libsponge/util/util.cc:100-108 | the value is zero exactly for positive multiples of 65535 |
| `Checksums.ChecksumChecks` | libsponge/util/util.cc:81-83 | a sum with its own checksum put in checks |
| `Checksums.WordSumConcat` | libsponge/util/util.cc:89-98 | adding in pieces of any length, odd ones included, is adding the whole |
| `Checksums.WordSumBound` | libsponge/util/util.cc:89-98 | how large the sum of a number of bytes can get |
| `Checksums.ChangeDetected` | libsponge/util/util.cc:100-108 | a sum changed by less than 65535 no longer checks |
| `Checksums.InternetChecksum.constructor` | libsponge/util/util.cc:87 | starts from the given sum on an even byte |
| `Checksums.InternetChecksum.Add` | libsponge/util/util.cc:89-98 | the loop adds the bytes as halves of 16-bit words in 32 bits, carrying parity across calls |
| `Checksums.InternetChecksum.Value` | libsponge/util/util.cc:100-108 | the loop folds to the inverted one's-complement sum |
| `NetParsing.FromToBytes` | libsponge/util/parser.cc:26-60 | an integer written most significant byte first is read back |
| `NetParsing.ByteAt` | libsponge/util/parser.cc:56-59 | the byte pushed at each place is the number shifted down by what follows |
| `NetParsing.ReadBack` | libsponge/util/parser.cc:26-60 | reading what was written in front of anything returns it and leaves the rest |
| `NetParsing.NetParser.CheckSize` | libsponge/util/parser.cc:20-24 | a size beyond the buffer records the error |
| `NetParsing.NetParser.ParseInt` | libsponge/util/parser.cc:26-43 | the loop computes the big-endian value and consumes its bytes, or returns zero after an error |
| `NetParsing.NetParser.RemovePrefix` | libsponge/util/parser.cc:45-51 | drops the prefix unless there is an error |
| `NetParsing.UnparseInt` | libsponge/util/parser.cc:53-60 | appends the big-endian bytes of the value |
| `TcpCodec.HeaderLayout` | libsponge/tcp_helpers/tcp_header.cc:51-78 | every field at the place section 3.1 of RFC 793 gives it |
| `TcpCodec.FieldsReadBack` | libsponge/tcp_helpers/tcp_header.cc:17-34 | reading the fields in turn gives back what was written |
| `TcpCodec.HeaderRoundTrip` | libsponge/tcp_helpers/tcp_header.cc:17-78 | every header with an offset from 5 to 15 survives writing and parsing, its options skipped |
| `TcpCodec.SerializedChecks` | libsponge/tcp_helpers/tcp_segment.cc:41-56 | a serialized segment passes its own check |
| `TcpCodec.SegmentRoundTrip` | libsponge/tcp_helpers/tcp_segment.cc:12-56 | parsing what was serialized gives the segment back with its checksum filled in |
| `TcpCodec.SegmentCorruption` | libsponge/tcp_helpers/tcp_segment.cc:12-23 | changing any single byte of the wire form gives a checksum error |
| `TcpCodec.HeaderVerdictDropped` | libsponge/tcp_helpers/tcp_segment.cc:19-22 | ignoring the header's result makes a difference if and only if the checksum is right and the thirteenth byte is missing or announces an offset below five |
| `TcpCodec.HeaderVerdictMeans` | libsponge/tcp_helpers/tcp_header.cc:17-48 | what the header parser reports of any buffer, by its length and thirteenth byte |
| `TcpCodec.ChecksumJudged` | libsponge/tcp_helpers/tcp_segment.cc:12-18 | a buffer is refused for its checksum if and only if the sum of the pseudo-header and its words is not a positive multiple of 65535 |
| `TcpCodec.SegmentAccepted` | libsponge/tcp_helpers/tcp_segment.cc:12-23 | exactly which buffers are taken as segments, which error the others give, and where the payload starts |
| `TcpCodec.HeaderPadded` | libsponge/tcp_helpers/tcp_header.cc:51-78 | headers with an offset below five are refused, others are filled with zeros to the length announced |
| `TcpCodec.ShortHeaderAccepted` | libsponge/tcp_helpers/tcp_segment.cc:19-22 | every header with an offset below five and a right checksum is accepted without error |
| `TcpCodec.ParseHeaderFrom` | libsponge/tcp_helpers/tcp_header.cc:17-48 | field by field, with the error cases in the program's order |
| `TcpCodec.WriteHeader` | libsponge/tcp_helpers/tcp_header.cc:51-78 | refuses an offset below five, else writes the fields and pads to the advertised length |
| `TcpCodec.ParseSegmentBytes` | libsponge/tcp_helpers/tcp_segment.cc:12-23 | checksum first, then the header, reporting only the parser's error |
| `TcpCodec.SerializeSegmentBytes` | libsponge/tcp_helpers/tcp_segment.cc:41-56 | the header with the checksum over zeroed header and payload, then the payload |
| `Ipv4Codec.PseudoChecksum` | libsponge/tcp_helpers/ipv4_header.cc:125-131 | stays far below the range in which a segment's sum could overflow |
| `Ipv4Codec.PseudoHeaderSum` | libsponge/tcp_helpers/ipv4_header.cc:114-131 | it is the sum of the twelve-byte pseudo-header of section 3.1 of RFC 793: both addresses, zero, protocol, payload length |
| `Ipv4Codec.SegmentSums` | libsponge/tcp_helpers/tcp_segment.cc:41-56 | the words of the pseudo-header and of a serialized segment add up to a multiple of 65535, as section 3.1 of RFC 793 asks |
| `Ipv4Codec.IpHeaderLayout` | libsponge/tcp_helpers/ipv4_header.cc:78-110 | every field at the place section 3.1 of RFC 791 gives it |
| `Ipv4Codec.IpHeaderRead` | libsponge/tcp_helpers/ipv4_header.cc:23-75 | a well-shaped header is read back, options skipped, and judged by its checksum alone |
| `Ipv4Codec.IpHeaderChecks` | libsponge/tcp_helpers/ipv4_datagram.cc:28-38 | a serialized header passes its own check |
| `Ipv4Codec.DatagramRoundTrip` | libsponge/tcp_helpers/ipv4_datagram.cc:11-41 | parsing what was serialized gives header and payload back without error |
| `Ipv4Codec.NestedRoundTrip` | libsponge/tcp_helpers/ipv4_datagram.cc:11-41 | a segment wrapped with the header's pseudo checksum and unwrapped with the recovered one comes back unchanged apart from checksums |
| `Ipv4Codec.DatagramAccepted` | libsponge/tcp_helpers/ipv4_datagram.cc:11-21 | exactly which buffers are taken as datagrams |
| `Ipv4Codec.IpVerdictDropped` | libsponge/tcp_helpers/ipv4_datagram.cc:12-20 | exactly which buffers are taken although their header is refused |
| `Ipv4Codec.IpVerdictMeans` | libsponge/tcp_helpers/ipv4_header.cc:23-75 | which of the six results the header parser gives for any buffer, byte by byte |
| `Ipv4Codec.DatagramAcceptedBytes` | libsponge/tcp_helpers/ipv4_datagram.cc:11-21 | exactly which buffers are taken as datagrams, byte by byte |
| `Ipv4Codec.IpHeaderPadded` | libsponge/tcp_helpers/ipv4_header.cc:78-110 | which headers are refused, and how the others are filled to the length announced |
| `Ipv4Codec.DatagramWritten` | libsponge/tcp_helpers/ipv4_datagram.cc:23-41 | which datagrams are refused, and where the payload stands in the others |
| `Ipv4Codec.ChecksumWithoutEffect` | libsponge/tcp_helpers/ipv4_datagram.cc:13-20 | no header checksum, right or wrong, changes what a datagram parses to |
| `Ipv4Codec.ParseIpHeaderFrom` | libsponge/tcp_helpers/ipv4_header.cc:23-75 | every error case in the program's order |
| `Ipv4Codec.WriteIpHeader` | libsponge/tcp_helpers/ipv4_header.cc:78-110 | refuses a wrong version or a short header, else writes and pads |
| `Ipv4Codec.ParseDatagramBytes` | libsponge/tcp_helpers/ipv4_datagram.cc:11-21 | the payload's length is compared with the header's before the parser's error |
| `Ipv4Codec.SerializeDatagramBytes` | libsponge/tcp_helpers/ipv4_datagram.cc:23-41 | refuses a payload of the wrong size, else header with checksum, then payload |

## Left out

- StreamReassemblers.StreamReassembler.PushSubstring: asks that the offer does not trip the ring's assertion, as the code does; what happens with assertions compiled out is not modelled.
- TcpConnections.TcpConnection.SegmentReceived: asks the same of the segment; for a peer of the same kind this is proved in `Network.ArrivalPermitted`.
- Network.EndToEnd: packets arrive within 2^31 numbers of the receiver's position, which stands for the maximum segment lifetime; for streams below 2^31 `Network.ShortStreamsFresh` removes the condition. The probe clause is what stays true of a probe while it is on the way; where it goes when it is sent is `Delivery.NewSegmentsAimed`.
- Progress.AlwaysRecoverable: both endpoints are active, both timeouts are positive, and for each side with something outstanding the next expiry is neither the one that gives up nor, when it lingers after the peer's end, later than its stop. The first is exact, as `Exhaustion.RecoverableExactly` says. The second is only sufficient: a peer that still sends can prolong the lingering. That such a run exists is proved, not that the network takes it.
- Exhaustion.RecoverableExactly: asks that neither side stops lingering before its next expiry, for the same reason.
- TcpCodec.SegmentRoundTrip: segments of at most 65535 bytes and pseudo sums of at most 2^31, all that IPv4 can carry, so that the 32-bit sum does not overflow.
- Owners are taken to write nothing after ending a stream, which the stream itself does not refuse, and to call a connection only while it is active, as libsponge/tcp_helpers/tcp_sponge_socket.cc does; capacities are positive.
- 64-bit counters are unbounded naturals: no run reaches 2^64 sequence numbers. The one place where 64-bit arithmetic can wrap on small numbers, the reassembler's room, is modelled.
- Timing: what a call does is proved, not when calls happen.
- The initial sequence number is a parameter; its random choice is left out.
- The destructor's reset, and calls made after a connection was reset, when a segment stays in the sender's queue.
- Shared ownership in `Buffer` and `BufferList`: buffers are plain byte sequences.
- Printing functions and the named states of `TCPState`.
- Ethernet and ARP codecs, which copy fixed fields and would only add easy members.
- libsponge/network_interface.cc, which is an unimplemented stub.
- The event loop, file descriptors, sockets, TUN and TAP devices, applications and scripts; of the adapters only the wrapping of a segment in a datagram is touched on, not the filtering by address and port.
