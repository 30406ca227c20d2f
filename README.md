# QUIC datagrams and the HTTP/3 test stream, in Dafny

This project models two pieces of the neqo QUIC stack.

**The datagram engine `QuicDatagrams`** implements the unreliable-datagram
extension (RFC 9221). It does four things:

- It keeps the size limit the peer announced, capped at 65535.
- It keeps a bounded first-in-first-out queue of outgoing datagrams. When the
  queue is full, the oldest entry is dropped and reported.
- It drains that queue into a packet under construction. Each datagram becomes
  one DATAGRAM frame, with or without a Length field. The shape of both frames
  is section 4 of RFC 9221. The Length field is a variable-length integer as
  in section 16 of RFC 9000.
- It checks incoming datagrams against the size this endpoint accepts.

**The in-memory `Stream`** is what the HTTP/3 tests use. It has a send
buffer, a receive buffer, and flags and error slots. A separate function
classifies a stream by the role of the endpoint that opened it and by its
direction.

Layout:

- `common.dfy`: bytes, `u64`, `Option`, `Result`, and the transport error
  codes.
- `varint.dfy`: RFC 9000 variable-length integers. It has the encoding
  length, the encoder, a decoder, and the round trip between them.
- `datagram_frames.dfy`: the bytes of both DATAGRAM frame forms, and a parser
  for a run of such frames.
- `packet_builder.dfy` and `connection_events.dfy`: the two collaborators, as
  far as the engine uses them.
  - The packet builder is a byte log with a length limit.
  - The event sink is a record of the calls made on it.
- `quic_datagrams.dfy`: the engine. Its packet writer is specified by the pure
  function `Drain`, which gives the effect of one call:
  - the datagrams written and the frame form of each;
  - the queue left behind;
  - the datagram dropped, if any;
  - the room left in the packet.

  The method's loop is proved against `Drain`. The lemmas about `Drain` state
  what the writer promises.
- `stream_test.dfy`: the test stream and the stream-type classifier.

## Model

| member | source | states |
|---|---|---|
| Varint.VarintLen | neqo-transport/src/quic_datagrams.rs:93 | the Length field takes 1, 2, 4 or 8 bytes: the smallest size whose range holds the value |
| Varint.Encode | neqo-transport/src/quic_datagrams.rs:95-96 | an encoding has exactly the announced length and starts with the two-bit prefix naming that length |
| Varint.DecodeEncode | neqo-transport/src/quic_datagrams.rs:93-96 | decoding an encoded value gives back the value and the encoding's length, whatever bytes follow |
| Varint.Decode | neqo-transport/src/quic_datagrams.rs:95-96 | the receiver side of the encoder: a successful decode reads a valid varint length that fits in the input |
| DatagramFrames.FrameTypesAreOneByte | neqo-transport/src/quic_datagrams.rs:92 | both DATAGRAM frame types encode as a single byte, which is what the one-byte allowance for the type in the fit test counts on |
| DatagramFrames.FrameBytes | neqo-transport/src/quic_datagrams.rs:94-99 | a frame is 1 + varint length + data bytes with a Length field and 1 + data bytes without, and it starts with the type of its form |
| DatagramFrames.ParseWithLength | neqo-transport/src/quic_datagrams.rs:94-96 | a receiver reads back the payload of a frame with a Length field and parses what follows on its own; the frame parses exactly when what follows does |
| DatagramFrames.ParseImplicit | neqo-transport/src/quic_datagrams.rs:97-99 | a lone frame without a Length field is read back as exactly its payload |
| Datagrams.FrameFor | neqo-transport/src/quic_datagrams.rs:91-94 | a frame is written exactly when data + 1 bytes fit. It has a Length field exactly when the room is strictly larger than that frame. The chosen frame never exceeds the room |
| Datagrams.Drain | neqo-transport/src/quic_datagrams.rs:89-115 | the effect of one call on a queue, a room and the emptiness of the caller's token list. `written` holds the datagrams framed, in queue order, and `forms` the form of each frame (one per datagram). `rest` is the queue left behind. `dropped` is the datagram reported as too big, if any. `left` is the room left in the packet, never more than it had. No more datagrams are written or left than were queued |
| Datagrams.DrainSplitsQueue | neqo-transport/src/quic_datagrams.rs:89-113 | the queue is the datagrams written, then the one dropped, then the queue left, in order. A drop takes the head, and only when the caller's token list was empty and nothing was written |
| Datagrams.RestIsSuffix | neqo-transport/src/quic_datagrams.rs:89-115 | what was written is a prefix of the queue and what is left is a suffix of it, so the loop handles at most the initial queue length |
| Datagrams.DrainWithinBudget | neqo-transport/src/quic_datagrams.rs:91-101 | the frames written fit the room the packet had, at least one byte per datagram; the room left is what they did not use |
| Datagrams.DrainStopsAtMisfit | neqo-transport/src/quic_datagrams.rs:104-113 | writing stops only at a datagram that does not fit the room left. That datagram is dropped, or kept at the head when the packet already carried tokens |
| Datagrams.DrainMarkFullClosesPacket | neqo-transport/src/quic_datagrams.rs:97-100 | when the packet is closed after a frame without a Length field, that frame is the last one written |
| Datagrams.WireParses | neqo-transport/src/quic_datagrams.rs:94-99 | frames in which only the last may lack a Length field parse back to exactly their payloads, in order |
| Datagrams.DrainMarkFullParses | neqo-transport/src/quic_datagrams.rs:83-116 | with the correction, the bytes written parse back to exactly the datagrams written |
| Datagrams.DrainAsWrittenMisparses | neqo-transport/src/quic_datagrams.rs:97-103 | as written, a 64-byte and a 1-byte datagram with 67 bytes of room both go out without a Length field. A receiver then reads one datagram, not two |
| Datagrams.QuicDatagrams.constructor | neqo-transport/src/quic_datagrams.rs:56-70 | a new engine has remote size 0, an empty queue and the given local size, capacities and event sink |
| Datagrams.QuicDatagrams.RemoteDatagramSize | neqo-transport/src/quic_datagrams.rs:72-74 | the remote size never exceeds 65535 |
| Datagrams.QuicDatagrams.SetRemoteDatagramSize | neqo-transport/src/quic_datagrams.rs:76-78 | the remote size becomes min(v, 65535) (the constant at line 20) |
| Datagrams.QuicDatagrams.WriteFrames | neqo-transport/src/quic_datagrams.rs:83-116 | the call has exactly the effect `Drain` gives, in the source's form. The queue becomes what is left. The packet grows by the frames. One token and one count are added per datagram written. One DroppedTooBig event is posted per drop. The room left agrees |
| Datagrams.QuicDatagrams.WriteFramesMarkFull | neqo-transport/src/quic_datagrams.rs:83-116 | the same effect with the packet closed after a frame without a Length field |
| Datagrams.QuicDatagrams.Write | neqo-transport/src/quic_datagrams.rs:89-115 | the loop keeps the queue, the packet, the tokens, the counter and the events in step with `Drain` |
| Datagrams.QuicDatagrams.WriteFrame | neqo-transport/src/quic_datagrams.rs:90-101 | one frame is appended, in the form `FrameFor` picks, and the packet stays within its limit (the debug assertion at line 101) |
| Datagrams.QuicDatagrams.AddDatagram | neqo-transport/src/quic_datagrams.rs:125-140 | a datagram larger than the remote size is refused with TooMuchData and changes nothing. Otherwise it goes to the tail of the queue. When the queue was full, the old head is removed and exactly one DroppedQueueFull event is posted for it; when not full, no event. The queue never exceeds its capacity |
| Datagrams.QuicDatagrams.HandleDatagram | neqo-transport/src/quic_datagrams.rs:142-149 | a datagram larger than the local size is refused with ProtocolViolation and nothing is posted. Otherwise, even at exactly the local size, it is handed to the event sink once, with the incoming capacity |
| Events.ConnectionEvents.DatagramOutcome | neqo-transport/src/quic_datagrams.rs:108-109 | one outcome call appends one `(id, outcome)` record |
| Events.ConnectionEvents.AddDatagram | neqo-transport/src/quic_datagrams.rs:146-147 | one incoming-datagram call appends one `(max, data)` record |
| Packet.PacketBuilder.Remaining | neqo-transport/src/quic_datagrams.rs:91 | the room left is the limit minus the length, and zero once the limit is reached |
| Packet.PacketBuilder.EncodeVarint | neqo-transport/src/quic_datagrams.rs:95 | appends the varint encoding of the value |
| Packet.PacketBuilder.EncodeVvec | neqo-transport/src/quic_datagrams.rs:96 | appends the data's length as a varint, then the data |
| Packet.PacketBuilder.Encode | neqo-transport/src/quic_datagrams.rs:99 | appends the data as it is |
| Packet.PacketBuilder.MarkFull | neqo-transport/src/quic_datagrams.rs:97-100 | only for the correction: sets the limit to the current length, so no room is left |
| StreamTest.GetStreamType | neqo-http3/src/stream_test.rs:17-31 | the result is a client type exactly when the role is Client, and a unidirectional type exactly when the type is UniDi. Role and direction read back from the result |
| StreamTest.GetStreamTypeOnto | neqo-http3/src/stream_test.rs:17-31 | every one of the four stream types is the classification of its own role and direction |
| StreamTest.Stream.constructor | neqo-http3/src/stream_test.rs:106-118 | a new stream has all flags false, empty buffers, no errors and the given stream type |
| StreamTest.Stream.Send | neqo-http3/src/stream_test.rs:35-42 | the send buffer becomes the old one followed by `buf`. The data ready to send grows by its length, and all of it is accepted |
| StreamTest.Stream.SendDataReady | neqo-http3/src/stream_test.rs:40-42 | the count of bytes ready to send equals the send buffer's length |
| StreamTest.Stream.Close | neqo-http3/src/stream_test.rs:48-50 | sets the send-side-closed flag and nothing else |
| StreamTest.Stream.RecvDataReady | neqo-http3/src/stream_test.rs:54-56 | the count of bytes ready to read equals the receive buffer's length |
| StreamTest.Stream.ReadWithAmount | neqo-http3/src/stream_test.rs:60-67 | n = min(available, amount). The first n bytes of `buf` become the first n received bytes and the rest of `buf` is unchanged. The receive buffer loses exactly those n bytes |
| StreamTest.Stream.Read | neqo-http3/src/stream_test.rs:69-71 | a read with the whole of `buf` as the amount |
| StreamTest.Stream.Peek | neqo-http3/src/stream_test.rs:73-78 | the same count and the same bytes as a read of `amount`, with the receive buffer unchanged |
| StreamTest.Stream.InboundStreamFrame | neqo-http3/src/stream_test.rs:80-82 | always succeeds and changes nothing |
| StreamTest.Stream.NeedsFlowcUpdate | neqo-http3/src/stream_test.rs:83-85 | always answers None and changes nothing |
| StreamTest.Stream.StopSending | neqo-http3/src/stream_test.rs:87-89 | records the error as the stop-sending error and changes nothing else |
| StreamTest.Stream.ReceiveClose | neqo-http3/src/stream_test.rs:120-122 | sets the receive-side-closed flag and nothing else |
| StreamTest.Stream.Reset | neqo-http3/src/stream_test.rs:124-126 | records the error as the stream's error and changes nothing else |

## Left out

- Packet builder internals are not modelled: headers, buffer layout, and how the limit is computed.
  - The builder is a byte log with a limit.
  - `Remaining` is taken to be zero once the length reaches the limit; the builder's own code is not part of this model.
- Frame type values come from section 4 of RFC 9221: 0x30 without a Length field and 0x31 with one. The transport's frame module is not part of this model. The engine's proofs use only two facts about them: both encode as one byte, and they differ, which lets a receiver tell the two forms apart.
- The writer follows the code at quic_datagrams.rs:104-113, not the doc comment at lines 80-82. The comment says a datagram that does not fit is always dropped with a "DatagramLost" event. The code drops it only when the caller's token list is empty, and then posts `DroppedTooBig`; otherwise it keeps the datagram at the head of the queue.
- The event sink's own queue, eviction and delivery are not modelled; only the calls made on it are recorded.
- Recovery tokens that later resolve to Acked or Lost are not modelled, because that happens elsewhere in the transport. Only the `datagram` field of the frame statistics is modelled, as an unbounded counter; a `usize` overflow is not modelled.
- The `u64::try_from(..).unwrap()` conversions at quic_datagrams.rs:93, 126 and 143 are not modelled. They cannot fail on 64-bit targets, so lengths are plain naturals.
- The `Deref` of a queued datagram to its bytes is not modelled separately; the model reads `data` directly.
- The transport error enum is reduced to the two codes the engine raises, plus opaque tags for every other code.
- `Datagrams.QuicDatagrams.AddDatagram`: the panic of `pop_front().unwrap()` on a queue of capacity zero is a precondition, not a modelled failure. Accepting a datagram requires a capacity of at least one.
- `Datagrams.QuicDatagrams.Write`: a datagram that does not fit is left at the head of the queue. The source pops it and pushes it back, which leaves the same queue, so the model does not take that detour.
- `StreamTest.Stream.ReadWithAmount` and `StreamTest.Stream.Peek`: the panicking `assert!` on the buffer size is a precondition.
- `send_buffer` at stream_test.rs:44-46 is not modelled: it hands out a mutable reference to the otherwise unused `send_buf_tmp`. That is aliasing with no logic; the field is kept and stays empty.
- The shape of the `Sendable` and `Recvable` traits is not modelled, because their contracts are not visible here. The `as u64` conversions of buffer lengths are lossless, so counts are naturals.
- Roles are `Client` and `Server`, so "any role other than Client" is `Server`.

## Findings

| source | as written | input that shows it | evidently intended | confidence | as-written member | corrected member |
|---|---|---|---|---|---|---|
| neqo-transport/src/quic_datagrams.rs:97-103 | After a DATAGRAM frame without a Length field, the loop goes on to the next queued datagram. The room left is at most the width of the Length field it saved, so a small datagram can still fit. | Two queued datagrams, 64 zero bytes then `[42]`, with 67 bytes of room and no tokens. The first goes out without a Length field (67 is not more than 1 + 2 + 64), leaving 2 bytes. The second also goes out without one. A receiver reads a single 66-byte datagram: the first payload followed by `0x30, 42`. | A frame without a Length field runs to the end of the packet (section 4 of RFC 9221), so it must be the last frame. The packet is closed once it is written. | not executed | Datagrams.DrainAsWrittenMisparses, Datagrams.QuicDatagrams.WriteFrames | Datagrams.DrainMarkFullParses, Datagrams.QuicDatagrams.WriteFramesMarkFull |
