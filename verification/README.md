# A verified model of the rtsp-go stack

This project models the RTSP stack of the repository in Dafny and proves what its parts promise each
other: text formats that are stable under parsing and printing, binary frames that delimit themselves, a
session protocol in which clients, server and port allocator agree in every run, and an access decision
that follows rule priorities.

Each part comes twice. The parsers, printers, loops, allocators, handlers and client methods are methods
and classes with the source's own fields and loops; their contracts say that they compute a specification
function of the inputs or of the old state. The properties are lemmas about those functions.

| file | content |
|---|---|
| `Results.dfy`, `MapOrder.dfy` | results, options, and the arbitrary order in which Go visits a map |
| `GoStrings.dfy`, `Strconv.dfy` | the operations of Go's `strings` and `strconv` that the stack calls |
| `Sdp.dfy`, `SdpText.dfy`, `SdpObjects.dfy` | session descriptions (RFC 4566): lines, whole texts, and the mutable objects with their parser and printers |
| `SdpLines.dfy`, `MessageLines.dfy`, `MessageLayouts.dfy`, `TransportLines.dfy` | what the parsers make of arbitrary text, printed or not, line by line and part by part |
| `Message.dfy`, `MessageObjects.dfy` | RTSP messages (section 4 of RFC 2326) |
| `MessageStream.dfy` | the proxy's message reader and writer on a connection (section 4.4 of RFC 2326) |
| `Transport.dfy`, `Negotiation.dfy` | the Transport header (section 12.39 of RFC 2326) and the port pair it carries |
| `Bytes.dfy`, `Rtp.dfy` | RTP packets bit by bit (section 5.1 of RFC 3550) |
| `Interleaved.dfy`, `MediaStream.dfy` | interleaved frames (section 10.12 of RFC 2326), and the media run through send and receive loop |
| `Ports.dfy`, `Channels.dfy` | the UDP port allocator and the TCP channel allocator |
| `Protocol.dfy`, `SessionObjects.dfy` | server handlers and client methods, runs of any number of clients, and the objects behind them |
| `Deliveries.dfy` | arbitrary messages on arbitrary connections |
| `Replies.dfy` | what any request is answered in any state, as a value and as text, and what a whole history of requests leaves |
| `Requests.dfy`, `Exchanges.dfy` | the exchanges of the protocol as text: request and reply printed, carried, read and handled |
| `Acl.dfy` | the proxy's access rules |

Conventions. A `string` is a sequence of bytes, one `char` each; `TrimSpace` strips the UTF-8 encodings of
all Unicode white space, as Go does. Go's `int` has 64 bits. `uint8` to `uint64` are ranges with explicit
wrap-around. A map is printed in an arbitrary order of its keys, so a printer's result is a relation
(`IsPrinting`) and the theorems hold for every order. Where Go would panic on an index, the model has an
outcome of its own. The identifiers `PortMux` in `rtspProtocon/port_manager.go` are read as `PortMutex`.

## Where the code does less than one would expect

- `ParseSDP` panics on an `a=rtpmap` value without a slash once there is a media section
  (`SdpText.SlashlessRTPMap` has such a text); `SdpText.ParseFailsExactly` says exactly when.
- `ParseMessage` keeps only the first line of a body: a longer body is cut (`RTSPMessage.SecondLineIsLost`,
  `MessageStream.BodyIsCut`), and of the description in a DESCRIBE reply the client keeps the version
  (`Exchanges.DescribeKeepsVersion`). `RTSPMessage.ExactRoundTrip` and `MessageStream.ReadExactly` say exactly
  which messages come back unchanged from the parser and from a connection.
- `ParseTransport` tests `RTP/AVP` before `RTP/AVP/TCP` and never reports interleaved transport
  (`TransportHeader.ParsedInRange`); a client that asks for it gets UDP ports
  (`Exchanges.TCPRequestGetsPorts`). Parse, print and parse is not stable for a value that ends in white
  space before a second equals sign, nor for a negative TTL; `TransportHeader.RoundTrip` gives the exact
  condition, `SpaceBeforeSecondEquals` and `NegativeTtl` two such headers.
- `ParseTCPInterleavedFrame` adds 4 to the length in 16 bits and panics on every length above 65531
  (`Interleaved.BufferRefinesStream`, and `Interleaved.FirstPanic` for the bytes).
- `cleanupExpiredPorts` drops all marks, so a pair that is in use can be handed out again: a new pair is sure to
  be unmarked exactly when no cleanup is due or nothing in the range is marked (`Ports.FreshExactly`).
  `Ports.HandedOutTwice` and `Protocol.CleanupSharesPorts` show it happening. Over runs, ports are safe if and only if
  no cleanup drops marks (`Protocol.PortSafetyExactly`); agreement between client and server does not depend on it.
- A pair is not released when its connection has meanwhile used TCP, taken another pair or been replaced
  (`Protocol.ReleasedExactly`); such a pair stays marked for ever (`Protocol.LostForever`).
- A second TEARDOWN on a connection releases the recorded pair again, whoever has it by then
  (`Deliveries.SecondTeardown`). The repository's client never sends one; for arbitrary messages
  `Deliveries.PortsOverDeliveries` says exactly when ports stay safe.
- A body length that differs from Content-Length shifts the message boundary (`MessageStream.ConsumedExactly`,
  with an example in `MessageStream.LengthOneShort`).

## Model

| member | source | states |
|---|---|---|
| SdpText.NormalForm | rtspProtocon/sdp.go:116-406 | for every accepted text and every order of attributes and rtpmaps, printing the result and parsing again gives the identical description, session and media level |
| SdpText.ExactRoundTrip | rtspProtocon/sdp.go:116-406 | a description, parsed from any of its printings, is recovered if and only if it is well-formed |
| SdpText.RangeIsWellFormed | rtspProtocon/sdp.go:242-406 | the descriptions ParseSDP can return are exactly the well-formed ones |
| SdpText.ParseFailsExactly | rtspProtocon/sdp.go:357-366 | ParseSDP hits the unguarded index exactly when an rtpmap line without a slash follows some m= line |
| SdpText.SlashlessRTPMap | rtspProtocon/sdp.go:357-366 | a text of two lines on which the index fails; without its m= line it is accepted |
| SdpText.VideoSDPRoundTrip | rtspProtocon/sdp.go:409-449 | CreateVideoSDP's description is recovered from each printing exactly when the address holds no space and no line break and the port and both clock readings fit 64 bits |
| SdpText.VideoSDPText | rtspProtocon/sdp.go:409-449 | the nine lines of its text, word by word, the same in every order of its maps |
| SdpText.ParsedWellFormed | rtspProtocon/sdp.go:248-403 | every line handler keeps the description well-formed |
| SdpText.ItemsRebuild | rtspProtocon/sdp.go:116-239 | the printed lines, in any map order, rebuild the description from the empty one |
| SdpText.ScopedLines | rtspProtocon/sdp.go:246-400 | after an m= line, the i, c, b and a lines change only the current media |
| Sdp.LineRoundTrip | rtspProtocon/sdp.go:116-239 | each kind of line is read back as what was written |
| Sdp.DecodeOk | rtspProtocon/sdp.go:256-402 | whatever a line holds, the values taken from it contain none of the separators |
| SdpLines.EnoughWords | rtspProtocon/sdp.go:263-345 | m=, o=, c= and t= lines count if and only if they have at least four, six, three and two words |
| SdpLines.ExtraWords | rtspProtocon/sdp.go:263-399 | further words behind those change nothing |
| SdpLines.MediaLineMeans | rtspProtocon/sdp.go:388-400 | the media of any m= line, by its words |
| SdpLines.OriginLineMeans | rtspProtocon/sdp.go:263-278 | the origin of any o= line; a number that is none counts as its value with the error ignored |
| SdpLines.AttributeLineMeans | rtspProtocon/sdp.go:348-387 | any a= line: the name up to the first colon, the value up to the second, and nothing of what follows |
| SdpLines.RTPMapLineMeans | rtspProtocon/sdp.go:357-380 | the payload, name, clock rate and parameters of any rtpmap line, whatever follows them |
| SdpLines.LineEffect | rtspProtocon/sdp.go:242-406 | what one more line at the end of any text changes, by the kind of the line, at session or media level |
| SdpLines.PrintedInOrder | rtspProtocon/sdp.go:116-239 | sections are printed in the order of section 5 of RFC 4566 |
| SdpObjects.ParseSDP | rtspProtocon/sdp.go:242-406 | the loop over the lines, with the alias of the current media, builds a fresh object that stands for the parsed description, or fails where the index fails |
| SdpObjects.SessionDescription.ParseLine | rtspProtocon/sdp.go:253-402 | one line changes the object as the line says and keeps the current media the last of the list |
| SdpObjects.SessionDescription.ToString | rtspProtocon/sdp.go:116-189 | the text is one of the printings of the object's value |
| SdpObjects.MediaDescription.ToString | rtspProtocon/sdp.go:192-239 | the text is the media section for some order of its two maps |
| RTSPMessage.NormalForm | rtspProtocon/protocol.go:143-233 | for every accepted text and every header order, printing the message and parsing again returns it, requests and responses alike |
| RTSPMessage.ExactRoundTrip | rtspProtocon/protocol.go:143-233 | a message is recovered from a printing if and only if it is well-formed |
| RTSPMessage.RangeIsWellFormed | rtspProtocon/protocol.go:168-233 | the messages ParseMessage can return are exactly the well-formed ones |
| RTSPMessage.ParsePrinted | rtspProtocon/protocol.go:143-233 | parsing a printing recovers first line and headers, and the first line of the body |
| RTSPMessage.SecondLineIsLost | rtspProtocon/protocol.go:227-230 | a message with a body of two lines that comes back with the first |
| RTSPMessage.OneHeaderText | rtspProtocon/protocol.go:143-165 | the layout of a printed request and a printed response |
| MessageLines.RequestLineMeans | rtspProtocon/protocol.go:183-204 | any first line of a request: its first three words, whatever follows |
| MessageLines.StatusLineMeans | rtspProtocon/protocol.go:183-197 | any first line of a response: the code must be a number, and the text is all that follows |
| MessageLines.ShortFirstLine | rtspProtocon/protocol.go:183-186 | a first line is refused if and only if it has fewer than three words |
| MessageLines.HeaderLineMeans | rtspProtocon/protocol.go:215-224 | a header line stores what follows its first colon, trimmed, under the trimmed text before it |
| MessageLines.SpacingDoesNotMatter | rtspProtocon/protocol.go:221-223 | any white space of ASCII around name and value, or none, gives the same header |
| MessageLines.ParsedLines | rtspProtocon/protocol.go:168-233 | the message of any first line, header lines and body, each line ending in LF or CR LF |
| MessageLines.OneMoreHeader | rtspProtocon/protocol.go:205-224 | one more header line replaces the header of that name and leaves every other part of the message |
| MessageObjects.ParseMessage | rtspProtocon/protocol.go:168-233 | the reading loop fills a fresh object with the parsed message, or reports the same error |
| MessageObjects.MessageObject.ToString | rtspProtocon/protocol.go:143-165 | the text is one of the printings of the message |
| MessageObjects.MessageObject.SetHeader | rtspProtocon/protocol.go:133-135 | stores one header and leaves the rest of the message alone |
| MessageStream.StreamFraming | proxy/rtsp_io.go:44-108 | for any list of framed messages, repeated ReadMessage on the concatenated output returns each of them as it is seen through its lines, with its body cut at the first one, and consumes nothing else |
| MessageStream.ConsumedExactly | proxy/rtsp_io.go:63-75 | a message whose first line and headers are single lines is consumed with nothing left over or missing if and only if the length it announces, in whatever line, is the length of its body |
| MessageStream.LengthOneShort | proxy/rtsp_io.go:63-75 | a Content-Length one short leaves the last byte of the body in front of the next message |
| MessageStream.BodyIsCut | proxy/rtsp_io.go:77-83 | a body of two lines is consumed whole and returned without the second |
| MessageStream.ReadExactly | proxy/rtsp_io.go:44-98 | a written message is read back unchanged, with what follows it untouched, if and only if it is well-formed, announces the length of its body, and its first line does not end in CR |
| MessageStream.ReadPrinted | proxy/rtsp_io.go:44-84 | what one ReadMessage does with a written message, whatever length it announces and whatever follows it |
| MessageStream.RTSPReader.ReadMessage | proxy/rtsp_io.go:44-84 | the line loop and the body read return and leave on the connection what the specification says |
| MessageStream.RTSPReader.GetContentLength | proxy/rtsp_io.go:101-108 | the value on the first line named Content-Length, in any capitals |
| MessageStream.RTSPWriter.WriteMessage | proxy/rtsp_io.go:87-98 | appends one printing of the message to the output |
| MessageLayouts.ReadAnyLayout | proxy/rtsp_io.go:44-84 | one read of any lines, a blank line and a rest: the announced length decides between an error that uses up the connection and a message that leaves exactly the bytes behind its body |
| MessageLayouts.EndsDoNotMatter | proxy/rtsp_io.go:48-60 | it does not matter whether lines end in LF, or with how many CRs before it |
| MessageLayouts.HeadersCut | proxy/rtsp_io.go:48-52 | a connection that ends before the blank line gives an error and keeps nothing |
| MessageLayouts.NameMeans | proxy/rtsp_io.go:101-108 | a line announces the length if and only if its name is Content-Length with each letter small or capital |
| MessageLayouts.FirstLengthCounts | proxy/rtsp_io.go:101-108 | of several such lines the first decides |
| MessageLayouts.LengthMeans | proxy/rtsp_io.go:63-66 | for every text of the value: the number of body bytes it asks for |
| TransportHeader.RoundTrip | rtspProtocon/protocol.go:253-345 | over all transport values, printing and parsing returns the value if and only if the parser can produce it, no field ends in white space and the TTL is not negative |
| TransportHeader.NormalForm | rtspProtocon/protocol.go:253-345 | for a header, parse-print-parse is stable exactly when the parsed value is settled, and its normal form always is |
| TransportHeader.ReparseIsNormal | rtspProtocon/protocol.go:253-345 | what a parsed transport becomes after one printing and parsing |
| TransportHeader.ParsedInRange | rtspProtocon/protocol.go:258-290 | every parsed transport is RTP with exactly one cast, and its fields are free of separators and of earlier keywords |
| TransportHeader.ParseTransport | rtspProtocon/protocol.go:253-293 | the loop over the parts computes the specified transport |
| TransportLines.OneMorePart | rtspProtocon/protocol.go:258-290 | one more part at the end of any header acts on what the header said before, without the white space around it |
| TransportLines.PartMeans | rtspProtocon/protocol.go:261-289 | the effect of any part with an equals sign: the first of ten keywords that occurs in it names the field, the text between the first two equals signs is the value, a TTL that is no number and a part without keyword do nothing |
| TransportLines.PlainPartMeans | rtspProtocon/protocol.go:261-280 | the effect of any part without an equals sign |
| TransportHeader.PrintTransport | rtspProtocon/protocol.go:296-345 | the builder's text is the specified list of parts, joined |
| TransportLines.FullHeader | rtspProtocon/protocol.go:296-345 | the order and the keywords of a printed header that has all its fields |
| TransportHeader.NoIndexPanic | rtspProtocon/protocol.go:267-288 | the index after a split at the equals sign is in range whenever the keyword matched; the parsing loop takes the value by that index |
| TransportHeader.SpaceBeforeSecondEquals | rtspProtocon/protocol.go:273-274 | a concrete header for which parse-print-parse is not stable |
| TransportHeader.NegativeTtl | rtspProtocon/protocol.go:281-284 | a concrete header whose TTL is lost |
| TransportHeader.InterleavedReadsAsRTP | rtspProtocon/protocol.go:261-266 | a transport printed as interleaved is read back as RTP, its fields kept |
| TransportHeader.UDPHeader | client/client.go:150-170 | the text of the client's Transport header for UDP, with fixed and with dynamic ports |
| TransportHeader.TCPHeader | client/client.go:150-170 | and for interleaved transport |
| TransportHeader.PrintedIsTrimmed | rtspProtocon/protocol.go:296-345 | a transport whose fields do not end in white space is printed without any at either end |
| TransportHeader.TrimmedReadsSame | rtspProtocon/protocol.go:258-345 | whatever its fields end in and whatever its TTL, a header line carries the printed text so that the same transport is read |
| Negotiation.ClientSeesServerPair | server/server.go:302-309 | for every request header and allocated pair, the pair the client extracts from the reply is the server's pair if and only if the RTP port is not negative |
| Negotiation.ReplyCarriesPorts | client/client.go:187-232 | the ports text survives the reply header, and neither side takes the TCP branch |
| TransportLines.PairMeans | client/client.go:215-232 | the client reads the first two numbers of any server ports, and none without a hyphen |
| Rtp.PacketRoundTrip | rtspProtocon/rtp.go:60-169 | parsing a marshalled packet returns it if and only if version, payload type and CC fit their bits and CC is the number of sources |
| Rtp.BytesRoundTrip | rtspProtocon/rtp.go:90-169 | marshalling the parse of accepted bytes returns exactly those bytes |
| Rtp.FixedPart | rtspProtocon/rtp.go:64-77 | the two packed bytes and, byte by byte with the first weighing most, sequence number, timestamp and source |
| Rtp.SourceAt | rtspProtocon/rtp.go:80-85 | where each source stands, also when CC and the list of sources differ |
| Rtp.PackedBits | rtspProtocon/rtp.go:64-68 | the two packed bytes bit by bit, for all field values |
| Rtp.RefusedExactly | rtspProtocon/rtp.go:90-166 | data is refused if and only if it ends within the fixed part or within the announced sources |
| Rtp.MarshalHeader | rtspProtocon/rtp.go:60-87 | the filled buffer is the specified header: bit fields, big-endian numbers, listed sources, zero slots |
| Rtp.MarshalPacket | rtspProtocon/rtp.go:142-148 | header bytes followed by the payload |
| Rtp.ParseHeader | rtspProtocon/rtp.go:90-125 | the masks, shifts and the CSRC loop give the specified header |
| Rtp.ParsePacket | rtspProtocon/rtp.go:151-169 | the header, then the rest as payload, with both length errors |
| Interleaved.StreamRoundTrip | rtspProtocon/tcp_transport.go:72-155 | reading the concatenation of any list of faithful frames gives that list and then an empty stream |
| Interleaved.StreamInjective | rtspProtocon/tcp_transport.go:72-155 | different lists of frames never give the same bytes |
| Interleaved.FrameRoundTrip | rtspProtocon/tcp_transport.go:84-155 | one frame is read back, and what follows is untouched, if and only if its header describes its data |
| Interleaved.ReadExactly | rtspProtocon/tcp_transport.go:127-155 | for every input, which of the three errors or which frame, and what stays on the connection |
| Interleaved.NewFrameRoundTrip | rtspProtocon/tcp_transport.go:72-81 | for NewTCPInterleavedFrame that is exactly data of at most 65535 bytes |
| Interleaved.BufferRefinesStream | rtspProtocon/tcp_transport.go:99-155 | buffer parser and stream reader agree if and only if the length field is at most 65531; above it the buffer parser panics |
| Interleaved.HeaderOfBytes | rtspProtocon/tcp_transport.go:84-96 | the four header bytes of a marshalled frame, the length with its high byte first, and the data behind them |
| Interleaved.MarshalFrame | rtspProtocon/tcp_transport.go:84-96 | the filled buffer is the specified frame |
| Interleaved.ParseFrame | rtspProtocon/tcp_transport.go:99-125 | the checks with 16-bit addition, including the slice that ends before it starts |
| Interleaved.ReadFrame | rtspProtocon/tcp_transport.go:128-155 | two full reads give the specified frame or error and leave the specified rest |
| MediaStream.EndToEnd | server/server.go:516-547 | the stream of a run is read back as sent and used up; an even channel delivers every packet, the k-th with payload type 96, sequence (1+k) mod 2^16, timestamp (t0+3600k) mod 2^32 and the text of its sequence number as payload; both byte counters hold the stream length modulo 2^64 |
| MediaStream.SendLoop | server/server.go:516-547 | the loop writes exactly the due frames and counts them |
| MediaStream.ReceiveLoop | client/client.go:507-556 | for as many rounds as the client keeps playing, the loop takes exactly the packets of the readable frames on its channel and updates both statistics |
| MediaStream.MediaRun | client/client.go:507-556 | sending and then receiving over one connection, for any channel and any number of rounds: the packets taken, and both byte counters |
| MediaStream.PacketsOfDue | rtspProtocon/tcp_transport.go:173-179 | all packets arrive on an even channel and none on an odd one |
| MediaStream.PacketsConcat | client/client.go:507-540 | what is taken from any frames is taken from each alone, so that frames of other channels do not matter |
| MediaStream.PacketOfFrame | client/client.go:521-527 | a frame gives a packet if and only if it is on the client's channel, that is even, and its data is a packet |
| MediaStream.FramesSent | rtspProtocon/tcp_transport.go:209-219 | over any frames, the counters of frames and of their kinds, modulo 2^64 |
| MediaStream.FramesReceived | rtspProtocon/tcp_transport.go:222-232 | and on the receiving side |
| MediaStream.PacketsCounted | rtspProtocon/rtp.go:187-192 | over any packets, their number and bytes modulo 2^32, and the fields of the last |
| MediaStream.TCPTransportStats.UpdateSent | rtspProtocon/tcp_transport.go:209-219 | frame, byte and channel-kind counters, wrapping at 2^64 |
| MediaStream.TCPTransportStats.UpdateReceived | rtspProtocon/tcp_transport.go:222-232 | the same for received frames |
| MediaStream.RTPStats.UpdateReceived | rtspProtocon/rtp.go:187-192 | packet and payload counters, wrapping at 2^32, and the last sequence and timestamp |
| Ports.ScanIsLeast | rtspProtocon/port_manager.go:139-160 | whatever the system says, the scan finds the least available aligned pair and fails only when there is none |
| Ports.RoomExactly | rtspProtocon/port_manager.go:132-161 | with nothing busy outside, allocation succeeds if and only if fewer pairs are live than floor((End-Start+1)/2) |
| Ports.CapacityOfRun | rtspProtocon/port_manager.go:132-170 | after every run of allocations and releases the marks are exactly the live pairs, and the capacity is still exact |
| Ports.RetryIsFresh | rtspProtocon/port_manager.go:49-68 | with retries, as long as no attempt drops marks, a new pair avoids every used port and adds just itself |
| Ports.RetryAfterDrop | rtspProtocon/port_manager.go:49-68 | when an attempt drops marks, all are dropped, and only the new pair is marked afterwards |
| Ports.FirstSuccess | rtspProtocon/port_manager.go:49-68 | the attempt that counts is the first that finds a pair, and its time is the allocation's |
| Ports.NextCleanup | rtspProtocon/port_manager.go:200-212 | after each allocation, when exactly the next cleanup is due |
| Ports.FreshExactly | rtspProtocon/port_manager.go:132-212 | whatever the system lets be bound, a new pair avoids every marked port if and only if no cleanup is due or no pair of the range is marked |
| Ports.HandedOutTwice | rtspProtocon/port_manager.go:200-212 | a marked pair that is handed out again five minutes after the last cleanup, and is not a nanosecond before |
| Protocol.CleanupSharesPorts | server/server.go:271-304 | with a cleanup between two SETUPs, two stored sessions are given the same ports |
| Ports.PortManager.AllocatePorts | rtspProtocon/port_manager.go:132-161 | cleanup, scanning loop and marking change the fields as specified |
| Ports.PortManager.AllocatePortsWithRetry | rtspProtocon/port_manager.go:49-68 | the first successful attempt counts, and no attempt gives an error |
| Ports.PortManager.ReleasePorts | rtspProtocon/port_manager.go:164-170 | removes the marks of the pair and nothing else |
| Ports.PortManager.IsPortAvailable | rtspProtocon/port_manager.go:173-197 | not marked, in range, and the system agrees |
| Ports.PortManager.CleanupExpiredPorts | rtspProtocon/port_manager.go:200-212 | drops all marks when five minutes have passed, and otherwise does nothing |
| Ports.PortManager.SetPortRange | rtspProtocon/port_manager.go:235-277 | accepts exactly the ranges that validate, and keeps the old ones otherwise |
| Ports.RangesOkExactly | rtspProtocon/port_manager.go:235-253 | ranges validate if and only if both hold a port and none below 1024 or above 65535 |
| Channels.NextOfRun | rtspProtocon/tcp_transport.go:47-59 | after any run, the next RTP channel is 2*(k mod 128) for k allocations so far, even, with RTCP one above |
| Channels.OverlapExactly | rtspProtocon/tcp_transport.go:47-59 | allocations i < j overlap exactly when 128 divides j-i |
| Channels.DisjointExactly | rtspProtocon/tcp_transport.go:47-64 | in every run, live channels are disjoint exactly when no two live allocations are a multiple of 128 apart |
| Channels.PromptIsDisjoint | rtspProtocon/tcp_transport.go:47-64 | they are disjoint when each session is released before the 128th allocation after it |
| Channels.TCPTransportManager.AllocateChannel | rtspProtocon/tcp_transport.go:47-59 | takes the next pair, stores it for the session and advances the byte counter |
| Channels.TCPTransportManager.ReleaseChannel | rtspProtocon/tcp_transport.go:62-64 | forgets the channel of one session |
| Protocol.AgreementOverRuns | client/client.go:144-341 | in every run of any number of clients with fresh session IDs, whatever the clock and the ports, a held session is stored by the server in the same state, distinct clients hold distinct sessions, and no stored session is Init or Recording |
| Protocol.PortSafetyOverRuns | server/server.go:259-398 | in every run in which no cleanup drops marks, the marks are the disjoint union of the pairs handed out and not released, no pair is released twice, stored sessions share no port, and each client knows exactly its pair |
| Protocol.PortSafetyExactly | rtspProtocon/port_manager.go:132-212 | port safety holds in every state of a run if and only if no SETUP of it drops the marks of used ports |
| Protocol.StepAgrees | client/client.go:50-341 | every event keeps the agreement of clients and server |
| Protocol.RunSafe | server/server.go:259-398 | the joint invariant of server, clients, marks and history holds in every state of a run that drops no marks |
| Protocol.StartSessionSucceeds | client/client.go:583-613 | on a fresh server the five calls of StartSession are such a run for every Transport header: it ends Playing on both sides, with the first pair of the range and four requests counted |
| Deliveries.AnyRequestsKeepHeld | server/server.go:210-398 | whatever messages anybody sends, in any order, no stored session is ever Init or Recording |
| Deliveries.DeliveryExactly | server/server.go:259-398 | a message keeps the ports safe if and only if it is not a TEARDOWN that releases a pair a second time, or that of another stored session |
| Deliveries.PortsOverDeliveries | server/server.go:210-398 | over arbitrary messages on arbitrary connections, ports are safe throughout if and only if every TEARDOWN is of that kind |
| Deliveries.SecondTeardown | server/server.go:375-398 | a connection that tears down twice makes two stored sessions share their ports, without any cleanup |
| Replies.StreamNameIsLast | server/server.go:400-408 | the stream of a URL is what follows its last slash |
| Replies.DescribeReplies | server/server.go:239-256 | DESCRIBE is granted if and only if the server has the stream of that name, not found otherwise, and changes nothing |
| Replies.SetupReplies | server/server.go:259-314 | for every request: refused without a header, unavailable without a pair, granted otherwise, and the session is stored in both of the latter cases |
| Replies.ChannelReplies | server/server.go:283-291 | over TCP the next two channels are stored and named in the reply, and no port is touched |
| Replies.StateReplies | server/server.go:317-372 | PLAY and PAUSE are granted if and only if the named session is stored, not found if it is not, bad without one; nothing changes unless granted, and then only that session |
| Replies.TeardownReplies | server/server.go:375-398 | TEARDOWN is always granted, the named session is gone and the others are untouched |
| Replies.TeardownReleases | server/server.go:382-392 | exactly which channel and which ports are given back |
| Replies.PublicIsHandled | server/server.go:210-236 | any other method than the six is refused and changes nothing |
| Replies.StateSeen | server/server.go:317-372 | what a client sees of PLAY and PAUSE by text, for any framed request |
| Replies.DescribeSeen | server/server.go:239-256 | and of DESCRIBE |
| Replies.RefusalText | server/server.go:225-266 | a refusal is exactly the line of its status and a blank line |
| Replies.GrantedText | server/server.go:345-397 | the exact texts of the replies to PLAY, PAUSE and TEARDOWN |
| Replies.DescribedText | server/server.go:251-256 | the exact text of the reply to DESCRIBE, with type and length of the description |
| Replies.RequestText | client/client.go:97-104 | the exact text of a request without headers of its own |
| Replies.SessionsOfHistory | server/server.go:210-398 | after any requests from any connections, each session is in the state that the requests alone tell |
| Replies.PlaysExactly | server/server.go:210-372 | so PLAY and PAUSE are granted if and only if some SETUP started the session and no later TEARDOWN named it |
| Replies.EveryChangeCounts | client/client.go:258-315 | any number of PLAY and PAUSE in a row: each is counted modulo 2^16, and both sides end in the last state |
| Protocol.SetupStep | server/server.go:259-314 | SETUP keeps the invariant: idle, TCP, refused and granted, repeated or mixed on one connection |
| Protocol.TeardownStep | server/server.go:375-398 | TEARDOWN keeps it: what it releases is live and belongs to the client's session |
| Protocol.ReleasedExactly | server/server.go:375-398 | in every reachable state, TEARDOWN releases the pair its session was given if and only if the connection is not on TCP and still records that pair |
| Protocol.LostForever | server/server.go:271-398 | a pair that was not released when its session went stays marked for as long as no cleanup drops marks |
| Protocol.StateStep | server/server.go:317-372 | PLAY and PAUSE keep it |
| Protocol.DisconnectStep | client/client.go:74-93 | so does disconnecting |
| SessionObjects.RTSPServer.HandleSetup | server/server.go:271-314 | the handler changes sessions, connection and allocators, and replies, as specified |
| SessionObjects.RTSPServer.HandleMessage | server/server.go:210-398 | the dispatch on the method of a message, up to the whole response with its headers and body; unknown methods are refused |
| SessionObjects.RTSPServer.HandleSetupHeader | server/server.go:259-269 | the same from the header text; a missing header is refused without any change |
| SessionObjects.RTSPServer.HandleState | server/server.go:317-372 | moves exactly the named session to Playing or Ready, or refuses |
| SessionObjects.RTSPServer.HandleTeardown | server/server.go:375-398 | deletes the session and releases the channel or the pair of the connection |
| SessionObjects.RTSPClient.Setup | client/client.go:144-255 | one SETUP exchange, its header built from the client's modes, changes client, connection and server as the step of the protocol says |
| SessionObjects.RTSPClient.SetupWith | client/client.go:172-255 | the same for any transport the server is taken to have read, interleaved ones included |
| SessionObjects.RTSPClient.AcceptSetup | client/client.go:177-254 | what the client takes from the reply; no reply makes it switch to TCP or gives it a channel |
| SessionObjects.RTSPClient.ChangeState | client/client.go:258-315 | PLAY and PAUSE exchanges |
| SessionObjects.RTSPClient.Teardown | client/client.go:318-341 | TEARDOWN exchanges; without a session nothing is sent |
| SessionObjects.Session.UpdateState | rtspProtocon/protocol.go:247-250 | sets the state |
| Requests.RequestArrives | client/client.go:258-266 | each request of the client, printed in any header order, is read back unchanged, and what follows it stays on the connection |
| Requests.RequestIsHandled | server/server.go:210-227 | each of the six requests of the client is handled by the step of the protocol that belongs to its method |
| Exchanges.ExchangeIsHandler | server/server.go:124-150 | request printed, read, handled, reply printed, read: for every framed request the possible outcomes are exactly the handler's result on the request as it arrives, its reply seen through header lines, in every header order |
| Exchanges.SetupTextStep | client/client.go:144-255 | Setup through the text of both messages has exactly the outcome of the protocol's step, for every Transport header |
| Exchanges.StateTextStep | client/client.go:258-315 | so do Play and Pause |
| Exchanges.TeardownTextStep | client/client.go:318-341 | and Teardown |
| Exchanges.TextStepIsStep | client/client.go:50-341 | every event of a client by text is the step of the protocol: it can always be done, and has no other outcome |
| Exchanges.TextRunIsRun | client/client.go:50-341 | a run by text, each exchange in its own surroundings, is a run of the protocol |
| Exchanges.RunIsTextRun | client/client.go:50-341 | and each run of the protocol over such events can be done by text |
| Exchanges.SafetyByText | server/server.go:124-398 | everything that happens by text from the start of the server: client and server agree, and ports are safe if no cleanup drops marks |
| Exchanges.SetupAcceptsSeen | client/client.go:177-254 | the client takes from a SETUP reply seen through header lines what it would take from the reply itself |
| Exchanges.DescribeKeepsVersion | client/client.go:133-138 | whatever the stream's description, the client ends up with the empty one and its version |
| Exchanges.ClientHeader | client/client.go:150-170 | the client's Transport header survives a header line, and the server reads it as RTP whatever was asked |
| Exchanges.TCPRequestGetsPorts | server/server.go:283-306 | asking for interleaved transport allocates a port pair and no channel |
| Exchanges.ResponseIsFramed | server/server.go:306-398 | every reply of the handlers, the one to DESCRIBE with its body included, survives the connection |
| Acl.DecisionByPriority | proxy/auth_manager.go:206-255 | past the early exits, the decision is the action of an enabled matching rule that no other enabled matching rule outranks, or the default when none matches |
| Acl.EarlyExits | proxy/auth_manager.go:190-204 | while authentication is required a request without a username is refused, and an open manager allows every request |
| Acl.AllowedAreNamed | proxy/auth_manager.go:185-256 | over every run with authentication required, requests without a username leave the count of allowed requests as it is without them |
| Acl.OpenAllowsAll | proxy/auth_manager.go:190-196 | over every run of an open manager, every request is allowed |
| Acl.DecisionIsUnique | proxy/auth_manager.go:224-242 | when the highest matching rules agree, ties do not matter |
| Acl.SortedIsSorted | proxy/auth_manager.go:215-221 | the exchange sort is a permutation in non-increasing priority |
| Acl.MatchIPIsPattern | proxy/auth_manager.go:291-316 | an address rule is exactly a dot-separated pattern with stars |
| Acl.PatternOfParts | proxy/auth_manager.go:291-316 | for addresses given by their parts: stars in the rule, and only there, stand for one part each |
| Acl.EachCondition | proxy/auth_manager.go:259-288 | what each condition of a rule alone matches: a path that goes on, the method, the pattern, a known user who holds the group |
| Acl.AllConditions | proxy/auth_manager.go:259-288 | a rule matches exactly what each of its conditions matches |
| Acl.CountersOfRun | proxy/auth_manager.go:185-256 | over every run of checks and edits, each counter grows by the requests it stands for, modulo 2^64 |
| Acl.TotalIsSum | proxy/auth_manager.go:185-256 | total equals allowed plus denied in every run |
| Acl.AuthManager.CheckAccess | proxy/auth_manager.go:185-256 | returns the decision, changes nothing but the counters, and leaves the stored rules alone |
| Acl.AuthManager.SortRules | proxy/auth_manager.go:210-221 | the nested loops sort a copy as specified |
| Acl.AuthManager.MatchACLRule | proxy/auth_manager.go:259-288 | all four conditions of a rule |
| Acl.AuthManager.CheckIP | proxy/auth_manager.go:291-316 | the address test and its loop |
| Acl.AuthManager.UserInGroup | proxy/auth_manager.go:319-326 | membership of the permission list |
| Acl.AuthManager.AddACLRule | proxy/auth_manager.go:154-166 | appends one rule, with an ID from the clock |
| Acl.AuthManager.RemoveACLRule | proxy/auth_manager.go:169-182 | removes the first rule with the ID and reports whether there was one |

## Left out

- Sockets, dialing, listeners, buffering and goroutine scheduling: a connection is the bytes that arrive, and an exchange of request and reply is one step. Bytes that stay in a write buffer because nobody flushes it are counted as sent.
- Locks: every method is one sequential step; nothing is said about the lock order in `CheckAccess` or `PreAllocatePorts`.
- The short reads of `client/client.go:392` and `server/server.go:175`: the proxy's reader, which reads the whole body, is modelled instead.
- The bind probe of the operating system, clocks, generated session IDs and source identifiers are parameters. Runs of the protocol assume that session IDs are new and not empty; between the attempts of one `AllocatePortsWithRetry` no other call is modelled. Runs by text also assume that session IDs have no white space at their ends (the source draws decimal numbers) and that URLs are single words.
- Negotiation of TCP transport through the header text, which the order of tests in `ParseTransport` prevents: the step of the protocol takes a flag that stands for the intended dispatch, and everything after it follows the code; without the flag the step is what the code does.
- DESCRIBE inside runs is reduced to whether the stream exists; what its body leaves the client with is stated by itself.
- SessionObjects.RTSPServer.HandleState: the goroutines that handlePlay starts on a TCP connection; the send loop is stated by itself.
- Acl.AuthManager.AddACLRule: the times of creation and change that it writes into the rule.
- `GetTCPChannel`, `ValidateRTPPacket`, `GetRTPPacketSize` and the other members that only compare or add fields.
- Control replies mixed into the media bytes, and the server's reader of interleaved client data.
- `ForceReleasePort`, `ResolvePortConflict`, `PreAllocatePorts`, `GetAvailablePorts`, `GetNextAvailablePort` and the allocation history: they bypass ownership or only read.
- Timestamps of sessions, rules and statistics, user passwords, Basic authentication, URL checks, the status texts no handler sends, payload names, loss rate, logging, configuration, health checks and the placeholder media proxy.
- Requests for a body length that memory cannot hold.
