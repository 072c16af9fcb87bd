# A verified model of the OpenAPI socket protocol

This project models the Go implementation of a binary request/response protocol and its client,
and proves what the endpoint promises for every byte stream and every interleaving of goroutines.

| file | what it models |
|---|---|
| `Bytes.dfy` | byte strings, big-endian numbers, concatenation of chunks |
| `Metadata.dfy` | the key/value metadata section with 7- and 15-bit length prefixes |
| `Frame.dfy` | header layout, the resumable decoder and the one-shot decoder, versions 1 and 2, as functions |
| `Stream.dfy` | whole streams: the read loop over chunks against a parser that cuts the stream at frame boundaries |
| `Packing.dfy` | the encoder, frame and stream round trips |
| `WireFormat.dfy` | the format in plain numbers, what the encoder accepts and which metadata it carries |
| `V2Trailer.dfy` | what the version 2 encoder does when a trailer and metadata meet |
| `Codec.dfy` | the same codec as it is written: ring buffer, header objects, header pool, context slot, packet mutation, output array |
| `Sharing.dfy` | which arrays a decoded packet refers to while the read array is overwritten |
| `TcpConn.dfy` | the read loop with its packet queue and the goroutine that empties it, and the write loop with partial writes |
| `TcpRuns.dfy` | what holds of every run of the read loop, and when it panics |
| `Ownership.dfy` | many goroutines that decode streams and frames and encode packets with one header pool, step by step |
| `Client.dfy` | the client as a state machine: requests, receiver table, reconnect loop, dial, close, ping, locks, panics |
| `ClientSafety.dfy` | what every step of that machine keeps |
| `ClientRuns.dfy` | theorems about whole runs: connection swap, reconnect limit, locks, panics |
| `ClientReplies.dfy` | which responses reach their requests, and which requests panic when they free their channel |
| `ClientCalls.dfy` | when a write panics, what every call has done by the time it returns, where an answer comes from |
| `ClientClosing.dfy` | connections that are given up are closed, pings keep out of loops, no receiver is left open |
| `ClientBudget.dfy` | what a resumed session gives back, when the loop gives up, which ping keepalive remembers |
| `Keepalive.dfy` | the keepalive goroutine in time |

The two protocol versions share one specification with a `Version` parameter. Compression is a pair
of partial functions of which only `decompress(compress(x)) == x` is used. The order in which Go
enumerates a map is a parameter (`order`), so every statement holds for every order. In the client
a step is the code between two lock operations, channel operations or network calls; how a dial
ends, whether a write finds room, which packet arrives and when a connection breaks are choices of
the environment. A panic of the original is an explicit fault.

Where the code does not do what one would expect, the code is modelled and the difference is stated:

- Version 2 puts nonce and signature at an offset that leaves out the metadata. `V2RoundTripExactly`
  says which packets survive that; with a signature of at most 16 bytes and a raw body it takes a
  trailer that is all zero (`V2RoundTripIff`).
- `Pack` leaves the compressed body in the packet, so packing twice may compress twice (`PackTwice`).
  It trusts a gzip flag that is already set, so a raw body under that flag arrives decompressed or
  not at all (`PackRoundTrip`).
- The command code is cut to 8 bits, and a signature is carried as exactly 16 bytes (`ReceivedIsSent`).
- `Set` panics on a packet that has no metadata map, as no decoded version 1 packet has one.
- Four panics of the client machine are reachable: closing the client twice, sending on the write
  queue of a connection that closes between check and send, a request or an answer to a ping while
  there is no connection after a failed dial, and a receiver closed by a reconnect loop and again by
  its own request. `FaultsAre` gives the state of each and excludes all others of that machine;
  `SendFaultIff` and `FreeFaultIff` trace the second and the last to their causes.
- A fifth belongs to the connection: its handler closes the packet queue once the connection is
  closed, while the read loop may still be adding the packets of a chunk (`RoundFaultIff`,
  `SomePlanFaultsIff`).
- That handler looks whether the connection is closed only between packets: one that waits on an empty
  queue is not woken by the end of the connection (`HandlerWaits`).
- The one-shot decoder takes bytes behind a verified frame for more of its signature
  (`BytesBehindFrame`).
- A request registers its receiver after it has been written. A response that is faster than that is
  dropped (`ResponseTakenIff`).
- A close request from the server blocks its goroutine, and reconnecting, forever if the connection
  is still open (`ServerCloseBlocks`, `BlockedForever`).
- The reconnect loop never looks whether the client is closed: a closed client goes on dialling, and
  panics when it has no attempts left (`ClosedClientDialsIff`).
- A reconnect loop that ends without a resumed session leaves the keepalive state behind, which can
  raise a timeout on a healthy connection (`SpuriousTimeout`). A tick inside a loop can raise one
  too, and starts a second loop if the first ends before the goroutine asks (`RaisedTick`,
  `LateInsideLoop`, `SecondLoop`).
- The branch of `reconnectDial` for an unauthenticated answer is never taken, because `Do` already
  returns an error for every answer that does not report success; the model has no such path.

## Model

| member | source | states |
|---|---|---|
| Metadata.GetAfterEncode | go/metadata.go:137-157 | reading a string back from its encoding, with anything behind it, gives the string and leaves the rest |
| Metadata.EncodeAfterGet | go/metadata.go:109-135 | whatever string the decoder accepts is there in its minimal encoding; longer prefixes are refused |
| Metadata.Canonical | go/metadata.go:44-107 | a section is accepted with pair list `ps` if and only if it is the concatenation of the minimal encodings of `ps` |
| Metadata.ParseAfterEncode | go/metadata.go:64-104 | decoding pairs followed by more bytes gives the pairs, then the decoding of those bytes |
| Metadata.KeyWithoutValueRefused | go/metadata.go:85-100 | a section that ends behind a key is refused |
| Metadata.LowerClean | go/metadata.go:101-101 | a folded key has no ASCII capital letter, and folding changes a key if and only if it had one |
| Metadata.LowerFolds | go/metadata.go:207-207 | two keys land on one entry if and only if they have the same length and differ in the case of ASCII letters only |
| Metadata.DecodedEntry | go/metadata.go:85-104 | a decoded map has a key with a value if and only if the key has no capital letter and the value is that of the last pair whose key differs from it in case only |
| Metadata.ValuesRoundTrip | go/metadata.go:159-196 | for lower-case keys and any map order: the section fits the cap, decodes to part of the map, and to every carriable entry if and only if their total size fits |
| Metadata.TakenPrefix | go/metadata.go:165-193 | the entries written are a prefix of the carriable ones, within the cap, and all of them exactly when they fit |
| Metadata.TakenMaximal | go/metadata.go:185-188 | the enumeration stops only at an entry that does not fit any more |
| Metadata.Values.Unmarshal | go/metadata.go:44-107 | the loop terminates on all input and leaves the decoded map, with no capital letter in any key, or the old one on error |
| Metadata.Values.Marshal | go/metadata.go:159-196 | the loop writes exactly the encoding of the entries taken in the given order |
| Metadata.Values.Set | go/metadata.go:199-211 | the entry whose key differs from the given one in case only, and has no capital letter, gets the value and all others stay; a string of more than 32767 bytes is refused, a nil map panics, and then nothing changes |
| Frame.UnpackProgress | go/v1/v1.go:79-150 | a waiting decoder keeps a header that still needs a byte, and every decoded packet has consumed input, so the loop around it ends |
| Frame.UnpackExtend | go/v1/header.go:227-322 | bytes that arrive later change no decision, and a suspended call goes on as if it had not stopped |
| Frame.DecodersAgree | go/v2/v2.go:78-161 | stream decoder against frame decoder on every stream: same packet or error on a whole frame, of which exactly the bytes are consumed; otherwise it waits or refuses the type |
| Frame.PrefixOfFrame | go/v1/v1.go:30-77 | on every proper prefix of a valid frame the stream decoder waits and the frame decoder reports an invalid frame |
| Frame.BytesBehindFrame | go/v1/v1.go:54-65 | bytes behind a whole frame lengthen the signature the one-shot decoder gives, and without one are not seen |
| Stream.DrainExtend | go/client/tcp_conn.go:244-259 | draining in two goes gives the packets, error and state of draining once |
| Stream.ReadAllIsDrain | go/client/tcp_conn.go:201-242 | the read loop over any chunks does what draining their concatenation does |
| Stream.ChunkingIrrelevant | go/client/tcp_conn.go:201-259 | two chunkings of one stream give the same packets, the same first error and the same state left |
| Stream.ReadLoopParsesStream | go/client/tcp_conn.go:201-259 | the read loop, on any chunking of any stream, agrees with a parser that cuts the whole stream at frame boundaries and decodes each frame on its own |
| Packing.NoLengthTruncates | go/v2/v2.go:178-190 | the 16-bit metadata length and the 24-bit body length of every accepted packet are the real lengths |
| WireFormat.PackAccepts | go/v1/v1.go:152-181 | the encoder accepts a packet if and only if compression does not fail, the body on the wire is shorter than 2^24 bytes and the type is request, response or push; the error of each refusal |
| WireFormat.MetadataCarried | go/v2/v2.go:187-190 | the section has at most 65535 bytes and carries entries with a key that is not empty and strings of at most 32767 bytes, all of them if and only if together they take at most 65535 bytes |
| WireFormat.HeaderLayout | go/v2/v2_header.go:96-152 | the place and value of every field in the 11, 10 or 5 bytes of a header, and in the two more of version 2 |
| WireFormat.StringFormat | go/metadata.go:137-157 | one byte of length up to 127 bytes, two with the top bit set up to 32767, and no more |
| WireFormat.FrameSize | go/v2/v2.go:205-214 | a frame is as long as its header, metadata, body and 24 bytes of trailer |
| Packing.HeaderRoundTrip | go/v1/header.go:107-158 | decoding an encoded header gives the fields its type carries and leaves what follows |
| Packing.PackRoundTrip | go/v2/v2.go:163-228 | packing then decoding, with any bytes behind: always in version 1, in version 2 without trailer or without metadata, and always with the offset corrected, the packet comes back; a body under a gzip flag that was already set and not compressed here comes back decompressed, or decoding fails |
| Packing.ReceivedIsSent | go/v1/header.go:373-399 | the received packet is the one given if and only if the fields fit its type, the command code fits 8 bits, the signature has 16 bytes and the metadata can be carried |
| Packing.PackTwice | go/v1/v1.go:157-165 | packing the packet left behind by a packing that compressed it carries the original body if and only if it is not compressed again (or that changes nothing) |
| Packing.StreamRoundTrip | go/v1/v1.go:152-213 | any list of packets whose bodies are what their gzip flags say, packed, concatenated, cut anywhere and read, arrives as that list in order with nothing left over |
| V2Trailer.V2RoundTripIff | go/v2/v2.go:222-225 | the case of a raw body, lower-case keys and at most 16 bytes of signature: the packet comes back if and only if there is no trailer, or no metadata, or the trailer and all it overwrites are zero |
| V2Trailer.TrailerLost | go/v2/v2.go:215-225 | with metadata, for every body and signature, nonce and signature survive if and only if they repeat with the length of the metadata |
| V2Trailer.V2RoundTripExactly | go/v2/v2.go:163-228 | for every packet the encoder accepts: it comes back if and only if there is no trailer or no metadata and a body marked as compressed is, or the trailer repeats and metadata and body as overwritten still decode to what they were |
| V2Trailer.ShortRepeats | go/v2/v2.go:222-225 | a trailer with a signature of at most 16 bytes repeats if and only if it is all zero |
| V2Trailer.VerifiedMetadataBreaks | go/v2/v2.go:222-225 | a concrete verified request with one metadata entry that does not come back |
| Codec.HeaderObject.Unpack | go/v1/header.go:227-322 | the field-by-field decoder does what the header specification says, including the half-read states |
| Codec.HeaderObject.UnpackBytes | go/v2/v2_header.go:26-94 | the same for the decoder that works on a slice |
| Codec.HeaderObject.Pack | go/v2/v2_header.go:96-152 | the array filled by a moving index is the encoded header |
| Codec.HeaderPool.Get | go/v1/header.go:340-358 | a pooled or new header, cleared, and no longer in the pool |
| Codec.HeaderFromContext | go/v1/header.go:360-371 | the header kept in the slot, or a cleared one that no other context holds |
| Codec.UnpackStream | go/v1/v1.go:79-150 | reports what the specification gives for the context's own slot and buffer, touches no other context, and returns the header exactly when the call does not wait |
| Codec.UnpackFrame | go/v2/v2.go:23-76 | the one-shot decoder meets its specification, empties the slot and returns the header |
| Codec.HeaderFromMetadata | go/v1/header.go:373-399 | the header fields of a packet, in a header that was pooled or is new |
| Codec.PackPacket | go/v2/v2.go:163-228 | the encoder meets its specification, leaves the packet compressed if it compressed it, and returns the header |
| Sharing.CutPacket | go/v1/v1.go:117-146 | the packet cut from a window of the read array is the specified one and lies in new arrays |
| Sharing.Session | go/client/tcp_conn.go:207-232 | whatever is read into the shared array later, the queue ends up holding the packets exactly as they were decoded |
| TcpConn.Connection.AddPacket | go/client/tcp_conn.go:261-267 | a packet is queued if there is room or a receiver waits, dropped if and only if there is a queue and neither holds or there is no queue, and a fault if and only if the handler has closed the queue |
| TcpConn.Connection.ReadPacket | go/client/tcp_conn.go:244-259 | the loop over the decoder offers the packets of the buffer to the queue one by one, whatever the other goroutines do in between, up to an error or a fault |
| TcpConn.Connection.Chunk | go/client/tcp_conn.go:207-241 | decoding in the throw-away buffer and decoding in the kept buffer have the same effect |
| TcpConn.Connection.Reading | go/client/tcp_conn.go:201-242 | for every plan of what the other goroutines do, the loop ends as the specified run ends: stopped by a closed connection, with an error, with a fault, or waiting with that header and those bytes |
| TcpRuns.RunAccounted | go/client/tcp_conn.go:140-169 | in every run packets handed over or still queued are exactly the offered ones that found room, in order, and the handler leaves only a closed connection |
| TcpRuns.RunReadsStream | go/client/tcp_conn.go:201-259 | a run that is neither stopped nor faulty offers exactly the packets of the stream and ends as the stream ends; any other run offers the first packets of it |
| TcpRuns.UndisturbedRun | go/client/tcp_conn.go:201-242 | a run in which nobody closes the connection is neither stopped nor faulty; one that is stopped or ends with an error leaves the connection closed |
| TcpRuns.ClosedQueueIsDelivered | go/client/tcp_conn.go:149-161 | a handler that finds the connection closed hands over exactly the packets queued then, in order, before it is gone, and it is gone if and only if it has had one turn more than there were packets |
| TcpRuns.HandlerKeepsUp | go/client/tcp_conn.go:145-166 | whatever is added and whether or not the connection closes, the first packets of the queue are handed over within two turns for each |
| TcpRuns.HandlerLeaves | go/client/tcp_conn.go:148-161 | on a closed connection a handler with a packet to hand over, or about to look, is gone after a bounded number of turns |
| TcpRuns.HandlerWaits | go/client/tcp_conn.go:163-165 | a handler that waits on an empty queue waits until a packet is added, closed connection or not |
| TcpRuns.RoundFaultIff | go/client/tcp_conn.go:145-161 | a round panics if and only if the connection was open as it began and the handler has left by the time one of the chunk's packets is added |
| TcpRuns.SomePlanFaultsIff | go/client/tcp_conn.go:261-267 | a stream can be timed so that reading it panics if and only if it completes a packet; the timing is given |
| TcpConn.Writing | go/client/tcp_conn.go:269-321 | wire bytes followed by leftover bytes are the dequeued frames in order; each event puts on the wire as much as the socket takes; the loop ends at the first write that fails |
| Ownership.HeaderOwnership | go/v1/header.go:336-371 | in every interleaving each header is once in the pool or with exactly one goroutine, and every header taken has been put back once, but for the one held |
| Ownership.NoInterference | go/v1/v1.go:84-90 | in every interleaving of stream decoding, one-shot decoding and encoding, each context decodes, keeps and leaves over what it would with nobody else around, and each encoder produces the specified frames of its own packets |
| Ownership.ContextsDecodeTheirStreams | go/client/tcp_conn.go:244-259 | in every interleaving a context that decodes a stream without errors has decoded, in order, the first packets of its own byte stream |
| Ownership.AloneDrains | go/v1/v1.go:79-150 | any sequence of decoding calls amounts to draining the concatenated bytes |
| ClientSafety.StepKeeps | go/client/client.go:204-294 | every step of a goroutine keeps its own invariants and what the others rely on |
| ClientSafety.DeliverKeeps | go/client/client.go:568-581 | a response is never sent on a closed channel, and delivering keeps the receiver table |
| ClientSafety.TableKept | go/client/client.go:607-629 | after every step each channel in the table is open, filed under its own id and listened to by its maker, and a buffered packet has that id |
| ClientRuns.RunInv | go/client/client.go:75-111 | the invariants hold along every run |
| ClientRuns.SwapSafety | go/client/client.go:153-162 | whenever the connection is replaced no request is in flight and the receiver table is empty |
| ClientRuns.ReceiversAreCurrent | go/client/client.go:607-629 | every pending receiver belongs to the current connection and to a goroutine still listening under that id |
| ClientRuns.IdsDistinct | go/context.go:18-24 | until a connection has drawn 2^32 ids, requests in flight have distinct ids |
| ClientReplies.IdsCollide | go/context.go:18-24 | after that two requests in flight can share an id |
| ClientReplies.ResponseReachesWaiter | go/client/client.go:568-581 | a response taken while its request waits goes into that request's channel and no other, and the wait can end with it |
| ClientReplies.ResponseTakenIff | go/client/client.go:348-356 | in every run, while ids have not wrapped around, a response with the id of a request changes something if and only if that request has registered, still listens, and its channel is open and empty; before it registers the response is lost |
| ClientReplies.FreeFaultIff | go/client/client.go:607-616 | a registered request panics when it frees its channel if and only if a reconnect loop cleared the table while the request was listening |
| ClientReplies.DuplicateIsDropped | go/client/client.go:572-577 | a second response to one request changes nothing |
| ClientRuns.ReplyMatchesRequest | go/client/client.go:607-629 | a packet that `recv` returns has the requested id |
| ClientRuns.SingleFlight | go/client/client.go:204-212 | at most one goroutine is in the reconnect loop |
| ClientRuns.DialBudget | go/client/client.go:254-281 | with a limit, no stretch of a run without a resumed session dials more often than the limit, over any number of loops |
| ClientRuns.DialsAreCounted | go/client/client.go:316-319 | the dial attempts of a stretch without a resumed session add up |
| ClientBudget.ResumeResets | go/client/client.go:316-319 | a resumed session gives back every attempt and forgets the last ping |
| ClientBudget.GivesUpIff | go/client/client.go:254-261 | counted from the start or the last resume, a loop closes the client if and only if there is a limit and exactly that many iterations have been made |
| ClientBudget.BudgetIsReached | go/client/client.go:254-281 | behind a resumed session, with nobody holding the lock, some continuation without another resume dials as often as the limit says |
| ClientBudget.ResumeHappens | go/client/client.go:296-320 | a run that resumes a session |
| ClientBudget.LastPingIsKept | go/client/client.go:482-484 | in every run the id kept is that of the last ping sent since the last resume, or 0 |
| ClientRuns.LoopProgress | go/client/client.go:254-294 | with a limit, each step of the loop lowers a positive measure built on the attempts left |
| ClientRuns.LoopEnds | go/client/client.go:219-245 | so its goroutine takes at most that many steps before the loop ends, whatever the others do |
| ClientRuns.LoopOutcome | go/client/client.go:222-238 | a loop ends if and only if its dial needs no session, its session request has a good answer, or it has closed the client |
| ClientRuns.LockDiscipline | go/client/client.go:406-436 | a goroutine asks for the write lock while holding the read lock if and only if it closes a connection for the server |
| ClientRuns.ServerCloseBlocks | go/client/client.go:420-436 | a goroutine about to close the connection for the server stays blocked in every continuation if and only if the connection is open and the client is not closed; otherwise it goes on at once |
| ClientRuns.BlockedForever | go/client/client.go:420-436 | in every continuation that goroutine stays blocked, the connection is not replaced and no loop starts or ends |
| ClientRuns.FaultsAre | go/client/client.go:333-366 | a step of the client machine panics if and only if one of four situations holds; no other of its panics occurs in any run |
| ClientCalls.SendFaultIff | go/client/tcp_conn.go:126-138 | a request, ping or answer that comes to its send has passed a check on an open connection, and panics if and only if an event between check and send has closed that connection |
| ClientCalls.CheckIff | go/client/tcp_conn.go:111-115 | on a closed connection a write goes on with an error and no panic; on an open one it passes unless it cannot be encoded |
| ClientCalls.EveryCallSettles | go/client/client.go:435-503 | no call returns before it has settled: behind the server's close and a ping that failed the client asks to reconnect, a ping is written unless a loop is active or there is no connection, a server's ping is answered unless that is refused |
| ClientCalls.LossAsks | go/client/client.go:164-174 | a lost connection makes the client ask to reconnect if and only if the client is not closed |
| ClientCalls.DrawsNextId | go/client/client.go:336-341 | building a packet uses up the next id of the current connection, and one that cannot be built is not sent |
| ClientCalls.RegisteredMeansWritten | go/client/client.go:352-356 | a request waits for an answer only if it was written to an open connection |
| ClientCalls.AnswerWasDelivered | go/client/client.go:622-626 | an answer that a request takes has arrived since it registered |
| ClientCalls.ReplyIsReturned | go/client/client.go:607-629 | the reply a request has taken is the one it returns, whatever happens meanwhile |
| ClientClosing.CloseCloses | go/client/client.go:406-433 | by the time Close or closeByServer lets go of the lock there is no open current connection |
| ClientClosing.ReplacedIsClosed | go/client/client.go:263-281 | a connection is replaced only when it is closed, by a new one that has drawn no id |
| ClientClosing.NoPingInLoop | go/client/client.go:456-486 | from drawing its id to its write a ping shares no moment with a reconnect loop |
| ClientClosing.NoReceiverLeaks | go/client/client.go:607-616 | no receiver stays open behind its request |
| ClientRuns.OnlyClearCloses | go/client/client.go:267-272 | a channel that is listened to is closed by nothing but a reconnect that clears the table |
| ClientRuns.CloseTwiceHappens | go/client/client.go:406-408 | a run that closes the client twice panics |
| ClientRuns.SendOnClosedHappens | go/client/tcp_conn.go:126-138 | a run in which the connection closes between check and send panics |
| ClientRuns.NilConnectionHappens | go/client/client.go:333-336 | a run with a request behind a failed dial panics |
| ClientRuns.FreeClosedHappens | go/client/client.go:610-616 | a run in which the loop closes a receiver that its request closes again panics |
| ClientRuns.SelfBlockHappens | go/client/client.go:420-433 | a run in which the server's close request blocks itself |
| ClientRuns.ClosedClientDialsIff | go/client/client.go:254-281 | a loop at its top in a closed client can get to a dial if and only if it has attempts left; with none left no continuation dials |
| ClientRuns.ClosedClientLoops | go/client/client.go:508-512 | a run that closes the client while a loop is at its top with attempts left |
| Keepalive.StepInv | go/client/client.go:438-506 | what every step in time keeps: after an answered ping the next tick is due within the interval |
| Keepalive.KeepaliveStable | go/client/client.go:438-506 | from the initial dial or a resumed session, in every run in which each ping is answered before the next tick and each loop resumes the session, with the interval at most the timeout, a timeout is raised by no tick outside a loop, and inside one only behind a tick that sent no ping |
| Keepalive.TimeoutsExplained | go/client/client.go:444-454 | with every ping answered and the interval at most the timeout, a tick raises a timeout if and only if since the last ping or resume a tick was taken that sent none and the last pong is older than the timeout; outside a loop only if one has ended without a resume |
| Keepalive.RaisedTick | go/client/client.go:492-497 | a tick that raised a timeout starts a new loop if and only if no loop is active by the time the goroutine asks for one; inside a loop still active it only goes back to waiting |
| Keepalive.LateInsideLoop | go/client/client.go:461-465 | for every interval up to the timeout, a run with every ping answered and every ended loop resumed leads to a tick inside a loop that raises a timeout |
| Keepalive.SecondLoop | go/client/client.go:204-212 | such a tick starts a second loop if the first one resumes and ends before the goroutine asks |
| Keepalive.StableIff | go/client/client.go:444-454 | that bound on the interval is exactly what stability needs |
| Keepalive.SessionsBeginFresh | go/client/client.go:316-319 | a session begins with no ping to answer, after the dial and after every resume |
| Keepalive.SpuriousTimeout | go/client/client.go:283-294 | for every interval up to the timeout there is a run with every ping answered in which a loop that did not resume is followed by a timeout outside it |

## Left out

- V2Trailer.V2RoundTripIff: is limited to raw bodies, lower-case keys and signatures of at most 16 bytes, where the condition can be read off the packet; `V2RoundTripExactly` has no such limits.
- Ownership.NoInterference: one context is decoded by one goroutine at a time, as the read loop does.
- Keepalive.KeepaliveStable: time does not pass while a tick waits and the goroutine is at its select, so scheduling delays of the ticks are not modelled.
- ClientRuns.LoopEnds: bounds the steps of the loop's goroutine; that a waiting goroutine eventually gets a lock is not modelled, nor is the preference of a Go lock for writers.
- ClientRuns.FaultsAre: covers the client machine; the packet queue of a connection and its panic are in `TcpConn.dfy` and `TcpRuns.dfy`, and a response arrives there as one step.
- TcpConn.Connection.Reading: a read error of the socket ends the list of chunks; the other goroutines get their turn when the loop looks whether the connection is closed and before each packet is added.
- Concurrent calls of a connection's Close that overlap inside its once-guard are one atomic step.
- The goroutine that `reconnecting` starts and waits for is merged with its caller; the pause between two attempts is not modelled.
- Keys are bytes and only ASCII letters are lower-cased; Unicode lower-casing, which may change the length, is not modelled.
- A decoded packet holds its metadata as a map; that version 1 leaves it nil matters to `Metadata.Values.Set` only, which models it.
- Inside of gzip, URL parsing, dialling, handshake, codec and platform names, option setters, logging.
- The websocket connection, whose only use of the codec is the one-shot decoder.
- Marshalling of bodies (protobuf, JSON), subscriptions and user callbacks.
- The initial `Dial`: runs of the client begin with an open connection.
