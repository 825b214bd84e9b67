# Proxelar, modelled and proved in Dafny

A Dafny 4.11 verification project for the protocol core of Proxelar. It models the
hand-written HTTP/1 engine (body decoder and encoder, framing choice, header
validation, the server's reader and coordinator, the client workers and their
keep-alive pool) and a second tier of codecs and data structures (Protobuf editing,
DNS names and packets, ordered headers beside a header map, the session journal,
body capture, the filter language, HTTP/2 heads), and proves properties of the models.

`dafny verify dfyconfig.toml` checks the whole project.

## How it is laid out

- `Bytes`, `Numbers`, `Text`, `Lines`, `Headers`, `FieldNames`: bytes, numbers in text, lines, header blocks.
- `ChunkLine`, `Trailers`, `BodyFraming`: chunk-size lines and their extensions, trailer
  blocks, and the body decoder as a machine on values. `CutIndependence` shows that how a
  stream is cut does not matter, and exactly when it does. `BodyDecoder` is the decoder as
  an object with a copying and a zero-copy entry point.
- `BodyEncoder`, `HeaderValidation`, `FramingChoice`, `RequestHead`: writing bodies and
  heads, the checks, and the agreement of both ends on where a body stops.
  `ResponseBody` puts them together for responses.
- `Pipeline` composes all of it: k requests written are the same k requests read.
  `ServerReader` is the server's read loop over socket and buffer.
- `ServerProtocol`, `ServerGuarantees`: reader task, bounded queue, body channel, coordinator
  and upgrade handshake as a step relation, with an inductive invariant over every
  interleaving.
- `ClientPool`, `ClientPoolSafety`, `CallerSteps`, `WorkerSteps`, `PoolGuarantees`,
  `PoolEntry`: callers, pool and connection workers as one step relation; its invariant;
  each step of a caller or a worker keeping it; what follows.
- `PoolOutcomes`, `PoolProgress`, `ServerOutcomes`: what must happen rather than what
  must not: calls are served, reused, retried and never stuck; every request is answered.
- `ListItems`, `FramingFields`, `FieldText`, `HeadGrammar`, `BodyGrammar`, `Spelling`: what
  field values, field lines, heads and chunked bodies say, as relations on text alone, and
  that the readers and checks accept exactly what says so. `Announcement` does this for
  what is sent, `Truncation` for streams that end too early, and `Buffering` for what is
  held while waiting.
- `Protobuf`, `DnsName`, `DnsPacket`, `OrderedHeaders`, `Journal`, `Capture`,
  `FilterSyntax`, `FilterText`, `Http2Head`: one codec or structure each. `ProtobufWire`,
  `DnsWire`, `HeaderOrder`, `JournalMeaning`, `FilterLexis`, `FilterTerms` and `Http2Fields`
  say what concrete bytes, texts and events mean there.

Code that the program writes as loops and field updates is written that way here: a
method with its loop, or a class with its fields, proved equal to a function on values,
about which the lemmas speak. Everything else is functions and datatypes.

Findings about the code, each proved:

- A chunk-size line of exactly the configured limit is accepted when it arrives whole and
  rejected when it is cut between CR and LF (`CutIndependence.LimitExample`); for every
  stream the verdict is independent of the cut if and only if no such line decides
  (`CutIndependence.VerdictIndependence`).
- A start line of exactly its limit is accepted when it arrives whole and refused when it is
  cut between CR and LF (`RequestHead.HeadPrefixWaits`): every part of a head waits for the
  rest if and only if the start line is shorter (`RequestHead.PrefixesWait`), and a delivery
  breaks the connection if and only if it makes that cut (`Pipeline.SplitStartFails`,
  `Pipeline.HeadArrives`).
- A 204 answer to CONNECT is a tunnel to the server's writer and an empty body to the
  client's reader (`FramingChoice.ConnectNoContent`), and that is the only disagreement
  (`FramingChoice.ResponseFramingAgreement`).
- The Protobuf editor accepts over-long varints and writes minimal ones
  (`Protobuf.LongZero`); a body survives byte for byte exactly when its varints are minimal
  (`Protobuf.Reencoded`).
- The response branch for a transfer coding other than chunked is never reached: no such
  block passes the checks (`FramingFields.FramingMeaning`).
- A session file edited by hand need not be rebuilt by its own journal
  (`Journal.EditedSession`); it is exactly when it is canonical, as every recorded one is
  (`Journal.ReplayExact`, `Journal.JournalReplay`).
- The HTTP/2 encoder lets `:protocol` through with methods other than CONNECT
  (`Http2Head.ExtendedGet`), which the decoder always refuses (`Http2Head.RequestRoundTrip`).
- An override answer whose address family is not the one asked for is well formed and
  read as no address at all (`DnsPacket.OverrideIsRead`).

## Model

| member | source | states |
|---|---|---|
| `Pipeline.PipeliningAny` | proxelar-proto/src/http1/connection.rs:257-406 | For any list of requests a client may write, any bytes behind them, any upgrade answers and any delivery that does not cut a start line of exactly the limit between CR and LF: the read loop hands over exactly the requests up to the first that closes or upgrades, each as it was sent; after an accepted upgrade the bytes it holds and the bytes unread are the rest of the stream; if nothing stops it, it goes on with the bytes behind the list as it would on them alone |
| `Pipeline.Pipelining` | proxelar-proto/src/http1/connection.rs:257-346 | A list of requests none of which closes or upgrades is read as the same list, in order, with equal bodies and trimmed trailers, and the loop ends cleanly with no byte over |
| `Pipeline.PipeliningConfigured` | proxelar-proto/src/http1/connection.rs:257-346 | The same in any delivery whatever, for limits a caller can check: seventeen bytes for a size line, start lines below their limit, heads and trailers within theirs |
| `Pipeline.HeadArrives` | proxelar-proto/src/http1/connection.rs:266-286 | A written head at the front of the stream is found by the head loop with every byte behind it kept, in every delivery that does not cut a start line of exactly the limit between CR and LF |
| `Pipeline.SplitStartFails` | proxelar-proto/src/http1/parser.rs:256-279 | A start line of exactly the limit that some read cuts between CR and LF fails the head loop, in whatever pieces and whatever follows: the condition on deliveries is exact |
| `Pipeline.UpgradeKeepsStream` | proxelar-proto/src/http1/connection.rs:329-341 | After an accepted upgrade nothing behind that request's body has been parsed: read-ahead and unread bytes are exactly that stream |
| `CutIndependence.CutIndependence` | proxelar-proto/src/http1/framing.rs:191-374 | Two ways of cutting one stream give the same data, trailers, remaining bytes and verdict, unless a size line of exactly the limit occurs |
| `CutIndependence.VerdictIndependence` | proxelar-proto/src/http1/framing.rs:266-288 | For every stream: all deliveries agree on accept or reject if and only if no decisive size line has exactly the limit length |
| `CutIndependence.LimitExample` | proxelar-proto/src/http1/framing.rs:280-288 | A concrete body with a size line of exactly the limit is accepted whole and rejected when cut between CR and LF |
| `CutIndependence.LimitCut` | proxelar-proto/src/http1/framing.rs:280-288 | Whenever a size line has exactly the limit length there is a cut at which the decoder rejects the prefix |
| `CutIndependence.RunExtend` | proxelar-proto/src/http1/framing.rs:266-374 | What the decoder does with more bytes continues what it did with fewer, step for step |
| `CutIndependence.FeedIsRun` | proxelar-proto/src/http1/framing.rs:191-215 | Feeding a stream in pieces, keeping unconsumed bytes, comes to the run of the whole stream, or rejects where a size line has the limit length |
| `BodyEncoder.BodyRoundTrip` | proxelar-proto/src/http1/serialize.rs:152-231 | Whatever the encoder accepts for a framing is decoded, with any bytes behind it, to the same data and trimmed trailers, consuming exactly the encoded bytes; a body until the end of the stream is completed by it |
| `BodyEncoder.BodyRoundTripCut` | proxelar-proto/src/http1/serialize.rs:152-231 | The same in any delivery, given one spare byte on every size line |
| `BodyEncoder.BodyRoundTripConfigured` | proxelar-proto/src/http1/serialize.rs:152-231 | The same in any delivery for any limits with seventeen bytes for a size line, if the trailers fit |
| `BodyEncoder.ChunkedRoundTrip` | proxelar-proto/src/http1/serialize.rs:152-231 | Chunked frames, with or without trailers, decode to their data and trimmed trailers and stop at the last byte written |
| `FramingChoice.RequestFramingAgreement` | proxelar-proto/src/http1/connection.rs:877-902 | A prepared request passes the framing checks exactly when its Connection field does, and then the receiver selects the framing the sender's encoder uses |
| `FramingChoice.ResponseFramingAgreement` | proxelar-proto/src/http1/connection.rs:408-493 | For every response head that is sent, with the Connection field the server writes over it: the receiver accepts it, and both ends delimit the same body if and only if it is not a 204 answer to CONNECT |
| `FramingChoice.ResponseHeadAccepted` | proxelar-proto/src/http1/connection.rs:424-436 | A response head passes the sender's checks exactly when it passes the receiver's, and exactly when its Connection field is written over or was in order and a length it keeps is one |
| `FramingChoice.ConnectNoContent` | proxelar-proto/src/http1/connection.rs:457-471 | A 204 answer to CONNECT passes the checks, and is a tunnel to the sender and without a body to the receiver |
| `ResponseBody.ResponseBodyArrives` | proxelar-proto/src/http1/connection.rs:408-447 | For every method, status, version and hint but CONNECT with 204: the body the server writes is read by the client, under the framing the head on the wire announces and in any delivery, as written, leaving every byte behind it |
| `ResponseBody.LastBodyArrives` | proxelar-proto/src/http1/connection.rs:424-447 | A response sent until end of stream always passes the checks, says and means that the connection closes, and is read whole when the stream ends |
| `ServerGuarantees.UpgradeHandsOver` | proxelar-proto/src/http1/connection.rs:103-207 | Over every interleaving of reader and coordinator: a connection returned as upgraded carries exactly the bytes behind the upgraded request's body, and the requests up to it were read as sent and answered once each; a list without a stop was read whole before an upgrade that follows it |
| `ServerGuarantees.ResponsesInOrder` | proxelar-proto/src/http1/connection.rs:122-197 | In every reachable state final responses follow request order, one per request, and the unmatched-upgrade error cannot occur |
| `ServerGuarantees.NoDeadlock` | proxelar-proto/src/http1/connection.rs:103-406 | In every reachable state without a verdict the reader or the coordinator can move, without any failure having to happen: neither the request queue, nor an upgrade decision, nor a full body channel can hold both up |
| `ServerGuarantees.ProgressKept` | proxelar-proto/src/http1/connection.rs:257-346 | Every step keeps the reader's place in the stream: whatever decisions come, reading the whole stream is what was read so far followed by reading the rest |
| `ServerProtocol.KeepQueue` | proxelar-proto/src/http1/connection.rs:112-174 | Every step keeps the queue, the request in hand and the responses together the handed-over requests in order, a fault last |
| `ServerProtocol.KeepUpgrade` | proxelar-proto/src/http1/connection.rs:160-172 | Every step keeps an accepted upgrade the coordinator's last word, given with nothing left queued, and the reader leaves for an upgrade only with it |
| `ServerProtocol.KeepDecisions` | proxelar-proto/src/http1/connection.rs:299-341 | Every step keeps one decision per answered upgrade request, taken in by the reader in order, with at most one outstanding, for the last request handed over |
| `PoolGuarantees.AtMostOnce` | proxelar-proto/src/http1/connection.rs:624-862 | Over every interleaving of callers, pool and workers: a request is begun to be written at most once over all retries, each attempt has at most one outcome, NotSent only if nothing of it was written, and a call about to retry has written nothing |
| `PoolGuarantees.CommandAccounted` | proxelar-proto/src/http1/connection.rs:677-862 | Every queued command is in exactly one place: queued, being worked on unanswered, or answered once |
| `PoolGuarantees.AllAnswered` | proxelar-proto/src/http1/connection.rs:848-862 | Once a worker is gone every command it was ever sent has exactly one outcome |
| `PoolGuarantees.PoolBounds` | proxelar-proto/src/http1/connection.rs:1190-1322 | In every reachable state a key has at most five pooled clients, all different; a connection carries at most one request from reservation to end of body; its queue holds at most one command; a call dials at most once |
| `PoolGuarantees.AtMostFiveServing` | proxelar-proto/src/http1/connection.rs:1190-1273 | At most five connections of a key are serving a request, counting also those no longer in the pool |
| `PoolGuarantees.NeverBlocked` | proxelar-proto/src/http1/connection.rs:624-640 | A caller that holds a permit can send at once: the one-slot channel is empty or closed |
| `PoolGuarantees.PermitsConserved` | proxelar-proto/src/http1/connection.rs:579-649 | No permit is lost: a connection nobody occupies has its permit free |
| `PoolGuarantees.StepKeeps` | proxelar-proto/src/http1/connection.rs:677-862 | Every step of a caller or worker keeps the invariant of the pool |
| `Pipeline.HeadMeaning` | proxelar-proto/src/http1/connection.rs:1043-1065 | For every head, from its field values alone: the connection goes on exactly when no Connection item is close and, on HTTP/1.0, one is keep-alive; an upgrade is asked for by CONNECT or by an Upgrade field and an upgrade item; 100-continue is expected by exactly one such Expect field on HTTP/1.1 |
| `Pipeline.LoopTurn` | proxelar-proto/src/http1/connection.rs:257-346 | Every turn of the read loop, in those terms: after a whole body without an upgrade it reads on exactly when the Connection items leave the connection open |
| `FramingFields.FramingMeaning` | proxelar-proto/src/http1/validation.rs:223-241 | For every version and block, from the field values alone: the framing checks pass, with this result, exactly when the Connection items are in order and no body is announced, or every length item denotes one u64 and there is no Transfer-Encoding, or HTTP/1.1 has one plain chunked coding and no Content-Length |
| `FramingFields.ResponseMeaning` | proxelar-proto/src/http1/validation.rs:89-106 | The same for responses: 1xx and 204 pass only without framing fields |
| `FramingFields.OptionMeaning` | proxelar-proto/src/http1/connection.rs:1059-1065 | An option is found exactly when some Connection value is before, white space, the option in any case, white space, after, cut at commas |
| `FramingFields.ConnectionMeaning` | proxelar-proto/src/http1/validation.rs:243-271 | The Connection items are in order exactly when each is a token that may be nominated |
| `FramingFields.LengthMeaning` | proxelar-proto/src/http1/validation.rs:273-303 | A length is read exactly when there is a Content-Length field and every comma-separated item is a padded numeral of it |
| `FramingFields.CodingMeaning` | proxelar-proto/src/http1/validation.rs:305-355 | A coding is accepted exactly when the version is 1.1 and the only item of all the fields is chunked without parameters |
| `FramingChoice.RequestBodyMeaning` | proxelar-proto/src/http1/framing.rs:24-32 | An accepted request has chunks, a length or no body exactly as its fields say |
| `FramingChoice.ResponseBodyMeaning` | proxelar-proto/src/http1/framing.rs:34-52 | An accepted response has no body, a tunnel, chunks, a length, or a body until the end, as method, status and fields say |
| `HeadGrammar.ReadMeaning` | proxelar-proto/src/http1/parser.rs:90-167 | A head is found in a buffer exactly when the buffer starts with text that says it, line by line, within the limits, and target, Host and framing are in order |
| `HeadGrammar.WriteMeaning` | proxelar-proto/src/http1/serialize.rs:13-46 | A head is written exactly when its version is 1.0 or 1.1, no field is a pseudo-header, and target, Host and framing are in order |
| `HeadGrammar.RequestMeaning` | proxelar-proto/src/http1/validation.rs:75-87 | A request passes the checks exactly when target, Host and framing fields are in order |
| `BodyGrammar.ChunkedMeaning` | proxelar-proto/src/http1/framing.rs:266-374 | For every stream: the decoder finishes a chunked body with this data, these trailers and this rest exactly when the stream is chunk lines, data and CRLF, an empty chunk and a trailer block, within the limits, and then the rest |
| `BodyGrammar.SizeLineMeaning` | proxelar-proto/src/http1/framing.rs:431-465 | A size line is accepted exactly when it is padded hexadecimal digits of a number below 2^64 and extensions |
| `FieldText.TrailerBlockMeaning` | proxelar-proto/src/http1/framing.rs:402-411 | A trailer block is found at the front of a stream, and read as these fields, exactly when it says them line by line and none of them is forbidden there |
| `FieldText.LineMeaning` | proxelar-proto/src/http1/framing.rs:571-604 | A line is read as a field exactly when it is name, colon, padded value, and the field is valid |
| `FieldText.ForbiddenMeaning` | proxelar-proto/src/http1/framing.rs:608-619 | The names that may not trail are the six listed, in any case |
| `Truncation.BodyAtEnd` | proxelar-proto/src/http1/framing.rs:218-243 | Reading a body to the end of the stream: one that is not finished then is broken unless it was to last until then |
| `Truncation.TruncatedBody` | proxelar-proto/src/http1/framing.rs:218-243 | Every proper beginning of every body the encoder writes, in any delivery, is broken when the stream ends there, and what was handed over is a beginning of its data; only a body until the end is excepted |
| `Truncation.FixedBody` | proxelar-proto/src/http1/framing.rs:245-264 | For every stream and length: shorter streams break the body, longer ones leave exactly the rest |
| `Truncation.UntilEofBody` | proxelar-proto/src/http1/framing.rs:218-243 | A body until the end of the stream is the stream, in any delivery |
| `Truncation.TruncatedPipeline` | proxelar-proto/src/http1/connection.rs:257-406 | A stream of written requests that ends inside one: the requests before it are read as written, the one cut short is not taken for whole, and the loop fails |
| `Buffering.HeadHeld` | proxelar-proto/src/http1/parser.rs:256-279 | The reader waits for more of a head exactly when it has no blank line yet and neither head nor start line is too long: it never holds more than the limit |
| `Buffering.BodyHeld` | proxelar-proto/src/http1/framing.rs:266-374 | What a decoder keeps of its input is at most a size line or a trailer block within its limit without a broken line break, and never data |
| `FramingChoice.EndsAsSaid` | proxelar-proto/src/http1/connection.rs:408-447 | A connection ends with a response exactly when request or response ask for it or the body needs it, and the head that is sent says so |
| `ResponseBody.KeepAliveAgreement` | proxelar-proto/src/http1/connection.rs:843-846 | Client and server agree, from the head on the wire, on whether the connection goes on after a response |
| `BodyEncoder.EncoderAccepts` | proxelar-proto/src/http1/serialize.rs:152-231 | The encoder accepts exactly the frame lists that fit the framing: total length, data only, or trailers last and writable |
| `Announcement.RequestAnnounced` | proxelar-proto/src/http1/connection.rs:877-902 | A request is prepared exactly when its version can carry its body, its other fields stay, and its body is written exactly when its frames are as announced |
| `Announcement.ResponseAnnounced` | proxelar-proto/src/http1/connection.rs:408-514 | A response keeps its other fields; some carry no body whatever the frames; the others are written exactly when the frames are as announced |
| `ServerOutcomes.QuietRunServes` | proxelar-proto/src/http1/connection.rs:103-346 | Over every interleaving in which socket and service do not fail and responses close only where their requests do: a connection that has ended answered every request of the stream once, and ended as the read loop does |
| `ServerOutcomes.WrittenAreServed` | proxelar-proto/src/http1/connection.rs:103-346 | A server that is sent any list of requests in any delivery without the one bad cut answers all of them up to the first that closes or upgrades, and then closes or hands over, in every such interleaving |
| `ServerOutcomes.QuietGoesOn` | proxelar-proto/src/http1/connection.rs:103-406 | Such a run can always go on without a failure until there is a verdict |
| `ServerOutcomes.LastWord` | proxelar-proto/src/http1/connection.rs:122-207 | Whatever comes after it: a failing service makes the connection fail, a fault closes it in order only when it was malformed input and was answered, a closing response closes it |
| `ServerOutcomes.NeverOverfull` | proxelar-proto/src/http1/connection.rs:103-121 | Neither the request queue nor the body channel ever holds more than its capacity |
| `PoolOutcomes.FailuresHaveReasons` | proxelar-proto/src/http1/connection.rs:1190-1231 | Over every reachable state: a call that failed had dialled, or its last attempt failed; a stale pooled connection alone never fails a call; a call that succeeded has a response |
| `PoolOutcomes.StaleIsRetried` | proxelar-proto/src/http1/connection.rs:1206-1227 | A call whose pooled connection turned out stale starts again with its request, and the connection leaves the pool |
| `PoolOutcomes.FreeIsReused` | proxelar-proto/src/http1/connection.rs:1302-1322 | A call that finds a free pooled connection is served over it without dialling, and leaves it free |
| `PoolOutcomes.FreshIsKept` | proxelar-proto/src/http1/connection.rs:1233-1273 | A call that finds none dials, is served, and leaves the connection in the pool, free |
| `PoolOutcomes.ExchangeServes` | proxelar-proto/src/http1/connection.rs:677-846 | A call with a permit and nothing in its way gets its response, and the permit comes back |
| `PoolProgress.NeverStuck` | proxelar-proto/src/http1/connection.rs:624-1322 | In every reachable state every call that has not ended is brought on by some step that is no failure, cancellation or new call |
| `WorkerSteps.KeepReply` | proxelar-proto/src/http1/connection.rs:677-862 | Answering or draining a command keeps the invariant: its outcome is recorded once, against its last attempt |
| `CallerSteps.KeepSendCommand` | proxelar-proto/src/http1/connection.rs:624-640 | Sending on a closed channel returns the permit and the request; on an open one it queues one command |
| `CallerSteps.KeepRegister` | proxelar-proto/src/http1/connection.rs:1251-1273 | Registering a new client under the connect lock keeps the list within five and without repeats |
| `CallerSteps.KeepRemove` | proxelar-proto/src/http1/connection.rs:1275-1282 | Removing a failed client takes only connections that are leaving their loop out of the pool |
| `PoolEntries.PoolEntry.Choose` | proxelar-proto/src/http1/connection.rs:1302-1322 | Closed clients are dropped in place, the first free one is reserved, below five a new one is asked for, otherwise the clients are taken in turn |
| `PoolEntries.PoolEntry.RemoveIfCurrent` | proxelar-proto/src/http1/connection.rs:1275-1282 | Exactly the failed client is dropped from the list |
| `PoolEntries.ChoiceIsStep` | proxelar-proto/src/http1/connection.rs:1233-1249 | Every choice the list makes when nothing else moves is a step of the interleaved model with the same list and turn, and takes the caller where that choice leads: reserved, waiting, going for the lock, or dialing under it |
| `BodyDecoder.BodyDecoder.DecodeBuffer` | proxelar-proto/src/http1/framing.rs:157-189 | The zero-copy call returns the frame the copying call returns, takes exactly the bytes that call would report out of the buffer, and then reports zero; an error leaves the buffer alone |
| `BodyDecoder.BodyDecoder.DecodeSlice` | proxelar-proto/src/http1/framing.rs:153-155 | One call on caller-owned bytes: new state, status, data and count |
| `BodyDecoder.BodyDecoder.DecodeChunked` | proxelar-proto/src/http1/framing.rs:266-374 | The chunk loop over its state field, line by line |
| `BodyDecoder.BodyDecoder.DecodeFixed` | proxelar-proto/src/http1/framing.rs:245-264 | The fixed-length decoder over its remaining count |
| `BodyDecoder.BodyDecoder.DecodeEnd` | proxelar-proto/src/http1/framing.rs:218-243 | The end of the stream in place, as the machine takes it: Truncation.TruncatedBody says which bodies that breaks |
| `BodyDecoder.RejectInvalidPartialLine` | proxelar-proto/src/http1/framing.rs:413-429 | The scan reports exactly a line feed without carriage return before it, or a carriage return followed by something else |
| `BodyDecoder.ReadTrailers` | proxelar-proto/src/http1/framing.rs:548-606 | The trailer loop returns the fields of the block, or refuses it for form, forbidden names or number |
| `BodyFraming.DecodeThenRun` | proxelar-proto/src/http1/framing.rs:191-215 | One call of the decoder followed by the run of what it leaves is the run: no byte dropped or repeated |
| `ServerReader.ServerReader.ReadBody` | proxelar-proto/src/http1/connection.rs:365-406 | The body loop over socket and buffer delivers what the stream holds and leaves exactly the bytes behind the body |
| `ServerReader.ServerReader.AwaitHead` | proxelar-proto/src/http1/connection.rs:266-286 | The head loop reads until a head is complete, keeping what follows it |
| `ServerReader.ServerReader.ReadAll` | proxelar-proto/src/http1/connection.rs:257-346 | The whole read loop hands over the requests of the stream and ends as the stream says |
| `ServerReader.BodyAfterDecode` | proxelar-proto/src/http1/connection.rs:375-405 | Reading a body is one decoder call and then reading what it leaves |
| `BodyEncoder.BodyEncoder.Encode` | proxelar-proto/src/http1/serialize.rs:152-204 | Encoding a frame in place: bytes, remaining count and completion, and each refusal |
| `BodyEncoder.BodyEncoder.Finish` | proxelar-proto/src/http1/serialize.rs:207-231 | Finishing: the last chunk, nothing, or a length mismatch |
| `BodyEncoder.WriteBody` | proxelar-proto/src/http1/connection.rs:495-514 | The body writer sends each frame in turn and the end, and nothing for a body that may not be sent |
| `FramingChoice.PrepareRequest` | proxelar-proto/src/http1/connection.rs:877-902 | The header edits for a request, in place, and the framing chosen |
| `FramingChoice.PrepareResponse` | proxelar-proto/src/http1/connection.rs:449-493 | The header edits for a response, in place, the framing and whether the connection must close |
| `FramingChoice.WriteResponseHead` | proxelar-proto/src/http1/connection.rs:408-447 | All header edits of a response before it is sent, in place: close as asked by request or response, the framing, the Connection field |
| `RequestHead.HeadRoundTrip` | proxelar-proto/src/http1/serialize.rs:13-46 | A written head at the front of a buffer, its start line up to the limit, is read back with its values trimmed and the semantics the sender's checks found, whatever follows |
| `RequestHead.HeadPrefixWaits` | proxelar-proto/src/http1/parser.rs:256-279 | While any part of a written head is missing the reader asks for more, but for one part: a start line of exactly the limit cut between CR and LF is refused |
| `RequestHead.PrefixesWait` | proxelar-proto/src/http1/parser.rs:256-279 | Given room otherwise, every part of a head waits for the rest if and only if its start line is shorter than the limit |
| `RequestHead.ValidateTrimmed` | proxelar-proto/src/http1/validation.rs:75-87 | Trimming the values on the way changes nothing the checks look at, padded framing fields included |
| `Numbers.PutHex` | proxelar-proto/src/http1/serialize.rs:235-248 | The digit loop writes the hexadecimal form of the value |
| `Numbers.ParseHexExact` | proxelar-proto/src/http1/framing.rs:431-456 | Hexadecimal text is accepted exactly when its value is below 2^64, and denotes that value |
| `Numbers.HexRoundTrip` | proxelar-proto/src/http1/serialize.rs:235-248 | A printed size is read back as itself exactly when it is below 2^64 |
| `Numbers.ParseDecimalExact` | proxelar-proto/src/http1/validation.rs:273-303 | Decimal text is accepted exactly when its value is below 2^64 |
| `Numbers.DecimalRoundTrip` | proxelar-proto/src/http1/connection.rs:485-490 | A printed length is read back as itself exactly when it is below 2^64 |
| `ChunkLine.ParseChunkLineExact` | proxelar-proto/src/http1/framing.rs:431-465 | A size line is accepted with a value exactly when it is digits denoting that value below 2^64, optional white space, and extensions of the grammar |
| `ChunkLine.ParseExtensionsSound` | proxelar-proto/src/http1/framing.rs:467-503 | Every accepted extension text is a rendering of well-formed extensions |
| `ChunkLine.ParseExtensionsComplete` | proxelar-proto/src/http1/framing.rs:467-503 | Every rendering of well-formed extensions is accepted, as those extensions |
| `ChunkLine.AcceptedLineIsOneLine` | proxelar-proto/src/http1/framing.rs:431-456 | An accepted size line holds no line break |
| `ChunkLine.ConsumeQuotedString` | proxelar-proto/src/http1/framing.rs:512-539 | The cursor loop stops behind the closing quote or finds none |
| `ChunkLine.ValidateChunkExtensions` | proxelar-proto/src/http1/framing.rs:467-503 | The cursor loop accepts exactly what the grammar does |
| `Lines.CutWrittenLines` | proxelar-proto/src/http1/framing.rs:548-606 | Cutting written lines at line feeds gives the lines back |
| `Lines.BlockEnd` | proxelar-proto/src/http1/framing.rs:402-411 | The first blank line behind written lines is the one that closes them |
| `Trailers.TrailersRoundTrip` | proxelar-proto/src/http1/framing.rs:548-606 | A written trailer block is found whole, and parsed to its fields with trimmed values, whatever follows; an empty one vanishes |
| `Trailers.AppendHeaders` | proxelar-proto/src/http1/serialize.rs:84-112 | The serializer loop appends one line per field, or refuses pseudo-headers and forbidden trailers |
| `HeaderValidation.ContentLengthMeaning` | proxelar-proto/src/http1/validation.rs:273-303 | A length is accepted exactly when there is an item and every comma-separated item of every field denotes it |
| `HeaderValidation.ParseContentLengthLoop` | proxelar-proto/src/http1/validation.rs:273-303 | The loop over fields and items finds that length |
| `HeaderValidation.ParseTransferEncodingLoop` | proxelar-proto/src/http1/validation.rs:305-355 | The loop over codings: one final plain chunked and nothing else |
| `HeaderValidation.TokensOfTrimmed` | proxelar-proto/src/http1/validation.rs:243-271 | Trimming field values leaves the Connection tokens as they are |
| `HeaderValidation.FramingOfTrimmed` | proxelar-proto/src/http1/validation.rs:223-355 | The framing checks give one result for a block and for its trimmed copy, since they trim every item themselves |
| `Bytes.TrimOwsMeaning` | proxelar-proto/src/http1/validation.rs:357-365 | Trimming takes spaces and tabs off both ends and nothing else |
| `Bytes.TrimOwsLoop` | proxelar-proto/src/http1/validation.rs:357-365 | The two loops compute that |
| `Headers.SetFieldMeaning` | proxyapi_models/src/lib.rs:287-301 | Setting a name leaves it with that one value and every other name as it was |
| `Headers.SetFieldPlace` | proxyapi_models/src/lib.rs:287-301 | The new field stands where the first of its name stood, or last |
| `Headers.HeaderBlock.Set` | proxyapi_models/src/lib.rs:287-301 | The in-place edit, or a refused field and an unchanged block |
| `Headers.HeaderBlock.Remove` | proxyapi_models/src/lib.rs:304-309 | Every field of the name is gone, the others stay in order, and the count is returned |
| `Headers.ValidFieldShape` | proxyapi_models/src/lib.rs:336-372 | A valid field fits on one line and its name holds no white space nor a colon but a leading one |
| `Protobuf.VarintRoundTrip` | proxyapi/src/content.rs:630-660 | Decoding inverts encoding for every u64, in one to ten bytes, whatever follows |
| `Protobuf.VarintFits` | proxyapi/src/content.rs:630-646 | An accepted varint fits a u64 and takes at most ten bytes |
| `Protobuf.ReencodedVarint` | proxyapi/src/content.rs:630-660 | Re-encoding an accepted varint is no longer than it was, and the same bytes exactly when it was minimal |
| `Protobuf.FieldsRoundTrip` | proxyapi/src/content.rs:508-619 | Decoding an encoded field list returns that list |
| `Protobuf.Reencoded` | proxyapi/src/content.rs:508-619 | Re-encoding any accepted body decodes to the same fields and is byte-identical if and only if all its varints are minimal |
| `Protobuf.LongZero` | proxyapi/src/content.rs:508-563 | A body with a zero varint in two bytes is accepted, not minimal, and one byte shorter when written again |
| `Protobuf.ReadVarint` | proxyapi/src/content.rs:630-646 | The shifting loop reads the varint at the cursor and moves past it |
| `Protobuf.WriteVarint` | proxyapi/src/content.rs:648-660 | The loop pushes the groups of seven bits |
| `Protobuf.ProtobufToFields` | proxyapi/src/content.rs:508-563 | The cursor loop over a body, with every refusal |
| `Protobuf.FieldsToProtobuf` | proxyapi/src/content.rs:565-619 | The loop over fields into an output |
| `ProtobufWire.BodyMeaning` | proxyapi/src/content.rs:508-563 | A body is read as this field list exactly when it is the fields' wire forms one behind the other: a varint of eight times the number plus the wire type 0, 1, 2 or 5, and the value |
| `ProtobufWire.FieldMeaning` | proxyapi/src/content.rs:508-563 | One field, from number 1 to 536,870,911: fixed values in four or eight bytes, the least first, text behind its length |
| `ProtobufWire.VarintMeaning` | proxyapi/src/content.rs:630-646 | A varint is read exactly where one to ten bytes stand, all but the last with the top bit, whose seven-bit digits make a u64 |
| `ProtobufWire.KeyRefused` | proxyapi/src/content.rs:508-563 | A readable key is refused for its number exactly below 8 and from 2^32 on, and for its wire type exactly when that is 3, 4, 6 or 7 |
| `ProtobufWire.WrittenForm` | proxyapi/src/content.rs:565-619 | What is written for a field list is a wire form of it |
| `ProtobufWire.ShortestForm` | proxyapi/src/content.rs:565-619 | No wire form of a field list is shorter than the one that is written |
| `DnsName.NameRoundTrip` | proxyapi_models/src/dns.rs:125-206 | Parsing the printed form of any valid name returns its exact labels, dots, backslashes and arbitrary octets included, with or without a final dot |
| `DnsName.ParseMeaning` | proxyapi_models/src/dns.rs:146-206 | The parser accepts exactly the texts that spell labels within the limits, and returns them |
| `DnsName.ParseIsSpelling` | proxyapi_models/src/dns.rs:157-205 | The running length reproduces the limits on the whole name at every point |
| `DnsName.FromLabels` | proxyapi_models/src/dns.rs:60-82 | Labels are accepted exactly when each has 1 to 63 octets and the wire form at most 255 |
| `DnsName.FromText` | proxyapi_models/src/dns.rs:152-206 | The cursor loop computes the parse |
| `DnsName.SubdomainMeaning` | proxyapi_models/src/dns.rs:91-99 | A name is below another when it is labels in front of it, case aside |
| `DnsName.SubdomainOrder` | proxyapi_models/src/dns.rs:89-110 | Below is reflexive and transitive, everything is below the root, and two names below each other are equal |
| `DnsPacket.OverrideIsRead` | proxyapi/src/proxy/dns.rs:302-331 | For every query accepted and every address: the made-up response is read as the same query, and as exactly that address if the family is the one asked for and as none otherwise; identifier kept, response bit set, no error code, no further records |
| `DnsPacket.NxdomainIsRead` | proxyapi/src/proxy/dns.rs:333-342 | The refusal is read as the same query and carries no records |
| `DnsPacket.SkipAgrees` | proxyapi/src/proxy/dns.rs:277-300 | Stepping over a name ends where the query parser ends it |
| `DnsPacket.LabelsAlone` | proxyapi/src/proxy/dns.rs:202-221 | A name is read from its own bytes alone |
| `DnsPacket.QuestionLength` | proxyapi/src/proxy/dns.rs:195-231 | The end of the question is given by the labels, at most 271 |
| `DnsPacket.ReadQuery` | proxyapi/src/proxy/dns.rs:195-231 | The cursor loop parses the query |
| `DnsPacket.StepOverName` | proxyapi/src/proxy/dns.rs:277-300 | The cursor loop steps over a name or pointer |
| `DnsPacket.ReadResponse` | proxyapi/src/proxy/dns.rs:233-275 | The loops over questions and answers collect the addresses |
| `DnsPacket.MakeOverride` | proxyapi/src/proxy/dns.rs:302-331 | The query is patched and extended in place to that response |
| `DnsWire.LabelsMeaning` | proxyapi/src/proxy/dns.rs:202-221 | A name is read exactly where its labels stand, each behind its length, and the root |
| `DnsWire.QueryMeaning` | proxyapi/src/proxy/dns.rs:195-231 | A packet is a query exactly when it asks one question whose name within the limits stands behind the header, with type and class behind it |
| `DnsWire.ResponseIsRead` | proxyapi/src/proxy/dns.rs:233-275 | Any response, whatever its flags and questions, is read as the addresses of its answer records in order: type 1 with four octets, type 28 with sixteen; names may end in a pointer |
| `DnsWire.RecordsAreRead` | proxyapi/src/proxy/dns.rs:245-275 | Records of any name, type, class, time to live and data are stepped over or read in order |
| `DnsWire.OverrideHolds` | proxyapi/src/proxy/dns.rs:302-331 | The made-up response octet by octet: flags, counts, question, a pointer to the question's name, type, class 1, time to live, length and address |
| `DnsWire.NxdomainHolds` | proxyapi/src/proxy/dns.rs:333-342 | The refusal octet by octet |
| `OrderedHeaders.DeltaMeaning` | proxyapi/src/handler.rs:96-147 | Applying the difference of two maps to a block of the first gives a block of the second, and the fields of unchanged names stay byte for byte, in order |
| `OrderedHeaders.AlwaysRepresented` | proxyapi/src/handler.rs:56-94 | Over any run of edits and synchronisations the block that would be sent carries exactly the values of the live map |
| `OrderedHeaders.UneditedStay` | proxyapi/src/handler.rs:80-94 | Fields of names no edit touches stay byte for byte as written, in order, over any run |
| `OrderedHeaders.ToMapRepresents` | proxyapi/src/header.rs:33-41 | A block that converts to a map is represented by it |
| `OrderedHeaders.FromMapRepresents` | proxyapi/src/header.rs:25-30 | A block made from a map carries its values |
| `OrderedHeaders.ChangedExactly` | proxyapi/src/handler.rs:101-109 | The names found changed are exactly those whose values differ, each once |
| `HeaderOrder.PreservedIsSent` | proxyapi/src/handler.rs:56-81 | A block is preserved exactly when a map can hold its names and values, and is then sent byte for byte over any run that does not change the map |
| `HeaderOrder.ChangedInPlace` | proxyapi/src/handler.rs:110-139 | New values of a name stand where its first field stood, under the name as it was written there |
| `HeaderOrder.AddedLast` | proxyapi/src/handler.rs:140-146 | The values of a name the block did not have come last |
| `OrderedHeaders.ApplyHeaderMapDelta` | proxyapi/src/handler.rs:96-147 | The loops compute that block |
| `OrderedHeaders.MessageHeaders.PreserveHeaders` | proxyapi/src/handler.rs:56-68 | Preserving replaces the map and keeps the block, or fails and changes nothing |
| `OrderedHeaders.MessageHeaders.SynchronizePreserved` | proxyapi/src/handler.rs:83-94 | Synchronising brings the block up to the live map |
| `Journal.JournalReplay` | proxyapi/src/session.rs:214-504 | For every session a recorder can reach by any events and clears, recording its journal into a fresh recorder rebuilds the identical session, repeated identifiers and full streams included |
| `Journal.ReplayExact` | proxyapi/src/session.rs:420-504 | Any session is rebuilt by its journal if and only if it is canonical |
| `Journal.EditedSession` | proxyapi/src/session.rs:420-504 | A session with two requests under one identifier is not canonical, and its journal makes another |
| `Journal.RecordCanonical` | proxyapi/src/session.rs:224-367 | Recording any event keeps a session canonical |
| `Journal.ReplayStream` | proxyapi/src/session.rs:450-472 | A stream is rebuilt at its place; one whose identifier occurred before had nothing to rebuild |
| `Journal.SessionRecorder.RecordEvent` | proxyapi/src/session.rs:224-367 | One event applied to the recorder's lists |
| `Journal.SessionRecorder.ClearAll` | proxyapi/src/session.rs:214-220 | Clearing keeps only the creation time |
| `JournalMeaning.FlowsTold` | proxyapi/src/session.rs:226-241 | After any events: requests stand in the order in which their identifiers were first completed, each once, with what was told of it last |
| `JournalMeaning.DatagramsTold` | proxyapi/src/session.rs:354-364 | The same for datagrams |
| `JournalMeaning.SocketsTold` | proxyapi/src/session.rs:242-283 | WebSocket connections stand in the order in which their identifiers first connected, each as it connected last, with the frames since, closed if closed since; frames before that leave no trace |
| `JournalMeaning.StreamsTold` | proxyapi/src/session.rs:285-320 | Streams stand in the order in which they were opened, each with the first ten thousand chunks told since, closed if closed since; one under an identifier in use gains nothing |
| `JournalMeaning.LookupsTold` | proxyapi/src/session.rs:321-352 | Name lookups stand in the order in which they were asked, each with the last answer since, if any; one under an identifier in use gains none |
| `JournalMeaning.ClearStartsOver` | proxyapi/src/session.rs:214-222 | Whatever was recorded before a clear leaves nothing but the creation time |
| `Capture.CollectTransparent` | proxyapi/src/handler.rs:408-503 | Whatever the frames and the limit, what is sent on after collecting reads as the original, fault included; the outcome and the captured bytes are those the data, fault and limit determine |
| `Capture.CapturesAgree` | proxyapi/src/body.rs:43-59 | For a sound body, collecting and capturing under one limit keep the same bytes and agree on truncation |
| `Capture.CollectBody` | proxyapi/src/handler.rs:408-484 | The collecting loop over the stream, leaving the rest of a long body in place behind its prefix |
| `Capture.BodyCapture.Append` | proxyapi/src/body.rs:43-59 | The copy stays the prefix of all data seen up to the limit, marked truncated exactly when more was seen |
| `Capture.CaptureBody.Next` | proxyapi/src/body.rs:91-110 | Each item is passed on unchanged, its data copied, and the callback run at the end or a fault |
| `Capture.PassThrough` | proxyapi/src/body.rs:71-135 | A whole body passed through: the very items, one callback, and the prefix |
| `Capture.PrefixBody.Next` | proxyapi/src/body.rs:142-151 | The prefix frames come first, then the body |
| `FilterSyntax.ParserIsGrammar` | proxyapi/src/filter.rs:457-564 | The parser accepts exactly the token lists the grammar derives and returns their derivation |
| `FilterSyntax.OneDerivation` | proxyapi/src/filter.rs:473-526 | The grammar is unambiguous: negation binds closest, then and, then or; both lean left, and neighbours are joined by and |
| `FilterSyntax.OrComplete` | proxyapi/src/filter.rs:473-480 | A derived or-expression is parsed as derived and left where it ends |
| `FilterSyntax.OrSound` | proxyapi/src/filter.rs:473-480 | What is parsed was derived from the tokens consumed |
| `FilterSyntax.Parser.DescendOr` | proxyapi/src/filter.rs:473-480 | The loop builds the left-associated tree and leaves the cursor behind it |
| `FilterSyntax.Parser.DescendAnd` | proxyapi/src/filter.rs:482-497 | The loop joins neighbours with or without an ampersand |
| `FilterSyntax.Parser.DescendUnary` | proxyapi/src/filter.rs:499-505 | Negation and primaries by descent |
| `FilterSyntax.Parser.DescendTerm` | proxyapi/src/filter.rs:528-564 | Terms: aliases take the next word, field names are recognised before a colon |
| `FilterText.FilterRoundTrip` | proxyapi/src/filter.rs:88-103 | Tokenizing and parsing the printed form of an expression gives the expression back |
| `FilterText.AcceptedPrints` | proxyapi/src/filter.rs:88-103 | Every accepted filter prints to a text that is accepted with the same meaning |
| `FilterText.TokensRoundTrip` | proxyapi/src/filter.rs:592-681 | Tokenizing printed tokens gives them back, whatever their words hold |
| `FilterText.PlainIsParsed` | proxyapi/src/filter.rs:550-564 | Every term the parser makes can be printed: lowered needle, no field prefix, not empty |
| `FilterText.ReadTokens` | proxyapi/src/filter.rs:592-681 | The tokenizer's loop over characters |
| `FilterText.ReadWord` | proxyapi/src/filter.rs:643-677 | A bare word with quoted stretches |
| `FilterText.ReadQuoted` | proxyapi/src/filter.rs:621-642 | A quoted value with backslash escapes |
| `FilterLexis.TokensMeaning` | proxyapi/src/filter.rs:592-681 | Text is tokenized exactly when it is made of blanks, signs, quoted values and bare words with quoted stretches, and its tokens are theirs; otherwise a quote is open |
| `FilterLexis.FilterMeaning` | proxyapi/src/filter.rs:88-103 | Text made of such pieces is the filter its tokens are derived from, and matches all when there are none |
| `FilterTerms.FieldMeaning` | proxyapi/src/filter.rs:566-590 | The names of each field, in any case, as a table |
| `FilterTerms.PlainMeaning` | proxyapi/src/filter.rs:550-564 | A word is a term on a field exactly when it is a name of the field, a colon and a value, and otherwise on any field; the needle is lowered and never empty |
| `FilterTerms.AliasIsName` | proxyapi/src/filter.rs:528-549 | An alias and a value are the same term as any name of its field, a colon and the value |
| `Http2Head.RequestRoundTrip` | proxelar-proto/src/http2/mod.rs:36-156 | An encoded request is accepted by the decoder if and only if an extended :protocol comes with CONNECT, and is read as the same request with names in lower case and without Host, connection-specific and nominated fields, in order |
| `Http2Head.ExtendedGet` | proxelar-proto/src/http2/mod.rs:36-75 | A GET with :protocol is encoded, under any rules that know its parts, and what comes out is refused by the decoder |
| `Http2Head.EncodeStable` | proxelar-proto/src/http2/mod.rs:36-156 | Encoding what was decoded from an encoding gives the same block |
| `Http2Head.ResponseRoundTrip` | proxelar-proto/src/http2/mod.rs:158-203 | An encoded response is accepted with its status and kept fields, and encoding that again gives the same block |
| `Http2Head.ScanAccepts` | proxelar-proto/src/http2/mod.rs:79-113 | The decoder's scan accepts exactly the blocks with known pseudo-headers first, each once, then lower-case regular fields that may be sent |
| `Http2Head.KeptAreInbound` | proxelar-proto/src/http2/mod.rs:61-75 | Every field the encoder keeps passes the receiver's checks and is neither nominated nor Host |
| `Http2Head.ScanBlock` | proxelar-proto/src/http2/mod.rs:79-113 | The decoding loop fills the slots and keeps the regular fields |
| `Http2Head.KeepFields` | proxelar-proto/src/http2/mod.rs:61-75 | The encoding loop keeps the fields that may be sent |
| `Http2Fields.KeptMeaning` | proxelar-proto/src/http2/mod.rs:61-75 | Kept fields are, in order, exactly those that are not pseudo-headers, Host, connection-specific or nominated, with names in lower case and values as they were |
| `Http2Fields.KeptAccepts` | proxelar-proto/src/http2/mod.rs:61-75 | Fields are refused exactly for a pseudo-header in a response, a te other than trailers, or a name or value a field cannot have |
| `Http2Fields.NominatedMeaning` | proxelar-proto/src/http2/mod.rs:390-411 | A name is nominated exactly when some Connection value has it as an item between commas, white space and case aside; all items must be names |
| `Http2Fields.RequestArrives` | proxelar-proto/src/http2/mod.rs:36-156 | What a request is decoded as, part by part: method, scheme, path, authority or Host, :protocol, and exactly the kept fields |
| `Http2Fields.ResponseArrives` | proxelar-proto/src/http2/mod.rs:158-203 | What a response is decoded as: its status and exactly the kept fields |
| `Http2Fields.DecoderAccepts` | proxelar-proto/src/http2/mod.rs:78-156 | A request block is accepted exactly when its fields and pseudo-headers are in order, for a plain CONNECT, an extended one and any other method |
| `Http2Fields.DecoderReads` | proxelar-proto/src/http2/mod.rs:78-156 | An accepted block, its pseudo-headers in any order, is read as the head they carry and the regular fields as they are |
| `Http2Fields.ResponseDecoderAccepts` | proxelar-proto/src/http2/mod.rs:180-203 | A response block is read exactly when it is one :status field of three digits, the first not zero, and regular fields in order |

## Left out

- Errors are compared by verdict: which error a malformed body, head or expression yields is
  modelled where one function decides it, but error kinds of a body are not claimed to be
  independent of how the stream is cut, because they are not.
- The tokenizing of a head inside the head library: a head is cut at the first blank line, a
  request line is three words, field values lose outer spaces and tabs. The library refuses
  some malformed prefixes earlier and tolerates blank lines before a request line.
- URIs, authorities and schemes are parsed by libraries; the models take "is accepted" as
  parameters (`RequestHead.UriRules`, `Http2Head.Rules`), as they do the decoding of UTF-8.
- Status lines and informational responses as text: the response side is modelled from the
  header block that is sent and the body on.
- A service that holds on to a request body after its response is written: the model takes
  the body for let go then, as it takes any earlier moment.
- How many frames a body comes in on the server's body channel: any number may pass.
- Timeouts, wakers and cancellation inside a read or write: a failing step may happen at any
  point instead. Cancelling a caller is modelled.
- Sockets deliver any pieces; the models allow empty ones too.
- The service that answers requests and the connector that dials are arbitrary: any response,
  any failure, at any time.
- Direct users of a client handle outside the pool, and the fairness of locks and semaphores.
- The error text of a 400 answer, and a queue send failing because the receiver is gone: the
  receiver outlives the reader.
- JSON, base64 and UTF-8 around Protobuf fields, sessions and DNS names; writing files, HAR,
  curl and raw export; redaction.
- Printing of IP addresses: answers are kept as octets.
- Matching filters against flows, content previews, status and colour tables: each is settled
  by reading one branch.
- Inline storage of short header fields, which behaves as the plain pair of byte strings.
- The HTTP/2 adapters that go through the HTTP/2 library's own request and header types, and
  HTTP/2 trailers.
- Protocol sniffing of a first read, interception, TLS, WebSocket framing, scripting and the
  user interfaces.
- ServerOutcomes.WrittenAreServed: asks the same of limits and delivery as
  Pipeline.PipeliningAny, and that socket and service do not fail.
- BodyEncoder.BodyRoundTripCut: asks for one spare byte on every size line, because a line of
  exactly the limit is not accepted in every delivery.
- Pipeline.PipeliningAny: asks that the server's limits hold each head, and each size line with
  one byte to spare; that no read cuts a start line of exactly the limit between CR and LF; and
  that a body announced as empty be empty.
- FramingChoice.ResponseFramingAgreement: says nothing of a response whose head fails the
  sender's own checks, because it is not sent; FramingChoice.ResponseHeadAccepted says which.
- Http2Head.RequestRoundTrip: asks that the authority taken from a Host field be one the URI
  library accepts.
- Journal.SessionRecorder.RecordEvent: records into lists of values; sharing of message bodies
  between copies is not visible.
