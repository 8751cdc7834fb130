# A verified model of the MCP SDK's protocols, codecs and agreement structures

This project models the parts of the SDK whose correctness cannot be read off one function
and proves what they promise. One module stands for one component. Objects and `Ref`s that
the source updates are classes whose methods are proved equal to functions on their state;
concurrent protocols are state machines with one step per `Ref` update, gate section, queue
take, state read or send boundary, and their theorems hold in every interleaving (`Run` over
any sequence of steps). Loops of the source are methods proved against a specification
function, and the properties are lemmas about that function.

**Request ownership.** `ServerOwnership` follows the server dispatcher: handlers, notification
sinks, cancellations and terminal writes run concurrently over reusable request ids, with
reference-compared owners and a per-owner gate. Every owner's events form a legal trace, a fibre
leaves `complete` only answered or claimed, and which responses and notifications are still possible
is decided exactly, as the existence of a continuation of the run.
`ClientOwnership` follows the client dispatcher's registrations, final events, abandonment and
close. `SubscriptionRuntime` follows the gate, the bounded output and the settling of a client
subscription against its reading fibre, its caller and its consumer. `SseResponse` follows the
lock, the frame slots, the control item and the delivery acknowledgements of a streamed response.

**Codecs.** `StdioFraming` and `SseParser` prove the chunked readers equal to readings of the
whole byte stream line by line, and that they read back what the writers write, under every
split. `SseConversation` gives the grammar of an event-stream response and proves that the
message filter accepts exactly it. `Base64`, `Utf8` and `HeaderValues` are exact codecs.
`IntegerHeader` proves the digit-string comparison of integer headers, clamped exponent
included, to be equality of rational numbers.

**Agreement structures.** `CanonicalJson` and `CacheKeys` prove that key texts agree exactly on
structurally equal keys; `MemoryCache` refines LRU, with inclusion between capacities;
`CacheEpochs` is the epoch protocol between requests and change notifications. `ToolHeaders`
and `ToolHeaderAgreement` cover the schema walk, the client's extraction, the server's
validation and why they agree. `PaginationCursors` and `Paging` cover paging over a changing
registry. `RequestEnvelope` and `RequestState` cover sealed single-use state.
`SchemaReferences` and `SchemaResolution` cover reference collection and the bounded worklist.

**Bounded retries.** `HttpRetries` is the HTTP retry policy with its two one-shot flags, and
`MultiRound` the multi-round loop over it; the server is any function from the number of a POST
to its answer.

`Common`, `Decimal`, `JsonText` and `SubscriptionFilters` hold shared vocabulary: JavaScript
strings as UTF-16 code-unit sequences, decimal digits, JSON string literals, filters.

## What the code does that its surroundings might not expect

- A stdio chunk that contains a bad line emits none of the good lines before it in the same
  chunk, so the same bytes can emit more or less by their split (`StdioFraming.SplitDecides`).
  Emitted is exactly the reading of the chunks before the first one with a bad line, which is
  everything before the bad line if and only if that chunk's own first line is bad (`DecodeStream`).
- A notification of an old owner may be written after its id was reused
  (`ServerOwnership.NotificationMayOutliveItsId`). Terminals never are. An owner that lost its id
  can still start a notification if and only if one has passed the phase check under its gate
  and waits to be sent (`LateNotificationPossible`); it starts that one at most, and none once its
  terminal was started (`LateNotificationsExactly`).
- A lookup can hit an entry that an announced change made stale in two windows: between an epoch
  bump and its invalidation (`CacheEpochs.BumpWindowCanHit`), and between a late store and its second
  check (`StoreWindowCanHit`). There are no others (`StaleEntryIsCovered`), and in quiescence none is left.
- Sealing accepts states of up to 8192 bytes whose escapes outgrow the 16384 characters a token
  may have when it is opened (`RequestState.EscapesOutgrowTheToken`). Opening undoes sealing if and
  only if the printed envelope takes at most 12259 bytes (`SealThenOpen`, `OpenUndoesSeal`).
- The envelope decoder drops a leading byte order mark, so a plaintext with one is accepted too.
- Reference collection joins a document's own `$id` to a base that already holds it. For a
  relative `$id` with a directory the walk asks for other documents than the references mean
  (`SchemaReferences.RelativeIdAppliesTwice`), and a successful resolution can then leave a meant
  reference unanswered (`SchemaResolution.ResolvedButNotAsMeant` is such a run). Under the path merge the walk is right for
  every document with a given relative `$id` exactly when that has no slash (`DirectoryFreeExactly`); for any
  URLs and one reference exactly when both bases name the same (`OneReferenceExact`). An `$id` whose
  second join changes nothing is harmless (`StableIdIsHarmless`), as is one that does not look at
  its base (`AbsoluteIdIsStable`), and where every `$id` is so, `ResolveDocuments` is closed under
  the meant references.
- Cursors are evicted before a token is drawn and stored after it, so overlapping issues can leave
  more cursors than the capacity (`Paging.OverlapExceeds`): one more for each further issue that
  ever overlapped there, and none while they do not (`CursorsBounded`, `PeakIsMost`).
- An acknowledgement with an empty URI list is refused when no URIs were requested, although it
  selects nothing (`SubscriptionFilters.SubsetIsSelection`).
- Tool arguments with a lone surrogate are sent with a replacement character, which the server
  then refuses (`ToolHeaderAgreement.ClientAndServerAgree`).

## Model

| member | source | states |
|---|---|---|
| ServerOwnership.Dispatcher.TryRegister | src/McpDispatcher.ts:735-759 | a request is accepted only while its id is free, and then runs under a fresh owner |
| ServerOwnership.Dispatcher.TryBeginTerminal | src/McpDispatcher.ts:593-603 | the owner moves to TerminalWriting exactly when it holds the id in Running; nothing else changes |
| ServerOwnership.Dispatcher.ReleaseOwner | src/McpDispatcher.ts:604-611 | an id is released only by the owner that holds it |
| ServerOwnership.Dispatcher.TryClaimCancellation | src/McpDispatcher.ts:761-780 | a running request is claimed for cancellation at most once |
| ServerOwnership.Dispatcher.MarkOwnerCancelling | src/McpDispatcher.ts:780-801 | a claim becomes Cancelling only while its own owner still holds the id |
| ServerOwnership.RunInv | src/McpDispatcher.ts:553-801 | the dispatcher's invariant holds after every interleaving of handlers, notifications, cancellations and releases |
| ServerOwnership.RunLegal | src/McpDispatcher.ts:593-801 | every owner's wire events form a legal trace: notifications, then at most one terminal, none after it or after cancellation |
| ServerOwnership.TraceOrder | src/McpDispatcher.ts:612-733 | no event follows a terminal or a finished cancellation, no terminal follows a claim, nothing but its end follows a terminal's start |
| ServerOwnership.TraceTriple | src/McpDispatcher.ts:644-700 | after a cancellation claim at most one more notification, already past its check, is started |
| ServerOwnership.TerminalOwnsItsId | src/McpDispatcher.ts:612-642 | while a terminal is sent its own owner holds the id; a finished fibre holds none |
| ServerOwnership.ReuseNeverMixesTerminals | src/McpDispatcher.ts:593-642 | once an id is registered again no terminal of an older owner of that id starts or ends |
| ServerOwnership.NotificationMayOutliveItsId | src/McpDispatcher.ts:644-700 | a run in which an older owner's notification is sent after its id was reused |
| ServerOwnership.ReleasedOwnerNotifies | src/McpDispatcher.ts:604-700 | from any moment at which an owner does not hold its id, over every further run: it starts exactly the notification that was cleared under its gate then and no longer is, and is never cleared again |
| ServerOwnership.LateNotificationPossible | src/McpDispatcher.ts:644-700 | after any run, an owner without its id can start another notification in some continuation if and only if one is cleared under its gate |
| ServerOwnership.LateNotificationsExactly | src/McpDispatcher.ts:593-700 | in every run, after an id is registered again an older owner of it starts one notification if one was cleared under its gate at that step and no longer is, and otherwise none; none at all if it started a terminal |
| ServerOwnership.NotificationPossible | src/McpDispatcher.ts:644-700 | after any run, an owner starts another notification in some continuation if and only if one is cleared under its gate, or it holds its id in Running and its response does not hold the gate |
| ServerOwnership.CompletedIsSettled | src/McpDispatcher.ts:593-642 | over every further run, an owner whose fibre was inside complete is still there, or its response was sent to the end, or it was claimed for cancellation; never both of the last two |
| ServerOwnership.TerminalPossible | src/McpDispatcher.ts:593-642 | after any run, an owner whose fibre waits to complete has its response sent in some continuation if and only if it still holds its id in Running |
| ServerOwnership.ClaimExactly | src/McpDispatcher.ts:761-780 | a cancellation claims the owner that holds the id in Running, and otherwise does nothing |
| ServerOwnership.ClaimCanTakeEffect | src/McpDispatcher.ts:761-801 | after any run, a pending claim has a continuation in which the owner is marked as cancelling and its fibre is interrupted |
| ClientOwnership.ClientState.TryRegister | src/McpDispatcher.ts:186-248 | a request registers only on an open dispatcher and a free id |
| ClientOwnership.ClientState.RemoveOwner | src/McpDispatcher.ts:156-184 | exactly the owner that still holds the id is removed |
| ClientOwnership.ClientState.Close | src/McpDispatcher.ts:451-497 | closing hands back the active owners once and leaves nothing active |
| ClientOwnership.RunInv | src/McpDispatcher.ts:119-497 | the client dispatcher's invariant holds after every run |
| ClientOwnership.OwnershipConserved | src/McpDispatcher.ts:156-282 | a request is active or was removed, which queued its single final event unless its own stream dropped it |
| ClientOwnership.RemovalIsFinal | src/McpDispatcher.ts:156-184 | exactly one step removes a request: over every further run it stays removed for the same cause |
| ClientOwnership.FinalIsItsOwn | src/McpDispatcher.ts:156-282 | in every run the final event a consumer sees is the answer that removed its request, or the failure that did |
| ClientOwnership.FinalPossible | src/McpDispatcher.ts:186-282 | after any run, the consumer of an answered or failed request sees its final event in some continuation if and only if it has seen it or its stream has not shut the queue down |
| ClientOwnership.ResponseAnswers | src/McpDispatcher.ts:350-450 | a response answers the active request it reaches, a subscription only after its acknowledgement and when it is valid; otherwise the request fails |
| ClientOwnership.NotificationIsQueued | src/McpDispatcher.ts:284-348 | which notifications reach the queue of an active request with room, which are ignored and which fail it |
| ClientOwnership.OverflowFails | src/McpDispatcher.ts:265-282 | a notification that finds the queue full fails the request |
| ClientOwnership.ConsumerSeesOneFinal | src/McpDispatcher.ts:186-282 | a consumer sees notifications and then at most one final event |
| ClientOwnership.QueueWithinCapacity | src/McpDispatcher.ts:186-282 | in every run the queue of an owner holds at most 16 events |
| ClientOwnership.AbandonedOnceAfterSend | src/McpDispatcher.ts:186-248 | abandonment is signalled at most once, only after a completed send, never for an answered request |
| ClientOwnership.RemovalOwesAbandonment | src/McpDispatcher.ts:195-348 | a removal is followed by an abandonment check exactly when it was by the stream finalizer or by a message that breaks the protocol; not after an answer, a cancellation or the close |
| ClientOwnership.AbandonmentPossible | src/McpDispatcher.ts:171-263 | after any run, a removed request has its abandonment signalled in some continuation if and only if it was signalled or its check is still to come |
| ClientOwnership.SubscriptionSeesSelected | src/McpDispatcher.ts:284-348 | a subscription's consumer sees its acknowledgement first and then only changes the requested filter selects |
| ClientOwnership.ClosedForGood | src/McpDispatcher.ts:451-497 | once closed nothing is active and nothing registers |
| SubscriptionFilters.SubsetIsSelection | src/McpClient.ts:268-292 | an acknowledged subset selects only what was requested, and a filter that does so is a subset up to an empty URI list |
| SubscriptionFilters.SelectsByPart | src/McpClient.ts:268-292 | a filter selects what its parts select: each flag its own list change, the URIs the updates of those URIs, nothing else |
| SubscriptionRuntime.Runtime.SettleUnlocked | src/McpClient.ts:1722-1733 | only the first closure settles: it queues the closing take and rejects an open that was still waiting |
| SubscriptionRuntime.Runtime.AcknowledgeOpening | src/McpClient.ts:1761-1770 | the acknowledged filter is installed only while opening |
| SubscriptionRuntime.Runtime.SetTerminalResult | src/McpClient.ts:1772-1780 | a terminal result is noted only while open |
| SubscriptionRuntime.Runtime.OfferChange | src/McpClient.ts:1782-1807 | a notification is queued only while open and below 16 entries, and closes the subscription otherwise |
| SubscriptionRuntime.Runtime.Close | src/McpClient.ts:2042-2056 | the caller's close is graceful exactly when a terminal result is pending |
| SubscriptionRuntime.RunInv | src/McpClient.ts:1693-2056 | the runtime's invariant holds in every interleaving of frames, state reads, gate sections, consumer takes, closes and their interruptions of the reader |
| SubscriptionRuntime.ClosingAlwaysFits | src/McpClient.ts:1699-1733 | at most 16 notifications wait, the closing take always fits in 17, and no offer is ever lost |
| SubscriptionRuntime.OneClosure | src/McpClient.ts:1722-1736 | at most one closure settles; the consumer reads its closing take last, and a graceful closure repeats a terminal the server sent |
| SubscriptionRuntime.DeliveredIsSelected | src/McpClient.ts:1854-1930 | the consumer reads the server's changes in order from the first, each selected by the acknowledged and the requested filter |
| SubscriptionRuntime.AcknowledgementOpens | src/McpClient.ts:1854-1900 | an acknowledgement within the requested filter opens the subscription with its filter and settles the open |
| SubscriptionRuntime.ChangeIsOffered | src/McpClient.ts:1782-1930 | a sound selected change is queued, or closes an overfull subscription |
| SubscriptionRuntime.TerminalCloses | src/McpClient.ts:1772-2040 | a sound terminal is noted, and the end of the stream then closes gracefully with it |
| SubscriptionRuntime.OtherFramesBreak | src/McpClient.ts:1854-1960 | every other frame closes the subscription as broken, with the failure of the place it came in |
| SubscriptionRuntime.EarlyEndBreaks | src/McpClient.ts:1960-2040 | a stream that ends before its terminal closes the subscription as broken, for its own reason |
| SubscriptionRuntime.CallerCloses | src/McpClient.ts:2042-2056 | the close of the caller ends the subscription at once, gracefully exactly when a terminal is pending |
| SubscriptionRuntime.ClosedIgnoresFrames | src/McpClient.ts:1854-1870 | after the close frames change nothing |
| SubscriptionRuntime.DispatchFailureBreaks | src/McpClient.ts:1900-1960 | a change whose dispatch fails closes an open subscription as broken, once |
| SubscriptionRuntime.ConsumerTakesFirst | src/McpClient.ts:1699-1736 | the consumer takes the oldest item and changes nothing else |
| SseResponse.RunInv | src/transport/StreamableHttpServerTransport.ts:904-1090 | the response's invariant holds in every interleaving of senders, interrupts, failures, body reads and shutdown |
| SseResponse.OffersNeverWait | src/transport/StreamableHttpServerTransport.ts:904-1090 | whenever a frame or control item is offered the queue has room |
| SseResponse.QueueBounded | src/transport/StreamableHttpServerTransport.ts:904-1090 | queued frames never exceed taken slots, which never exceed maxPendingFrames; the queue holds at most one more |
| SseResponse.ControlIsLast | src/transport/StreamableHttpServerTransport.ts:904-1090 | at most one control item is offered, last; nothing else follows a terminal frame |
| SseResponse.AcknowledgementFirst | src/transport/StreamableHttpServerTransport.ts:904-1090 | a subscription's first frame is its acknowledgement |
| SseResponse.DeliveryInOrder | src/transport/StreamableHttpServerTransport.ts:904-1090 | the i-th value delivered is the i-th frame queued and completes that frame's acknowledgement |
| SseResponse.EncodedIsFramed | src/transport/StreamableHttpServerTransport.ts:904-1090 | an open response with a free slot frames every message that encodes; a terminal one is followed by the control item |
| SseResponse.UnencodedFails | src/transport/StreamableHttpServerTransport.ts:904-1090 | a message that does not encode ends an open response with a failure and is not framed |
| SseResponse.EndedTakesNothing | src/transport/StreamableHttpServerTransport.ts:904-1090 | a terminated or closed response takes nothing more |
| SseResponse.SourceFailureEnds | src/transport/StreamableHttpServerTransport.ts:904-1090 | a failing source ends an open subscription with a failure |
| SseResponse.InterruptedFramesNothing | src/transport/StreamableHttpServerTransport.ts:904-1090 | a sender interrupted before it has a slot frames nothing and frees the lock; only an interrupted opener ends the response |
| SseResponse.BodyTakesFirst | src/transport/StreamableHttpServerTransport.ts:904-1090 | the body takes the oldest item apart, gives back the slot of a frame and ends at the control item |
| SseResponse.SocketTakesFirst | src/transport/StreamableHttpServerTransport.ts:904-1090 | the socket gets the oldest value, with the oldest acknowledgement |
| StdioFraming.ReadLine | src/transport/StdioTransport.ts:103-115 | the newline branch decodes the joined line, one CR stripped, or refuses it by its length |
| StdioFraming.KeepTail | src/transport/StdioTransport.ts:93-101 | an unfinished line is kept exactly while some continuation could still be accepted |
| StdioFraming.ConsumeChunk | src/transport/StdioTransport.ts:77-119 | one chunk gives the messages of its complete lines and keeps the rest |
| StdioFraming.FeedAgrees | src/transport/StdioTransport.ts:77-119 | feeding a chunk peels exactly its complete lines off the line-by-line reading of the whole stream |
| StdioFraming.DecodeStream | src/transport/StdioTransport.ts:122-142 | for every split the failure is that of the line-by-line reading; emitted is exactly the reading of the chunks before the first one with a bad line, and everything before the bad line if and only if the first line that chunk completes is bad |
| StdioFraming.SplitDecides | src/transport/StdioTransport.ts:71-142 | a good and a bad line emit nothing in one chunk and the good message in two |
| StdioFraming.FirstLineDecides | src/transport/StdioTransport.ts:77-119 | a failing chunk completes no good line exactly when its own first line is the bad one or it completes none |
| StdioFraming.LineExactly | src/transport/StdioTransport.ts:77-119 | a line ended by LF or by CR LF is its content: refused when longer than the limit, else decoded, then the rest |
| StdioFraming.LineEndingsAgree | src/transport/StdioTransport.ts:103-115 | the reading of any lines is the same with LF, with CR LF and with any mixture |
| StdioFraming.Writer.Send | src/transport/StdioTransport.ts:176-191 | an open writer appends the encoded message and one LF; when it is closed, the message does not encode or the write fails, nothing is sent |
| StdioFraming.Writer.Close | src/transport/StdioTransport.ts:164-174 | after close every send fails |
| StdioFraming.FramesReadBack | src/transport/StdioTransport.ts:176-191 | the line-by-line reading of the written frames is the messages sent |
| StdioFraming.AnySplitReadsBack | src/transport/StdioTransport.ts:122-191 | the decoder run on the writer's bytes under any split emits exactly the messages sent and does not fail |
| SseParser.Reader.ReadChunk | src/transport/StreamableHttpClientTransport.ts:532-567 | reading a chunk, with a byte order mark split over chunks or a stream shorter than three bytes, loses no byte |
| SseParser.Reader.NextInput | src/transport/StreamableHttpClientTransport.ts:569-619 | whatever the chunks, the next event is the one of the line-by-line reading of the remaining bytes; LineEndingsAgree and EventsReadBack say what that is without its functions |
| SseParser.Reader.FinishLine | src/transport/StreamableHttpClientTransport.ts:488-517 | a finished line updates the pending event, is ignored, or dispatches the event, as the reference does |
| SseParser.EventBytes | src/transport/StreamableHttpClientTransport.ts:519-530 | the data lines joined with one LF between two of them |
| SseParser.PayloadBound | src/transport/StreamableHttpClientTransport.ts:488-530 | every payload is at most maxEventBytes long |
| SseParser.ReadAll | src/transport/StreamableHttpClientTransport.ts:532-619 | under every split the payloads and the failure are those of the stream read as a whole |
| SseParser.LineEndingsAgree | src/transport/StreamableHttpClientTransport.ts:569-619 | lines within the limit are read the same with LF, with CR LF and with any mixture, and behind one byte order mark |
| SseParser.EventsReadBack | src/transport/StreamableHttpClientTransport.ts:488-619 | events of data, comment, type, ignored and bare lines in any mixture, with or without a blank after the colon and with any line endings, are read back as their data values joined by LF, without failure |
| SseParser.OtherTypeFails | src/transport/StreamableHttpClientTransport.ts:488-530 | an event of another type than message fails |
| SseParser.LongLineFails | src/transport/StreamableHttpClientTransport.ts:569-619 | a line over the limit fails, whatever its ending and whatever follows |
| SseParser.FramesReadBack | src/transport/StreamableHttpServerTransport.ts:726-739 | server frames within the limits read back as the payloads sent, in order |
| SseParser.AnySplitReadsBack | src/transport/StreamableHttpClientTransport.ts:532-619 | the reader run on server frames under any split gives exactly the payloads sent and no failure, no byte order mark being mistaken |
| SseConversation.Validator.Validate | src/transport/StreamableHttpClientTransport.ts:675-762 | a message is passed on exactly when the flags and the acknowledged filter allow it, and updates them |
| SseConversation.ReadExact | src/transport/StreamableHttpClientTransport.ts:675-785 | a cleanly ended response reads without failure exactly when it is notifications and then its response, or a subscription's acknowledgement, selected changes and valid result |
| SseConversation.SubscriptionPasses | src/transport/StreamableHttpClientTransport.ts:711-750 | a subscription passes on its acknowledgement first and then only changes the requested filter selects |
| SseConversation.StreamsAreGrammatical | src/transport/StreamableHttpClientTransport.ts:675-785 | whatever is sent, notifications and then at most one terminal frame are passed on, and without a terminal the stream fails |
| Base64.EncodeBase64Url | src/RequestState.ts:479-491 | the loop computes the encoding of section 5 of RFC 4648 without padding |
| Base64.AlphabetExact | src/RequestState.ts:477-491 | the digits are the characters of the RFC 4648 alphabets, each with its position, and no other character has a value |
| Base64.DecodeBase64Url | src/RequestState.ts:493-508 | the loop and its re-encoding check compute the exact decoding |
| Base64.DecodeExact | src/RequestState.ts:477-508 | a text decodes to some bytes exactly when it is their encoding |
| Base64.AcceptedExactly | src/RequestState.ts:493-508 | accepted are exactly the texts of alphabet characters, not of length 1 mod 4, with zero spare bits |
| Utf8.RoundTripExact | src/transport/HttpMetadata.ts:69-130 | a string survives encoding and fatal decoding exactly when it has no lone surrogate |
| Utf8.EncodeInjective | src/RequestState.ts:396-404 | well-formed strings have different encodings |
| HeaderValues.UnpadExact | src/transport/HttpMetadata.ts:90-128 | a sentinel payload is accepted exactly when it is the padded base64 of some bytes |
| HeaderValues.RoundTripExact | src/transport/HttpMetadata.ts:105-130 | decoding undoes encoding, sentinel-looking values included, exactly for strings without lone surrogates |
| HeaderValues.PlainTravels | src/transport/HttpMetadata.ts:105-108 | a value that is printable, without outer blanks and not like a sentinel travels as it is, every other one as the sentinel around its base64 |
| HeaderValues.EncodedIsPlain | src/transport/HttpMetadata.ts:78-108 | every encoded value is printable ASCII without blanks at its ends |
| IntegerHeader.ParseExact | src/transport/HttpMetadata.ts:418-418 | the pattern matches exactly the renderings of literals, and returns the literal rendered |
| IntegerHeader.BoundedExponentIsClamp | src/transport/HttpMetadata.ts:420-429 | the digit-string comparison computes the exponent clamped to the limit, for exponents of any length |
| IntegerHeader.ClampIsHarmless | src/transport/HttpMetadata.ts:431-461 | clamping at coefficient plus target plus one never changes the answer |
| IntegerHeader.DigitTestExact | src/transport/HttpMetadata.ts:431-461 | the digit test holds exactly when the literal's rational value is the integer |
| IntegerHeader.ExactIntegerHeaderMatches | src/transport/HttpMetadata.ts:431-461 | true exactly when the text matches the grammar and its rational value equals the body |
| IntegerHeader.PrintedIntegerDenotesItself | src/transport/HttpMetadata.ts:390-399 | an integer's own text denotes it |
| ToolHeaders.PlanIsWellFormed | src/transport/HttpMetadata.ts:216-342 | an accepted plan's header names are tokens, unique up to case, each below a property path |
| ToolHeaders.PlanIsExact | src/transport/HttpMetadata.ts:216-342 | an accepted plan binds exactly the annotated places under property paths, each with its name, path and type; a rejection names a place at fault |
| ToolHeaders.Analyzer.VisitValue | src/transport/HttpMetadata.ts:216-342 | the walk updates bindings, names and the first reason as the recursive specification does |
| ToolHeaders.AnalyzeToolHeaders | src/transport/HttpMetadata.ts:216-342 | a plan, unique up to case, or the first reason to reject |
| ToolHeaders.ExtractToolHeaders | src/transport/HttpMetadata.ts:401-416 | the loop assigns one header per present argument or fails on the first of the wrong type |
| ToolHeaders.HeaderMatchesBody | src/transport/HttpMetadata.ts:463-467 | strings and booleans by their text, integers by the value the text denotes |
| ToolHeaders.ValidateToolHeaders | src/transport/HttpMetadata.ts:469-492 | true exactly when every binding's header is absent with its argument or decodes to it |
| ToolHeaderAgreement.ExtractFinds | src/transport/HttpMetadata.ts:175-188 | under each binding's name the case-insensitive lookup finds that binding's own value, or nothing for an absent argument |
| ToolHeaderAgreement.ValueAgrees | src/transport/HttpMetadata.ts:390-467 | one encoded value is accepted exactly unless it is a text with a lone surrogate |
| ToolHeaderAgreement.ArgumentExact | src/transport/HttpMetadata.ts:370-388 | the argument of a binding is the value its path leads to through objects, and absent when that is null or the path breaks off |
| ToolHeaderAgreement.EncodedExact | src/transport/HttpMetadata.ts:390-399 | a value is encoded exactly when it is of its binding type; texts decode to themselves, booleans are true or false, integers denote themselves |
| ToolHeaderAgreement.ExtractSucceedsExactly | src/transport/HttpMetadata.ts:401-416 | extraction fails exactly when a present argument is not of its binding's type |
| ToolHeaderAgreement.ClientAndServerAgree | src/transport/HttpMetadata.ts:216-492 | for every accepted schema and all arguments, the server accepts what the client extracts exactly when no text carries a lone surrogate |
| CanonicalJson.PrintInjective | src/McpCache.ts:61-116 | a printed value at the front of a text determines the value and what follows it |
| CanonicalJson.TextExact | src/McpCache.ts:59-116 | two trees print the same text exactly when they are structurally equal, keys taken as a set |
| CanonicalJson.CanonicalJsonText | src/McpCache.ts:61-116 | the recursive printer computes that text |
| JsonText.EscapeUnitExact | src/McpCache.ts:61-116 | what JSON.stringify prints for each code unit: seven short escapes, four hexadecimal digits for other controls and lone surrogates, the unit itself otherwise |
| JsonText.UnescapeInvertsEscape | src/McpCache.ts:61-116 | reading a string literal gives back the string and the text behind it |
| CacheKeys.KeyTextExact | src/McpCache.ts:118-118 | key texts are equal exactly for structurally equal keys |
| CacheKeys.MatchesRespectsEquality | src/McpCache.ts:160-168 | a selector treats structurally equal keys alike |
| MemoryCache.MemoryCache.Get | src/McpCache.ts:138-146 | a hit returns the entry and makes it the last used; a miss changes nothing |
| MemoryCache.MemoryCache.Set | src/McpCache.ts:148-158 | the entry becomes the last used and entries are evicted from the front down to the capacity |
| MemoryCache.MemoryCache.Invalidate | src/McpCache.ts:160-168 | exactly the entries whose key the selector matches go |
| MemoryCache.RunBounded | src/McpCache.ts:136-170 | never more entries than the capacity, never two for one key |
| MemoryCache.RunByRecency | src/McpCache.ts:138-158 | entries always stand in order of last use |
| MemoryCache.EvictsLeastRecentlyUsed | src/McpCache.ts:148-158 | what a set evicts was used longer ago than everything that stays |
| MemoryCache.RunHoldsLive | src/McpCache.ts:138-168 | what the cache holds under a key is the last entry set for it and not invalidated since |
| MemoryCache.RoomKeepsLive | src/McpCache.ts:138-168 | until more than capacity distinct key texts were set nothing live is lost, however many operations ran |
| MemoryCache.Inclusion | src/McpCache.ts:136-170 | the same operations at a larger capacity retain everything the smaller one retains, in the same order |
| CacheEpochs.EpochRef.UpdateEpochs | src/McpClient.ts:807-815 | one atomic update increments every listed method |
| CacheEpochs.RunInv | src/McpClient.ts:807-1113 | the epoch invariant holds in every interleaving of requests and notifications |
| CacheEpochs.LastChangeIsLast | src/McpClient.ts:807-850 | the recorded change time of a key is that of the last notification of the run that concerns it: its own list, discovery, or the URI it reads |
| CacheEpochs.InvalidationIsExact | src/McpClient.ts:817-850 | the invalidation of a notification removes exactly the entries it concerns |
| CacheEpochs.BumpedInvalidate | src/McpClient.ts:817-850 | only notifications that name what they invalidate wait for their invalidation |
| CacheEpochs.AnswerIsStored | src/McpClient.ts:863-1113 | after any run, a cacheable answer is cached exactly when no notification advanced its method since its request began |
| CacheEpochs.LateStoreIsUndone | src/McpClient.ts:852-1113 | after any run, the second check keeps the cache exactly when nothing advanced the method since the request began, and otherwise removes exactly the entries of the same method and, for a read, URI |
| CacheEpochs.QuiescentCacheIsFresh | src/McpClient.ts:807-1113 | with no store before its second check and no notification before its invalidation, every entry held was asked for by a request of the run after whose beginning no notification that concerns its key was announced |
| CacheEpochs.StaleEntryIsCovered | src/McpClient.ts:807-1113 | at any other moment, an entry whose key a notification concerned after its request began is about to be invalidated: two steps of the protocol remove it |
| CacheEpochs.StoreWindowCanHit | src/McpClient.ts:863-893 | a run in which a request begun after a change was announced hits a stale entry between its late store and the second check |
| CacheEpochs.BumpWindowCanHit | src/McpClient.ts:807-893 | a run in which a request begun between a bump and its invalidation hits an entry older than the change |
| PaginationCursors.ReadCursorExact | src/Pagination.ts:36-36 | exactly an issued form is read, as its owner and token |
| PaginationCursors.CursorMemory.Prune | src/Pagination.ts:143-147 | exactly the expired entries go, the order staying |
| PaginationCursors.CursorMemory.Issue | src/Pagination.ts:149-165 | after pruning, the oldest entries make room; the new cursor takes the first draw that no stored entry has, and while every draw is taken nothing is issued |
| PaginationCursors.CursorMemory.MakeRoom | src/Pagination.ts:154-159 | what precedes the draw: expired cursors go and the oldest ones until one more fits |
| PaginationCursors.RedrawnExact | src/Pagination.ts:160-161 | the redraw loop passes exactly the draws that are stored and stops at the first that is not |
| PaginationCursors.CursorMemory.Resolve | src/Pagination.ts:167-181 | a foreign or malformed cursor touches nothing; otherwise the unexpired state is returned |
| PaginationCursors.IssuedResolves | src/Pagination.ts:149-181 | a cursor just issued resolves to its state until its lifetime is over |
| PaginationCursors.CursorMemory.Invalidate | src/Pagination.ts:183-222 | exactly the cursors of the selected collections go, or all |
| PaginationCursors.PrunedKeeps | src/Pagination.ts:143-147 | what pruning keeps is what has not expired |
| Paging.SortOrders | src/McpServer.ts:2380-2381 | the view is the visible keys themselves, in code-unit order |
| Paging.VisibleExact | src/McpServer.ts:2366-2381 | the visible keys are the registered ones that are not hidden, each as often as registered |
| Paging.RunInv | src/McpServer.ts:2366-2418 | every stored cursor, located request and delivered page stays tied to the view it was cut from, whatever interleaves |
| Paging.Follows | src/McpServer.ts:2384-2403 | the request that follows a cursor sees the same view at the same revision and starts where the page before it ended |
| Paging.WalkIsExact | src/McpServer.ts:2366-2418 | a completed walk delivered what the client could see when its first page began, in code-unit order, nothing skipped, repeated or reordered, in as many pages as it needs |
| Paging.NothingAnnounced | src/McpServer.ts:2384-2403 | between the beginnings of any two requests of a completed walk no change of its collection was announced |
| Paging.PageCountIsCeiling | src/McpServer.ts:2402-2404 | that number of pages is the ceiling of size over page size |
| Paging.StaleCursorFails | src/McpServer.ts:2384-2400 | a cursor of another revision is never honoured |
| Paging.CursorHonoured | src/McpServer.ts:2384-2400 | after any run, a request without a cursor starts at 0, and one with a cursor starts at an offset exactly when the service holds an unexpired entry under that cursor for this server, collection, revision and view at that offset; otherwise it fails |
| Paging.PageIsDelivered | src/McpServer.ts:2402-2418 | after any run, a located request delivers the next page of its view, and when entries remain stores a cursor for exactly the rest |
| Paging.CursorsBounded | src/Pagination.ts:149-165 | the service holds at most its capacity while no two issues overlap between eviction and insertion, and one more for each further issue that ever did at once |
| Paging.PeakIsMost | src/Pagination.ts:149-165 | the recorded peak is the most issues pending at any moment of the run |
| Paging.OverlapExceeds | src/Pagination.ts:149-165 | two overlapping issues leave a service of capacity 1 with two cursors |
| RequestEnvelope.ParseExact | src/RequestState.ts:438-475 | exactly the printed envelopes with valid fields are read, with or without a byte order mark |
| RequestEnvelope.ReadInvertsText | src/RequestState.ts:220-226 | the fields of a printed envelope are read back |
| RequestEnvelope.AdditionalDataInjective | src/RequestState.ts:406-415 | the length prefixes keep different pairs of bindings apart |
| RequestEnvelope.BindingsDetermined | src/RequestState.ts:396-415 | additional data agree exactly for equal principals and equal purposes |
| RequestEnvelope.FillAdditionalData | src/RequestState.ts:406-415 | the buffer filled in place holds version, lengths and bindings |
| RequestEnvelope.IsWellFormedString | src/RequestState.ts:381-394 | true exactly for strings without a lone surrogate |
| RequestState.ReplayStore.Consume | src/RequestState.ts:104-131 | expired nonces are dropped whatever the outcome; a live nonce is a replay, a full store refuses, otherwise the nonce is stored |
| RequestState.MakeReplayStore | src/RequestState.ts:93-101 | capacities 1 to 1024 are accepted |
| RequestState.ReadTokenExact | src/RequestState.ts:261-268 | a token is accepted exactly when it is the text of its box and within 16384 characters |
| RequestState.PrepareExactly | src/RequestState.ts:192-222 | sealing is refused exactly for a name that is empty, over 256 bytes or not well-formed, a state over 8192 bytes or not well-formed, or a time out of range |
| RequestState.RunInv | src/RequestState.ts:192-302 | the vault, the openings and the store stay consistent in every run of seals and opens |
| RequestState.EachTokenOpensOnce | src/RequestState.ts:104-302 | in every run with a clock that does not go back, a token opens at most once, for its own principal and purpose, inside its lifetime, and the store keeps within capacity |
| RequestState.OpenExact | src/RequestState.ts:192-302 | after any run, the exact answer of open for a sealed token: its state, or which of the errors |
| RequestState.OnlySealedTokensOpen | src/RequestState.ts:251-302 | a text that is no sealed token opens for nobody |
| RequestState.TokenFitsExactly | src/RequestState.ts:244-262 | a token is within 16384 characters exactly when its ciphertext without the tag is within 12259 bytes |
| RequestState.OpenUndoesSeal | src/RequestState.ts:192-302 | after any run, for an unused token under its own bindings, in lifetime and with room: open gives the sealed state if and only if the printed envelope takes at most 12259 bytes, and InvalidToken otherwise |
| RequestState.SealThenOpen | src/RequestState.ts:192-302 | after any run that ends in a successful seal, opening its token gives the state sealed if and only if that envelope fits |
| RequestState.EscapesOutgrowTheToken | src/RequestState.ts:202-262 | a run that seals a state within the byte limit whose token open then refuses |
| SchemaReferences.MergeExact | src/JsonSchemaRuntime.ts:438-458 | the list of references holds each mentioned document once |
| SchemaReferences.Collector.Visit | src/JsonSchemaRuntime.ts:438-458 | pushing along the walk gives the merged list of all mentions, or the first failure |
| SchemaReferences.ReferencesIn | src/JsonSchemaRuntime.ts:438-458 | fails exactly when a reachable reference cannot be joined; otherwise lists, each once, exactly the documents that a reference at a schema position of the document leads out to |
| SchemaReferences.ChildrenExact | src/JsonSchemaRuntime.ts:470-510 | a schema stands exactly at the positions of the 21 applicator keywords: under the one, in the map or in the array |
| SchemaReferences.ReferencesExact | src/JsonSchemaRuntime.ts:438-458 | the walk lists a document exactly when a schema reachable through those positions has a $ref or $dynamicRef, not a fragment, that joins to it and leaves its own document |
| SchemaReferences.StableIdIsHarmless | src/JsonSchemaRuntime.ts:425-458 | where a second join of the document's id changes nothing, the walk lists what the references mean |
| SchemaReferences.RelativeIdAppliesTwice | src/JsonSchemaRuntime.ts:376-384 | for a document h/f with id d/s, a reference t means h/d/t and the walk asks for h/d/d/t |
| SchemaReferences.AbsoluteIdIsStable | src/JsonSchemaRuntime.ts:425-436 | an id whose join does not look at its base is unchanged by a second join |
| SchemaReferences.OneReferenceExact | src/JsonSchemaRuntime.ts:376-384 | for any URLs, a document with an id and one reference is walked as it means exactly when the reference names the same under the base and under the base joined again |
| SchemaReferences.DirectoryFreeExactly | src/JsonSchemaRuntime.ts:376-384 | under the path merge every document with a given relative id, empty or ending in a slash included, is walked as it means exactly when the id has no slash |
| SchemaResolution.Drain | src/JsonSchemaRuntime.ts:345-387 | the loop computes the recursive resolution, each resolver answer included; it ends and is sound |
| SchemaResolution.ResolveIsSound | src/JsonSchemaRuntime.ts:345-387 | every run: each document is the answer to its own request; requests are allowed, within depth, justified by a reference and made once, bytes and redirects within budget; success is closed; a failure stopped at a reference met and not answered, for the reason its checks give, with exactly the calls made |
| SchemaResolution.ResolveDocuments | src/JsonSchemaRuntime.ts:334-390 | the outcome is the recursive resolution of the root references and sound; on success every external reference reachable in the root and in each document is a name of a resolved document at most one level further down, and so is every meant reference when no id changes its base on a second join; without a resolver nothing external succeeds |
| SchemaResolution.ClosedIsWalked | src/JsonSchemaRuntime.ts:334-390 | closedness of the lists is closedness of the references reachable in the root and in every document |
| SchemaResolution.TakeExactly | src/JsonSchemaRuntime.ts:345-387 | which condition stops a turn with which failure before the resolver is asked, and when the answer decides |
| SchemaResolution.AcceptExactly | src/JsonSchemaRuntime.ts:352-383 | which answer is refused with which failure, and what document is pushed for every other |
| SchemaResolution.AliasesExact | src/JsonSchemaRuntime.ts:376-384 | the names a document answers to besides its request: its redirects, its final URI and its base |
| SchemaResolution.StableResultIsClosed | src/JsonSchemaRuntime.ts:334-390 | a resolution closed under the walk is closed under the meant references whenever every id is stable |
| SchemaResolution.AgreementCloses | src/JsonSchemaRuntime.ts:334-390 | the same whenever the walk of the root and of every document lists what they mean |
| SchemaResolution.ResolvedButNotAsMeant | src/JsonSchemaRuntime.ts:376-384 | a run with its root and resolver: both requests succeed, and a reference meant by the first document is answered by none |
| SchemaResolution.JournalSoFar | src/JsonSchemaRuntime.ts:345-387 | at every turn of the loop the requests made so far and the next one keep depth, allow-list, justification, totals and no repetition |
| SchemaResolution.Enqueue | src/JsonSchemaRuntime.ts:384-387 | exactly the references not seen yet join the queue, in order |
| SchemaResolution.AcceptedFits | src/JsonSchemaRuntime.ts:362-383 | a document is pushed only after every check, within both budgets, and takes at least a byte |
| SchemaResolution.SkipKeeps | src/JsonSchemaRuntime.ts:350-351 | dropping a URI already answered loses no reference |
| SchemaResolution.ExtendKeeps | src/JsonSchemaRuntime.ts:380-387 | a new document keeps the queue in breadth-first order and every reference answered or waiting |
| HttpRetries.RequestContext.AnsweredPost | src/transport/StreamableHttpClientTransport.ts:851-892 | one POST and, after a challenge that can be met for the first time, one more |
| HttpRetries.RequestContext.Request | src/transport/StreamableHttpClientTransport.ts:837-938 | the response, after at most one authorization and one version retry |
| HttpRetries.RequestContext.RequestWithPolicy | src/transport/StreamableHttpClientTransport.ts:1114-1158 | a header mismatch leads to one refresh and, if it restores the tool, one retry |
| HttpRetries.JsonRequestBudget | src/transport/StreamableHttpClientTransport.ts:837-938 | every POST beyond the first uses up one of the two flags |
| HttpRetries.JsonRequestExact | src/transport/StreamableHttpClientTransport.ts:837-938 | the answer of the last POST, found by the challenges and version errors of the answers before it, decides what is passed on: a JSON reply, a stream, an error, or a failure |
| HttpRetries.PolicyExact | src/transport/StreamableHttpClientTransport.ts:1114-1158 | when the first request stands, when the refresh does not help, and when the retry replaces it, by the last frame of each |
| HttpRetries.PreserveExact | src/transport/StreamableHttpClientTransport.ts:1090-1112 | what is kept of a retry: its frames up to its first error, which becomes the original one |
| HttpRetries.AtMostFivePosts | src/transport/StreamableHttpClientTransport.ts:1114-1158 | whatever the server answers, one transport request makes at most five POSTs |
| HttpRetries.FivePostsHappen | src/transport/StreamableHttpClientTransport.ts:1114-1158 | a server that makes it five |
| HttpRetries.PreserveOriginal | src/transport/StreamableHttpClientTransport.ts:1090-1112 | the loop keeps the retry's success and turns its failures into the original error |
| HttpRetries.RetryKeepsOriginalError | src/transport/StreamableHttpClientTransport.ts:1090-1112 | a retry ends in its own success or in the original error, never in an error of its own and never in silence |
| HttpRetries.PolicyIsGrammatical | src/transport/StreamableHttpClientTransport.ts:1114-1158 | the caller reads notifications and then one terminal frame; an error it sees answers its own first call |
| MultiRound.CallIsBounded | src/McpClient.ts:1533-1601 | one call sends at most maxRounds + 1 requests and makes at most five POSTs for each |
| MultiRound.LoopBound | src/McpClient.ts:1542-1598 | the round limit is reported only after all rounds were used |
| MultiRound.PayloadsFollow | src/McpClient.ts:1542-1598 | every re-send is the original without continuation and metadata, plus responses keyed exactly as the last requests, and the latest state |
| MultiRound.NextIsResent | src/McpClient.ts:2375-2395 | what a re-sent payload holds under each name |
| MultiRound.ResolveKeys | src/McpClient.ts:1576-1588 | one response per request, under its key, in its order, from its handler |
| MultiRound.ValueIsLastReply | src/McpClient.ts:1547-1560 | in every call the outcome follows from the last reply of the log, and a value is returned exactly when that reply is complete, or asks for input under manual handling; it is that reply, and manual handling sends once |
| MultiRound.DecidesExactly | src/McpClient.ts:1547-1598 | for each outcome the exact condition on the reply, the round and the handlers; the loop goes on exactly in the remaining case |
| MultiRound.SendExactly | src/McpClient.ts:1533-1546 | the reply of one request is the last frame of its own stream, of the retry, or none, by what the server answers |
| MultiRound.CompleteIsReturned | src/McpClient.ts:1547-1560 | a server whose first POST is answered by a complete result, as JSON or as a stream, has it returned after one POST |
| MultiRound.WithoutContinuation | src/McpClient.ts:2375-2383 | the loop copies everything but continuation and metadata |
| MultiRound.ContinuationPayload | src/McpClient.ts:2385-2395 | the loop copies the base and adds the responses and the state that are defined |

## Left out

- The Effect runtime, scopes, spans and timeouts: only atomic steps, gates and bounded queues are kept. Interruption inside a critical section and the shutdown of a dispatcher are not modelled.
- Sockets, fetch, process spawning, body readers and web streams: a body is the sequence of its chunks, a server a function from POSTs to answers.
- Generated codecs and Effect Schema: a decoded message carries what its codec said; message codecs are functions on bytes.
- Hostile JavaScript objects (descriptor snapshots, proxies, prototypes, exact byte arrays): values are plain JSON trees and byte sequences.
- JavaScript numbers: canonical texts take any injective printing of numbers with -0 and 0 as one; elsewhere safe integers are integers.
- Cryptography and randomness: AES-GCM is an ideal cipher that decrypts only what was encrypted, under the same additional data; owners, tokens, nonces and boxes are fresh.
- JSON.parse of an envelope: a reader of the one layout JSON.stringify prints stands for it; any other layout fails the comparison with the printed form in the source as well.
- URL parsing: joining, naming documents and the allow-list are any functions; only the results on relative ids fix one, the path merge of section 5.2.3 of RFC 3986 without dot segments.
- Configuration checks of cursor, cache and resolver options, and custom cursor services.
- Answers of tools/list reach the retry policy as whether the refreshed plans know the tool; how plans are stored and staged is not modelled, nor filterHttpTools.
- Cached answers in the multi-round loop: a cached result replaces a request, which only lowers the counts.
- Acknowledging a subscription in the client dispatcher, routing to its owner and the offer to its queue are one step each; src/McpTasks.ts, authorization flows, AJV compilation, validators of single strings, examples and the command line are not part of this model.
- ServerOwnership.RunLegal: does not cover the server's shutdown, which interrupts handlers between their steps.
- Paging.WalkIsExact: counts a token as fresh when it was never drawn before; the source only excludes tokens still stored.
- RequestState.EachTokenOpensOnce: a property of one replay store and one key; several processes sharing a key are not modelled.
