# Verification of the vgi_rpc C++ core

A Dafny model of the protocol, framing and encoding core of vgi_rpc, with proofs of what every run
of it keeps. `dafny verify dfyconfig.toml` checks the whole project.

## What is modelled

- **HTTP streams, server side** (`HttpTurns`, `HttpStream.HttpServer`, `StreamRegistry`,
  `ConcurrentTurns`, `TurnLimits`, `TurnAccess`). `/init`, continuation and cancel turns with all
  their refusals, exceptions and caps, as a specification function and as the class that updates the
  registry, the store and the access record; a state machine of atomic steps for any number of
  requests interleaved on the cursor-keyed registry; and the turns run by that machine's threads,
  which is linearizable.
- **The turn codec** (`Wire`, `Framing`, `FramingLaws`, `ProducerLaws`, `RemoteErrors`). Metadata as
  the ordered key/value list it is, cursor stamping, trailing cursors, externalization, pointer
  resolution and the client's decode loop. An IPC stream is a list of (rows, payload, metadata)
  batches; compression, hashing and the IPC byte format are functions assumed to be inverse pairs
  (`Framing.Lawful`).
- **HTTP streams, client side** (`HttpStream.HttpStreamSession`, `HttpResume`, `HttpPost`,
  `PostOutcomes`, `HttpPostClient`). The tick loop against the server class, end to end; resume
  tokens; the retry, 415 and 413 resends and the sessions that retire their cursor before they post
  it.
- **Exchange streams, both ends** (`HttpExchange`). Those sessions against the server's turns,
  behind a front that answers 415 and 413 itself and a wire that loses requests and replies.
- **Sticky sessions** (`StickySession`, `StickyMeaning`, `StickySessionState`). Staging and
  committing the token and the echo headers, and any interleaving of requests, a detach and closes
  on one view.
- **The raw lockstep client** (`RawClient`, `RawOutcomes`, `RawClientStream`). The connection
  reservation and the stream object's flags, with failure possible at every I/O step.
- **Sealed grants** (`Base64Url`, `Utf8`, `GrantPayload`, `Grants`) over an ideal AEAD, a ledger of
  everything ever sealed.
- **Identity evidence** (`Order`, `EvidenceDigest`, `PrincipalName`, `BoundedJson`).
- **Printers and parsers** (`ExternalUrl`, `UrlGrammar`, `UrlPath`, `PathMeaning`, `WindowsArgv`,
  `Routing`).

Code that changes things step by step is a class or a method with a loop, proved equal to a
specification function; the laws are lemmas about those functions.

## Where the code falls short of the property, and exactly when

- `cancel()` on a raw stream that a remote exception finished only shuts its input. If a read of the
  drain that followed the exception fails (src/wire.cpp:151-157 ignores that), the connection is handed
  back unclean, and only then: `RawClient.CancelHandsBack`, over whole runs `RawClient.EveryRunIsSafe`,
  with an instance in `RawClient.CancelCanHandBackDirtyWire`. A caller who never cancels a stream after
  one of its turns threw a remote exception is safe under every fault schedule, and `close()` has no
  such case.
- A cursor that is no longer registered is not shown to the client, except by a producer whose last
  turn puts it on a batch of its own: `HttpTurns.ContinueAgrees`, `HttpTurns.InitAgrees`, with an
  instance in `HttpTurns.ProducerCanShowItsCursor`.
- Two calls of one reserved method share a path whatever their protocols; no other two calls do:
  `Routing.PathsDistinct`.
- An externalized turn re-merges the handler's metadata, so of a repeated key only the last value
  survives; inline, both do. The two forms agree exactly when no key repeats:
  `FramingLaws.StorageCollapsesRepeatedKeys`, `FramingLaws.RepeatedKeyReadsDifferently`.
- An exchange turn without a data batch is read as a turn with an empty one, because its cursor batch
  comes before any data: `FramingLaws.DatalessTurnReadsAsEmptyBatch`.
- The program name on a Windows command line is read by a rule that knows no escapes. The arguments
  after it survive for every vector exactly when the name has an even number of quotes and no blank
  after an odd number of them: `WindowsArgv.RoundTripIff`.
- Minting does not ask for what verifying does: UTF-8 texts, a principal, a token of at most 4096
  characters. `Grants.MintedVerifies` gives the exact condition, `Grants.MintedCanBeRefused` an instance.
- The SAX reader accepts a scalar one level deeper than the validator of parsed values, and nothing
  else the validator refuses: `BoundedJson.ReaderCoversValidator`, `BoundedJson.ReaderIsLaxerByOneLevel`.
- A server prefix that cuts a bare path at a segment boundary makes it unroutable; every other bare
  path to something hosted works: `Routing.BarePathIff`.

## Model

| member | source | states |
|---|---|---|
| RawClient.TurnKeeps | src/client.cpp:358-389 | a tick or exchange, failing at any I/O step, keeps the stream sound: it hands nothing back, gives its reservation up only by taking the connection down, and after a remote exception leaves the output at its end exactly when no read behind the exception was due to fail |
| RawClient.TurnDelivers | src/client.cpp:358-389 | each successful turn hands over the next data batch the peer's frames hold, and the end of the stream is reported only when none is left |
| RawClient.CloseHandsBackClean | src/client.cpp:476-497 | close hands the connection back exactly when it succeeds, with its input shut and its output read to the end; otherwise the connection is down |
| RawClient.CancelHandsBack | src/client.cpp:436-474 | a successful cancel hands back a clean wire, except after a turn that threw a remote exception, where the wire is clean exactly when no read of the drain behind the exception was due to fail |
| RawClient.CancelCanHandBackDirtyWire | src/client.cpp:370-373 | an instance of that exception |
| RawClient.CallHandsBackClean | src/client.cpp:662-682 | a unary call releases its reservation only with its request written and its answer read to the end |
| RawClient.OpenHandsBackClean | src/client.cpp:684-728 | an open that fails in its header does so too; one that succeeds leaves its stream holding the connection |
| RawClient.EveryRunIsSafe | src/client.cpp:187-212 | over every run of calls, opens and stream operations and every fault schedule: the connection is reserved iff a stream holds it and at most one does; all handbacks are clean iff the run never cancelled a stream behind whose remote exception a read was due to fail; and a caller who never cancels a stream after a remote exception has only clean handbacks |
| RawClient.ReleasedStreamIsInert | src/client.cpp:408-413 | a stream that gave its connection up can never release or abort a later call's reservation |
| RawOutcomes.CloseSucceedsIff | src/client.cpp:415-497 | close succeeds, and hands back clean, iff none of its I/O steps, counted from the state of both substreams and the batches left, is due to fail and nothing left is an unparsable log, an unresolvable shared-memory pointer or an exception; it throws the remote exception iff only that stands in the way |
| RawOutcomes.CancelSucceedsIff | src/client.cpp:436-474 | the same of cancel, on a live stream with its cancel mark and one more step, on a finished one with the steps that shut its input |
| RawOutcomes.TurnSucceedsIff | src/client.cpp:358-389 | a turn gives what the first batch behind the leading logs says (the value, the end, the remote exception) iff no step up to it is due to fail, and an error otherwise |
| RawOutcomes.CallSucceedsIff | src/client.cpp:662-682 | a unary call ends in a clean handback, a remote exception included, iff no step is due to fail and the answer is one data batch among logs or an exception with at most that before it; otherwise the connection is down |
| RawOutcomes.OpenSucceedsIff | src/client.cpp:684-728 | an open gives a stream iff its request goes out and its header, if it has one, comes back whole and well formed; a header that throws hands the connection back clean if its three further steps succeed; anything else takes the connection down |
| RawOutcomes.FaultlessCalls | src/client.cpp:662-682 | a connection that meets no fault serves any number of well-formed unary calls, remote exceptions among them, and hands itself back clean after each |
| RawClientStream.Connection.DrainReader | src/wire.cpp:151-157 | the draining loop leaves the wire where its specification says, swallowing a failed read |
| RawClient.DrainReachesEnd | src/wire.cpp:151-157 | the drain, which ignores a failed read, reaches the end of the stream exactly when none of the reads it needs is due to fail |
| RawClientStream.Stream.ReadNextData | src/client.cpp:358-389 | the read loop does what its specification says to the wire, the flags and the connection |
| RawClientStream.Stream.DrainOutput | src/client.cpp:415-434 | the drain loop does what its specification says |
| RawClientStream.Stream.Turn | src/client.cpp:549-621 | tick and exchange do what their specification says |
| RawClientStream.Stream.Cancel | src/client.cpp:436-474 | cancel does what its specification says, flags set before the I/O included |
| RawClientStream.Stream.Close | src/client.cpp:476-497 | close does what its specification says |
| RawClientStream.Stream.Destroy | src/client.cpp:327-337 | destruction does what its specification says |
| Wire.MergeMetadata | include/vgi_rpc/annotated_batch.h:36-53 | a batch without metadata takes the other list as it stands; otherwise every earlier entry of a key goes before its new one is appended, entry by entry |
| Wire.EraseKey | src/client_external.cpp:545-551 | erasing removes every occurrence of a key and keeps the order of the rest |
| Framing.StampBatches | src/http_transport.cpp:2353-2357 | the cursor is merged last into exactly the batches that have rows |
| Framing.MergeResolutionMetadata | src/client_external.cpp:553-582 | the resolved metadata is the pointer's, then the fetched batch's with precedence, then the two provenance keys |
| Framing.DecodeResponse | src/http_client.cpp:446-531 | the decode loop computes the logs, data, control batches and first fault of a response stream |
| FramingLaws.InlineExchangeIsFaithful | src/http_transport.cpp:2347-2379 | for any row count and any handler metadata free of framing keys the client reads back the same logs in order, the same data and the same cursor |
| FramingLaws.FetchReturnsUpload | src/external.cpp:553-581 | storage returns the bytes that were hashed, compressed on the way or not |
| FramingLaws.ExternalizesIff | src/http_transport.cpp:1065-1098 | a turn goes to storage iff it may, one of its batches is data and its IPC form reaches the threshold; what is counted is the body stored |
| FramingLaws.ResolvesToTurn | src/client_external.cpp:674-743 | a pointer resolves to exactly the logs and the data batch uploaded behind it |
| FramingLaws.PointerResolvesIff | src/client_external.cpp:674-743 | a pointer resolves iff what is stored under its URL has the length and digest it states, unpacks and parses, and is one data batch among well-formed logs without a pointer of its own; then to those logs and that batch, and otherwise it is a protocol error |
| FramingLaws.StoredExchangeIsFaithful | src/http_transport.cpp:2359-2379 | an externalized turn decodes to the same logs, rows and cursor, its metadata re-merged and followed by the provenance keys |
| FramingLaws.StorageCollapsesRepeatedKeys | src/client_external.cpp:566-577 | the metadata of the two forms agree up to provenance iff the handler repeated no key |
| FramingLaws.RepeatedKeyReadsDifferently | src/client_external.cpp:566-577 | with a repeated key the inline form reads the first value and the stored form the last |
| FramingLaws.DatalessTurnReadsAsEmptyBatch | src/http_client.cpp:447-531 | a turn without a data batch is read as an empty data batch with the cursor |
| FramingLaws.DecodeAppend | src/http_client.cpp:446-531 | decoding a concatenation is decoding its parts in order, the second knowing whether the first had data |
| FramingLaws.JudgeIff | src/http_client.cpp:446-531 | what each batch of a response is taken for, by its rows and keys and the kind of reply alone |
| RemoteErrors.ExceptionDecodes | src/http_client.cpp:480-484 | decoding stops at the first exception batch with its message, keeps the logs before it and reads nothing behind it |
| RemoteErrors.ProducerExceptionReads | src/http_transport.cpp:552-594 | what a producer's handler threw is what its client throws, unless even that reply is over a limit |
| RemoteErrors.InitExceptionReads | src/http_transport.cpp:2048-2164 | so is what its first turn threw, behind the init logs |
| RemoteErrors.ExchangeExceptionReads | src/http_transport.cpp:2293-2312 | so is what an exchange handler threw |
| HttpTurns.ContinueAgrees | src/http_transport.cpp:2258-2457 | after every dispatched continuation, whatever the handler emits: a registered cursor was carried without an error mark, the record has its size iff it is registered and tells failure, and no other stream changed; an unregistered cursor was not carried, unless a delivered last producer turn shows it in its own batches |
| HttpTurns.InitAgrees | src/http_transport.cpp:2028-2164 | the same of `/init` and its freshly minted cursor |
| HttpTurns.RefusedChangesNothing | src/http_transport.cpp:2166-2234 | a continuation files no record exactly when it is refused (unknown cursor, wrong scope or no call token), and then it is answered 400 and changes nothing |
| HttpTurns.RefusedAreInvisible | src/http_transport.cpp:2166-2234 | over every run of `/init` and continuation requests, answers, records and final state are those of the run without its refused requests, and every other request files exactly one record |
| HttpTurns.StreamsDoNotInterfere | src/http_transport.cpp:2166-2457 | over every run, the requests that name one stream get the replies and records they would get if no other stream were ever asked for anything |
| HttpTurns.PlainHandlersLeakNothing | src/http_transport.cpp:2405-2457 | a handler that leaves cursor and pointer keys to the framework never meets the exception of `ContinueAgrees` |
| HttpTurns.ProducerCanShowItsCursor | src/http_transport.cpp:2405-2457 | an instance of that exception: the last batch of a producer names its own cursor, which the client is shown and the registry no longer has |
| TurnLimits.DispatchDelivers | src/http_transport.cpp:2205-2457 | a continuation that was let in is delivered, and with which body, iff its handler emitted it, nothing failed, the body is within each of the server's cap, the limit it announces and the limit of its stream, and its upload within the cap on uploads |
| TurnLimits.InitDelivers | src/http_transport.cpp:1511-1513 | the same of `/init`, under the server's cap and the limit it announces |
| TurnLimits.TooLargeIsTold | src/http_transport.cpp:2384-2401 | a body that only a limit stands against is replaced by the one exception batch that says so, and the stream is gone |
| TurnLimits.EveryReplyIsWithin | src/http_transport.cpp:2384-2401 | in every run, whatever is delivered is within the server's cap and its own client's limit, and what is uploaded for it within the cap on uploads |
| TurnLimits.OpeningLimitBinds | src/http_transport.cpp:2202-2208 | in every run, a continuation is delivered iff it also meets the limit announced when its stream was opened, however many requests lie between: it may tighten that limit and never raise it |
| TurnAccess.OnlyTheOpenerContinues | src/http_transport.cpp:2192-2234 | in every run, a continuation becomes a turn only if an earlier request opened a stream under its cursor and its own scope, and, on a server that remembers no calls, only with the call token of that method, cursor and scope |
| TurnAccess.RefusedIff | src/http_transport.cpp:2192-2234 | a continuation is refused iff its cursor names no live stream, or one of another scope, or it lacks that token where it is needed |
| HttpStream.HttpServer.HandleContinuation | src/http_transport.cpp:2166-2457 | the step-by-step update of registry, store, reply and record equals the specified turn |
| HttpStream.HttpServer.HandleInit | src/http_transport.cpp:1988-2164 | the same for `/init` |
| ProducerLaws.WireReads | src/http_transport.cpp:552-594 | whatever a producer turn puts on the wire, the client reads its logs, its control batch and its data: the very batches emitted, or of a turn that went through storage the resolved one |
| HttpStream.ContinuationReads | src/http_transport.cpp:2405-2457 | the client reads a producer continuation as that turn's data, with the cursor iff the stream goes on, exactly when nothing fails and no cap or limit is met, the one its request announces included; otherwise it reads a failure and the stream is gone |
| HttpStream.InitReads | src/http_transport.cpp:2048-2091 | the same for the first turn, behind the init logs |
| HttpStream.HttpStreamSession.UpdateControls | src/http_client.cpp:2886-2896 | of any number of control batches the last cursor wins, the last call state wins and the old one stays if there is none, and no cursor finishes the session |
| HttpStream.HttpStreamSession.Tick | src/http_client.cpp:3068-3122 | tick hands over the head of everything the session holds and the server's producer has left, or ends exactly when nothing is left; it throws only if a turn left fails or is over a cap or limit; when the stream is over the server no longer has it |
| HttpStream.HttpStreamSession.ReadAll | src/http_client.cpp:3068-3122 | ticking collects a prefix of what was left, once each and in order, and all of it, with the end reported, exactly when every turn left fits its caps and limits and nothing fails; either way a session that was open leaves the server without the stream |
| HttpStream.OpenProducer | src/http_client.cpp:2965-2983 | opening succeeds exactly when the first turn is delivered, and the session then holds exactly what the producer's whole script hands over |
| HttpStream.HandedIsEmitted | src/client_external.cpp:674-743 | what a script hands over is batch for batch what it emits, each as it was or as storage returned it, and without storage the same list |
| HttpStream.ReadStream | src/http_client.cpp:2965-3122 | opening a producer stream and reading it to its end yields a prefix of what the producer emits, batch for batch; all of it, and the end, exactly when no turn fails or is over a cap or limit; and leaves the registry as it was |
| StreamRegistry.StepKeeps | src/http_transport.cpp:2166-2457 | every atomic step of every request keeps the registry, lock, thread and history invariant |
| StreamRegistry.EveryRunIsSafe | src/http_transport.cpp:2258-2290 | over all interleavings: calls into a stream's state never overlap, `on_cancel` is entered at most once, and nothing follows the first finish, exception, cancel or cap overflow |
| StreamRegistry.OneThreadInside | src/http_transport.cpp:2177-2191 | at every moment at most one request is inside a stream's state |
| StreamRegistry.RegisteredIffLive | src/http_transport.cpp:2384-2447 | whenever no request holds its lock, a stream is registered iff its history is not over |
| StreamRegistry.NoDeadlock | src/http_transport.cpp:2177-2191 | while any request is unfinished some request can take its next step |
| ConcurrentTurns.Linearizable | src/http_transport.cpp:2166-2457 | threads answer from what they hold: a miss or a failed revalidation with the refusal, a call from the stream state it took when it began and writes back when it ends, an `/init` from its own stream; yet at every moment of every interleaving the answers and records given so far are those of the same requests run one at a time in the order of their answers, which leaves the same streams and store; every request not under way has been answered exactly once; and none is put before one answered before it arrived |
| ConcurrentTurns.CallAnswers | src/http_transport.cpp:2177-2191 | because the lock is held and the stream was revalidated under it, the turn a thread runs on the state it holds gives the answer, record, uploads and streams of the sequential turn |
| ConcurrentTurns.RunsTheRegistry | src/http_transport.cpp:2177-2191 | every such run is a run of the registry's state machine, so its results hold of it |
| ConcurrentTurns.RegistryIsSequential | src/http_transport.cpp:2384-2447 | whenever no request holds its lock, a cursor that was handed out is registered iff the sequential run has its stream |
| ConcurrentTurns.ConcurrentStreamsDoNotInterfere | src/http_transport.cpp:2166-2457 | even interleaved, the requests that name one stream are answered as if no other stream were ever asked for anything |
| ConcurrentTurns.NoRequestIsStuck | src/http_transport.cpp:2177-2191 | while any request is under way, some request under way can take its next step, whatever its turn comes to |
| HttpPost.PostBound | src/http_client.cpp:1629-1687 | one logical call posts to its method at most three times per attempt it is allowed |
| HttpPost.RoundsShape | src/http_client.cpp:1559-1589 | the attempts of one inline post are one retry loop, followed by a second, uncompressed one exactly when the first ended in a 415 to a compressed body; compression then stays off |
| HttpPost.PostDispatchesOnce | src/http_client.cpp:1666-1678 | a call that is not retried is dispatched at most once by a server that refuses 413 and 415 before dispatch |
| HttpPost.CallGetsThrough | src/http_client.cpp:1629-1687 | a call gets through, and is run once, to any server that refuses compressed bodies or large bodies and answers everything else, after any number of retryable failures below its attempts, if a pointer to an upload is small enough for it |
| HttpPost.SendRetries | src/http_client.cpp:1559-1583 | the retry loop tries again exactly behind a retryable loss or an answer with a retryable status other than 415: it makes as many attempts as that, answers as the last did, and has learnt what was last said of each capability |
| PostOutcomes.DiscoveryFirst | src/http_client.cpp:1629-1644 | nothing is sent before the capabilities are known; then a call goes as to a server known to accept compression and uploads only if it promised them, under the cap it promised |
| PostOutcomes.FirstSent | src/http_client.cpp:1629-1664 | a body goes out as it is iff it is within both caps, otherwise as a pointer iff uploads are allowed on both sides, succeed, and the pointer is within them, otherwise not at all |
| PostOutcomes.ReplyIsLast | src/http_client.cpp:1559-1687 | the caller gets a reply only if the last attempt brought a complete Arrow one whose status is neither 401 nor 403, and then that one; and every such one, but for a 413 that uploads could have met |
| HttpPost.OperateOnce | src/http_client.cpp:2789-2836 | one session operation dispatches at most one turn, and only a complete reply leaves the session able to send |
| PostOutcomes.ExchangeOutcome | src/http_client.cpp:2789-2836 | an exchange posts one call without retries and leaves its session open iff a complete reply names the next cursor, which it then holds; a stream session succeeds with a last reply too; refused input leaves the session as it is |
| PostOutcomes.CancelOutcome | src/http_client.cpp:2844-2865 | cancel never fails, posts the cursor of an open session once and leaves none open |
| HttpPost.AtMostOnce | src/http_client.cpp:2806-2836 | over every run of operations and every pattern of losses: at most one turn per operation, and after an operation that posted without getting a complete turn back the cursor is never posted again |
| HttpPostClient.HttpClient.SendRound | src/http_client.cpp:1559-1583 | the retry loop makes the specified attempts and learns what their replies advertise |
| HttpPostClient.HttpClient.PostCall | src/http_client.cpp:1629-1687 | post makes the specified attempts, externalizing at most once |
| HttpPostClient.HttpExchangeSession.Exchange | src/http_client.cpp:2789-2836 | the exchange session retires its cursor before posting and revives only on a complete turn |
| HttpPostClient.ExchangeStream.Exchange | src/http_client.cpp:3143-3191 | so does the typed stream session, closed from before encoding on |
| HttpExchange.OutsideIsLawful | src/http_transport.cpp:2646-2685 | a front that checks encoding and size before it dispatches, with turns answered 200, 400 or 500 behind it, is the lawful outside world the at-most-once results ask for |
| HttpExchange.ExchangeReads | src/http_transport.cpp:2340-2403 | an exchange turn is read as its output and the cursor, and moves its stream on by one, exactly when its input fits, nothing fails and no cap or limit is met; otherwise it is read as a failure and the stream is gone |
| HttpExchange.OneOperation | src/http_client.cpp:2789-2836 | one operation either returns the next turn's output with both ends one turn further, or runs nothing and changes nothing, or closes the session with at most one turn run |
| HttpExchange.ExchangesAreInStep | src/http_client.cpp:2806-2836 | over every run of operations, whatever the front refuses and the wire loses: the k exchanges that returned got the outputs of the stream's first k turns in order; the server ran k turns, or k + 1 if one operation ended in doubt, after which nothing is sent; a session that can still send is exactly k turns in |
| HttpExchange.EveryExchangeIsAnswered | src/http_client.cpp:1629-1687 | if nothing is lost and the turns fit, every exchange is answered through every 415 and 413, and the session goes on |
| StickySession.PutReplaces | src/http_client.cpp:2110-2117 | an echo header replaces every spelling of its name |
| StickySession.StageKeeps | src/http_client.cpp:2119-2143 | whatever is staged has at most 100 names and 64 KiB, each name once |
| StickySession.StepKeeps | src/http_client.cpp:1329-1344 | every step of every request, detach and close keeps the view's invariant |
| StickySession.Serialized | src/http_client.cpp:2038-2061 | at every moment the token and echo headers are the fold, in lock order, of the committed responses; whenever the lock is free, the results, remote errors and 2xx capability replies that came back and were not put aside for a retry or resend are exactly those decoded, and those decoded while the view was open are exactly those committed; every request carried one such state whole and started before the view was closed |
| StickyMeaning.CarriesTheLastWord | src/http_client.cpp:2069-2157 | over every run, the token carried, by the view and by every request, is the last one committed since the view was last cleared, and an echo header is held iff it is the last committed one of its lower-cased name since then, or one it started with that nothing replaced |
| StickyMeaning.StageIff | src/http_client.cpp:2076-2143 | staging fails exactly for a token that is too long or has a line break, an echo header that is too long, not accepted or a credential, or a budget that would be left |
| StickySession.SealedForever | src/http_client.cpp:2680-2707 | once closed and idle, a view never sends again and a dropped token stays dropped |
| StickySession.DetachIsFinal | src/http_client.cpp:2680-2688 | after a detach at any point of any run no request is ever sent on the view again, and it carries nothing |
| StickySession.CloseIsFinal | src/http_client.cpp:2690-2707 | from the step that raises the flag on, the view stays closed, only the request that held the lock then ever sends again, and nothing decoded later is committed |
| StickySession.SweepIsFinal | src/http_client.cpp:2690-2707 | a close that gets the lock, and a detach, leave nothing carried for good |
| StickySession.StepIsLocal | src/http_client.cpp:2038-2061 | a step moves one request or close; an attempt and nothing else sends, with what is carried just then; every way out leaves the lock |
| StickySession.RequestGoesThrough | src/http_client.cpp:2038-2061 | while the view is open and its lock free, a request can go all the way, and then what its response makes of what is carried is carried |
| StickySession.CloseGoesThrough | src/http_client.cpp:2680-2707 | a view can always be closed, and once its lock is free what it carries be dropped |
| StickySession.NoDeadlock | src/http_client.cpp:2680-2707 | while a request or a close is under way, one of them has a step to take |
| StickySessionState.HttpStickySessionState.StageResponse | src/http_client.cpp:2069-2143 | the staging loops compute the specified update and change nothing |
| StickySessionState.HttpStickySessionState.Commit | src/http_client.cpp:2145-2157 | committing is refused once closed and otherwise replaces both parts |
| StickySessionState.WithinBudget | src/http_client.cpp:2119-2136 | the running subtraction accepts exactly the sizes within budget |
| StickySessionState.HttpStickySessionState.Close | src/http_client.cpp:2690-2707 | close raises the flag at once and drops what is carried only if the lock comes free in time |
| HttpResume.TokensAreExact | src/http_client.cpp:951-977 | packing and unpacking are mutual inverses for cursors below 2^32 octets |
| HttpResume.PlaysInTurn | src/http_client.cpp:2886-2896 | each turn is asked for with the cursor of the one before and the last call state there was |
| HttpResume.ResumableStream.Tick | src/http_client.cpp:3068-3122 | against immutable cursors tick hands over the next batch across any number of data-less turns |
| HttpResume.ResumableStream.NextWithToken | src/http_client.cpp:3124-3141 | the token handed out with a batch resumes right behind it; none is handed out with the last |
| HttpResume.ReadWithTokens | src/http_client.cpp:3124-3141 | reading a whole stream, the token of batch k promises exactly batches k+1 onward |
| HttpResume.SeekAndDrain | src/http_client.cpp:3194-3205 | seeking to a token yields exactly what it promises |
| HttpResume.ResumeAndDrain | src/http_client.cpp:3018-3036 | so does resuming from it in a new session |
| HttpResume.ResumesOneWay | src/http_client.cpp:3194-3205 | a token never promises two different things |
| EvidenceDigest.AddField | src/identity.cpp:148-157 | the length loop writes the eight big-endian octets before the field |
| EvidenceDigest.BindingPreimage | src/identity.cpp:349-376 | the feeding loops hash exactly the specified preimage |
| EvidenceDigest.FrameInjective | src/identity.cpp:148-157 | equal framed bytes come from equal field lists |
| EvidenceDigest.SectionsSplit | src/identity.cpp:353-369 | the field list determines the providers, statuses and rows although no count is written |
| EvidenceDigest.AuthSplit | src/identity.cpp:370-374 | whether application auth was bound, and which, is told by the field list |
| EvidenceDigest.PreimageBinds | src/identity.cpp:349-376 | two preimages are equal iff they select the same providers with the same statuses and the same rows up to order, and bind the same auth |
| EvidenceDigest.RowTells | src/identity.cpp:356-365 | equal rows come from identities equal in everything bound, an absent subject key counting as an empty one |
| EvidenceDigest.OrderFree | src/identity.cpp:349-370 | permuting or repeating providers, or reordering identities, leaves the preimage unchanged |
| PrincipalName.PrincipalInjective | src/identity.cpp:267-270 | canonical principals are equal iff provider, issuer and subject are |
| PrincipalName.PercentDecodes | src/identity.cpp:94-107 | percent-decoding gives the octets back (RFC 3986 section 2.1), and exactly the unreserved ones (section 2.3) stand for themselves |
| PrincipalName.PercentLoop | src/identity.cpp:94-107 | the escaping loop writes the percent-encoding octet by octet |
| Utf8.ValidUtf8 | src/identity.cpp:23-53 | the index loop accepts exactly the concatenations of encodings of Unicode scalar values (RFC 3629 section 4) |
| Utf8.EncodingUnique | src/identity_provider_internal.h:28-59 | no accepted text has two readings |
| BoundedJson.BoundedJsonSax.On | src/identity_provider_internal.h:111-153 | each handler updates the stack and the count as specified and refuses as specified |
| BoundedJson.SaxParse | src/identity_provider_internal.h:155-163 | feeding the events stops at the first refusal |
| BoundedJson.SaxMeans | src/identity_provider_internal.h:111-153 | the stack machine accepts a tree's events iff nesting and value count are within limits, keys are distinct per object, texts are UTF-8 and floats finite |
| BoundedJson.ValidateCounts | src/identity.cpp:67-84 | the validator passes iff depth, count, texts and floats are within limits, and then returns the exact count |
| BoundedJson.ReaderCoversValidator | src/identity.cpp:67-84 | given distinct keys, the validator accepts exactly what the reader accepts without a scalar one level below the limit |
| BoundedJson.ReaderIsLaxerByOneLevel | src/identity_provider_internal.h:116-143 | a scalar in as many arrays as the limit allows is read but not validated |
| Base64Url.EncodeLoop | src/crypto.cpp:169-194 | the three-octet loop and its tails write the encoding |
| Base64Url.DecodeLoop | src/crypto.cpp:200-224 | the loop with its wrapping 32-bit accumulator decodes as the definition without one |
| Base64Url.WrapIsHarmless | src/crypto.cpp:211-222 | the wrapped accumulator yields the octet and the leftover bits of the unwrapped one |
| Base64Url.RoundTrip | src/crypto.cpp:169-224 | decoding an encoding gives the bytes back, for all bytes |
| Base64Url.StrictAcceptsEncodings | src/grants.cpp:75-86 | the strict decoder accepts a text as some bytes iff they are non-empty and the text is their encoding |
| Base64Url.StrictIffCanonical | src/grants.cpp:75-86 | it accepts exactly the non-empty texts of the alphabet, of a possible length, with zero fill bits (RFC 4648 section 3.5) |
| GrantPayload.EncodePayload | src/grants.cpp:241-252 | the writers append exactly the specified payload, or refuse a field or list that is too long |
| GrantPayload.DecodePayload | src/grants.cpp:254-267 | the reader with its moving position parses as specified |
| GrantPayload.PayloadReader.NextI64 | src/grants.cpp:125-132 | the shift loop reads a little-endian two's-complement integer |
| GrantPayload.DecodeInvertsEncode | src/grants.cpp:241-267 | a payload decodes to some claims iff the encoder writes those claims so and their texts are UTF-8 |
| GrantPayload.EncodeInjective | src/grants.cpp:241-252 | different claims are never written alike |
| Grants.LifetimeIsDifference | src/grants.cpp:340-345 | past the ordering check the unsigned subtraction is the true difference for all 64-bit pairs |
| Grants.TokenReasons | src/grants.cpp:311-321 | a text is no grant, too long or not canonical exactly as it lacks the prefix, exceeds 4096 characters or encodes nothing |
| Grants.SealReasons | src/grants.cpp:322-337 | a canonical one has an unknown key iff no held id begins it; under a held id it is refused unless its version is 1 and that very key sealed what follows for that id and audience, and then only its payload and claims decide |
| Grants.JudgeReasons | src/grants.cpp:338-357 | opened claims are refused for the first of four reasons that holds: no principal, a bad lifetime, not yet, no longer |
| Grants.MintedClaims | src/grants.cpp:269-308 | a mint carries what it was asked to, from now on, for the lesser of the lifetime asked for and the longest allowed |
| Grants.VerifyGrantToken | src/grants.cpp:311-358 | the checks run in order over the decoding loops give the specified verdict |
| Grants.FindsHeldKey | src/grants.cpp:322-331 | under distinct ids the search finds the held key |
| Grants.MintedVerifies | src/grants.cpp:269-358 | a minted token verifies to its own claims iff its texts are UTF-8, it names a principal, it is not too long, its lifetime is within the verifier's maximum and the clock is in the skewed window |
| Grants.MintedCanBeRefused | src/grants.cpp:269-358 | an instance that fails: a grant without a principal is minted, presented under its own key and audience, and refused at any time |
| Grants.OnlyMintedVerify | src/grants.cpp:311-358 | over every run of mints, an accepted token is character for character a minted one, under a key the verifier holds and for its audience, with its own claims |
| Grants.MintExtends | src/grants.cpp:295-308 | each mint extends the ledger by its own seal and keeps it one of the run |
| WindowsArgv.QuoteArgument | src/client_transport.cpp:586-608 | the quoting loop writes the specified text |
| WindowsArgv.BuildCommandLine | src/client_transport.cpp:610-617 | the command line is the quoted arguments joined by blanks |
| WindowsArgv.BodyReads | src/client_transport.cpp:586-608 | a quoted argument reads back as itself for any mix of backslashes, quotes and blanks |
| WindowsArgv.ArgumentsRead | src/client_transport.cpp:610-617 | splitting the printed arguments by the documented rules gives them back unchanged |
| WindowsArgv.SafeRoundTrip | src/client_transport.cpp:610-617 | behind a safe program name the whole vector comes back unchanged |
| WindowsArgv.RoundTripIff | src/client_transport.cpp:610-617 | it does for every vector exactly when the name is safe |
| ExternalUrl.ParseResult | src/client_external.cpp:107-190 | every accepted URL has a lower-case scheme and host of the stated shape, a port in range and a path from the root |
| ExternalUrl.PrintedParses | src/client_external.cpp:78-87 | an origin printed before any path parses back to that origin and that path |
| ExternalUrl.ParseIsFixpoint | src/client_external.cpp:107-190 | parsing the printed form of an accepted URL gives it back |
| UrlGrammar.ParseIff | src/client_external.cpp:107-190 | a text parses to a URL iff a grammar of schemes, names made of labels, bracketed literals, decimal ports and rests writes that text and says it denotes that URL |
| UrlGrammar.HostNameIff | src/client_external.cpp:157-165 | a host name is accepted iff it is 253 characters or fewer of non-empty labels of letters, digits and hyphens, joined by dots |
| UrlPath.NormalizePath | src/client_external.cpp:195-217 | the segment loop and the joining loop compute the specified path |
| UrlPath.NoDotSegments | src/client_external.cpp:195-217 | no `.` and no `..` segment is left |
| UrlPath.NormalizeParts | src/client_external.cpp:195-217 | the query is kept verbatim |
| UrlPath.NormalizeIdempotent | src/client_external.cpp:195-217 | normalizing twice is normalizing once |
| PathMeaning.NormalizeIs | src/client_external.cpp:195-217 | a normalized path is exactly the segments that no later `..` takes back, in order, behind one slash, ending in a slash iff the path did, and the query |
| PathMeaning.RelativeLeads | src/client_external.cpp:219-238 | a relative redirect replaces the last segment of the path it is met on by its own path, and the query by its own |
| PathMeaning.RedirectLeads | src/client_external.cpp:219-225 | a redirect with a scheme leads where it says, one with an authority there under the same scheme |
| UrlPath.RelativeRedirectKeepsOrigin | src/client_external.cpp:219-242 | a redirect that names no authority leads to the same scheme, host and port |
| Routing.NormalizePrefix | src/http_client.cpp:1168-1171 | the client's prefix gets a leading slash and loses its trailing ones |
| Routing.SplitPath | src/http_transport.cpp:278-289 | the splitting loop yields every piece between slashes |
| Routing.RouteInvertsPath | src/http_client.cpp:2004-2032 | with equal prefixes the router recovers the protocol, method and suffix the client printed, reserved methods included |
| Routing.RoutedIff | src/http_transport.cpp:296-368 | the router routes exactly the segments some call is printed as: a reserved method alone, or a method under a protocol the server reaches, each with one of three suffixes |
| Routing.PathsDistinct | src/http_client.cpp:2012-2032 | two calls share a path iff they agree on method and suffix and on the protocol too unless the method is reserved |
| Routing.ScopeBinds | src/http_transport.cpp:377-379 | two stream scopes are equal iff identity and protocol are |
| Routing.BarePathIff | src/http_transport.cpp:904-912 | a bare path to something hosted routes correctly iff the prefix does not cut it at a segment boundary |

## Left out

- Sockets, pipes, TLS, SOCKS, Iroh and process control: every I/O step is a nondeterministic success or failure.
- Arrow IPC bytes, schemas and casts: a batch is its row count, an opaque payload and its metadata; schema checks are inputs that say pass or fail.
- zstd, SHA-256, AEAD and IPv6 parsing: functions assumed lawful where a law is needed.
- Storage backends, upload URLs and redirects during a fetch: a store is a map from URL to object.
- The stream header of `/init` and preferred response sizes: they do not touch the registry or the data read.
- Exceptions that are not standard, allocation failure, and log handlers that throw or re-enter.
- A producer's turn is a script entry: what a handler computes from its input is not modelled, only what it emits, and at most one data batch per turn.
- HttpStream.HttpServer.HandleContinuation: holds sessions as values and runs one request at a time; sharing of one session by concurrent requests is the subject of `StreamRegistry` and `ConcurrentTurns`.
- StreamRegistry.EveryRunIsSafe: requests carry cursors that a reply handed out, or strings no stream is registered under; a guess at a cursor not yet handed out is excluded.
- ConcurrentTurns.Linearizable: a call reads the state it took at its beginning and writes it at its end, in one step each, and its upload is stored at its end; an `/init`'s upload is stored with its answer; which cursors requests carry is as in `StreamRegistry`.
- HttpTurns.ContinueAgrees: a failure while the error reply itself is being written, answered with a bare 500, is modelled for cancels only.
- HttpStream.ReadStream: what a producer's replies lose on the wire is not modelled, losses are `HttpExchange`'s subject; after an exception the session is not ticked again.
- HttpPost.AtMostOnce: that 413 and 415 come before dispatch is an assumption here, met by the front of `HttpExchange.OutsideIsLawful`; how the HTTP library itself reads a request is not modelled.
- HttpExchange.ExchangesAreInStep: no other request names the stream in between, and what a turn outputs is its script's entry, not computed from the input.
- StickySession.Serialized: echo headers are a list in order of arrival, not sorted by name.
- EvidenceDigest.PreimageBinds: speaks of the bytes hashed; SHA-256 itself and the building of an evidence set are not modelled, and JSON attributes enter as their canonical texts.
- Grants.MintedVerifies: wall-clock time is a real number where the source has a double, and the signed overflow of issue time plus lifetime, undefined in the source, is excluded.
- WindowsArgv.RoundTripIff: text is a sequence of characters; the conversion to UTF-16 and a NUL inside an argument, which ends a command line, are not modelled.
- ExternalUrl.ParseIsFixpoint: an IPv6 address's canonical spelling is assumed to be its own canonical spelling.
- Routing.RouteInvertsPath: methods are URL-safe, so no client or server escaping applies.
- The pipe server loop, shared memory, `SessionRegistry`, `ProofVerifier`, key parsing from the environment, hex, DNS name checks, address range tables, error catalogs, CORS, landing pages and the access log's text: only easy members.
