# A verified model of the Modal client's codec and protocols

This project models the parts of the Rust client for Modal whose behaviour spans many steps, and
proves what they guarantee over every input and every run.

**The pickle codec** (`Bytes`, `PickleLong`, `Text`, `TextRoundTrip`, `PickleValue`, `PickleEncoder`,
`PickleMachine`, `PickleDecoder`, `PickleRoundTrip`, `PickleStreams`, `PickleErasure`,
`PickleSpellings`, `PickleMemo`, `PickleWire`, `PickleLimits`). The encoder compiles a value to a stack-machine program; the decoder runs such
programs with marks and a memo. `PickleMachine` is the machine as functions: `Fetch` reads one
instruction, `Exec` runs it, `Run` repeats them. `PickleEncoder` and `PickleDecoder` hold the
imperative code: a growing buffer, and a decoder object whose position, stack and memo each opcode
updates; each method is proved against the functions. The other modules prove what the functions
promise. A program `p` *pushes* values `vs` when running it from any state, before any further bytes,
adds exactly `vs` to the stack and changes nothing else; encodings push their value, and pushing
programs compose.

**Protocols.** `QueueServer`, `QueueClient`, `QueueIterate` and `PollTiming` (queues and the polling
plan shared with function calls), `RouterMachine` and `RouterClient` (the task command router's token
handling), `Retry` (both retry loops), `Invocation` (function calls), `ProcessStreams` (process stdout
and stdin), `SandboxListing` (pagination), `ImageBuild` (layer chains).

**How the surroundings are modelled.** A loop that waits for a server runs against an arbitrary finite
script of replies, delays and failures; `StillRunning` is its result when the script ends first, so a
contract speaks about every finite prefix of every run. Time is an integer number of milliseconds
since the call (real seconds in the router's retry loop and for creation times). Libraries whose code
is elsewhere are parameters: the parsers of float text, JWT expiries and GPU descriptions, CBOR, and
blob downloads. Floats are their 64-bit patterns, strings their UTF-8 bytes (RFC 3629, section 4).
Error messages are dropped; error variants are kept. A queue partition is a FIFO whose requests each
take effect at one instant, all or nothing; the requests of other clients may come between any two
of a client's own. Router threads interleave at every lock and every RPC.

**Where the code falls short of what a reader may expect.** Lengths of strings and byte strings are cast
to 32 bits (`modal/src/pickle.rs:156`, `modal/src/pickle.rs:165`), so a blob of 2^32 bytes or more does
not survive the round trip: `BlobRoundTripsIffItFits`. Listing uses strict time cursors
(`modal/src/sandbox.rs:717`), so it is complete exactly when no two sandboxes share a creation time:
`CompleteIffTimesDistinct`. The router stores a token and its expiry under separate locks
(`modal/src/task_command_router.rs:283-290`), so with overlapping refreshes the expiry is the token's
exactly when the thread that stored its token last also stored its expiry last, unless tokens share an
expiry: `ExpiryMatchesIffSameThread`, with a run that ends mismatched in `OverlapMismatches`. Deleting
memo writes is harmless to a pickle that decodes exactly when it reads no memo: `ErasureIsExactFor`.

## Model

| member | source | states |
|---|---|---|
| PickleRoundTrip.RoundTrip | modal/src/pickle.rs:134-141 | deserializing the serialization of any value whose blobs are shorter than 2^32 gives back that value, dict order and duplicates included |
| PickleRoundTrip.EncodePushes | modal/src/pickle.rs:143-217 | from any stack and memo, and before any bytes, an encoding pushes exactly its value and ends exactly at its end |
| PickleRoundTrip.SerializedRun | modal/src/pickle.rs:392-405 | a whole pickle run from any machine state returns its value, stops right after STOP and leaves the machine as it was |
| PickleRoundTrip.SerializeInjective | modal/src/pickle.rs:134-141 | different values have different pickles |
| PickleRoundTrip.IntPushes | modal/src/pickle.rs:219-236 | each of the four integer encodings is read back as the same i64 |
| PickleLimits.BlobRoundTripsIffItFits | modal/src/pickle.rs:153-168 | one string or byte string survives the round trip if and only if its length is below 2^32 |
| PickleLimits.DecodedBlobsFitInput | modal/src/pickle.rs:392-704 | no decoded string or byte string is longer than the input less two bytes, whatever the program does |
| PickleLimits.ReencodingIsLossless | modal/src/pickle.rs:134-141 | whatever decodes from at most 2^32 + 1 bytes survives encoding and decoding again |
| PickleEncoder.PickleSerialize | modal/src/pickle.rs:134-141 | the buffer built is the header, the encoding and STOP |
| PickleEncoder.EncodeValue | modal/src/pickle.rs:143-217 | appends exactly the encoding of the value to the buffer |
| PickleEncoder.EncodeInt | modal/src/pickle.rs:219-236 | appends the first of the four integer encodings whose range test holds |
| PickleLong.LongToBytes | modal/src/pickle.rs:239-268 | the trimming loops yield the shortest signed little-endian string, empty for zero |
| PickleLong.BytesToLong | modal/src/pickle.rs:708-719 | for every byte string the result is its signed value taken modulo 2^64 into i64 |
| PickleLong.LongBytesMinimal | modal/src/pickle.rs:239-268 | the string denotes the value and no shorter signed string does |
| PickleLong.LongBytesWidth | modal/src/pickle.rs:239-268 | an i64 needs at most eight bytes |
| PickleLong.LongRoundTrip | modal/src/pickle.rs:708-719 | decoding the encoding of an i64 gives it back |
| PickleDecoder.PickleDeserialize | modal/src/pickle.rs:273-276 | a fresh decoder's result is the machine's run from the empty state |
| PickleDecoder.Decoder.Decode | modal/src/pickle.rs:392-704 | terminates on every input with the machine's result, position, stack and memo; the position never moves back or past the end |
| PickleDecoder.Decoder.Opcode | modal/src/pickle.rs:395-702 | every opcode's handler does what the machine's instruction does, and fails when it fails |
| PickleDecoder.Decoder.ReadByte | modal/src/pickle.rs:305-312 | takes the next byte, or fails at the end |
| PickleDecoder.Decoder.ReadBytes | modal/src/pickle.rs:314-321 | takes the next n bytes, or fails without moving when fewer remain |
| PickleDecoder.Decoder.ReadLine | modal/src/pickle.rs:352-363 | takes the bytes before the first line feed and skips it, or fails when there is none |
| PickleDecoder.Decoder.PopDownToMark | modal/src/pickle.rs:378-390 | the values above the topmost mark in pushing order, with the stack below it left; fails without a mark |
| PickleStreams.RunSwap | modal/src/pickle.rs:392-704 | a run that never touches a suffix behaves the same before any other suffix |
| PickleStreams.AppendedBytesIgnored | modal/src/pickle.rs:403-405 | bytes after a complete pickle never change its result |
| PickleStreams.DependsOnConsumedBytes | modal/src/pickle.rs:305-363 | a successful result is determined by the bytes consumed |
| PickleStreams.NoProperPrefix | modal/src/pickle.rs:305-363 | no proper prefix of the consumed bytes decodes |
| PickleStreams.ConsumesPrefix | modal/src/pickle.rs:305-321 | a successful run consumes a non-empty prefix and never passes the end |
| PickleStreams.ConcatenationDecodes | modal/src/pickle.rs:392-405 | concatenated pickles decode one by one in order on one decoder |
| PickleStreams.SerializedConcatenation | modal/src/pickle.rs:134-141 | serialized values sent back to back come out in order and leave the decoder unchanged |
| PickleErasure.ErasureKeepsOutcome | modal/src/pickle.rs:596-658 | in a program without memo reads, deleting every memo write, frame and protocol opcode keeps value, stack and remaining bytes, or failure |
| PickleErasure.EraseIsMinimal | modal/src/pickle.rs:396-402 | the erased program has no such opcode left before STOP |
| PickleErasure.MemoisedPickleDecodes | modal/src/pickle.rs:596-658 | a pickle that memoizes and frames but otherwise spells an encoding decodes to that value |
| PickleErasure.ErasureIsExactFor | modal/src/pickle.rs:596-658 | for every byte string, erasure leaves what it decodes to unchanged if and only if it has no memo read before STOP or does not decode; with a memo read the erased pickle never decodes |
| PickleErasure.LoadsNeedTheirStores | modal/src/pickle.rs:620-652 | a pickle that decodes and whose erasure does not: the condition excludes something |
| PickleSpellings.ListSpellingsAgree | modal/src/pickle.rs:518-569 | MARK…LIST and EMPTY_LIST with any batching of APPEND and APPENDS push the same list |
| PickleSpellings.DictSpellingsAgree | modal/src/pickle.rs:526-595 | MARK…DICT and EMPTY_DICT with any batching of SETITEM and SETITEMS push the same dict |
| PickleSpellings.TupleSpellingsAgree | modal/src/pickle.rs:537-555 | EMPTY_TUPLE and TUPLE1 to TUPLE3 push what MARK…TUPLE pushes |
| PickleMemo.MemoizeIsPut | modal/src/pickle.rs:596-658 | MEMOIZE after any value, with k slots filled, runs like BINPUT k and like LONG_BINPUT k |
| PickleMemo.MemoizeThenGet | modal/src/pickle.rs:619-658 | a value memoized with k slots filled is what BINGET k and LONG_BINGET k push, and stays in slot k |
| PickleMemo.SharedPickleDecodes | modal/src/pickle.rs:596-658 | any nesting of containers that memoizes values and names them again decodes to what it denotes: reference j is the j-th value memoized, numbered by MEMOIZE or by PUTs |
| PickleMemo.NothingToSaveOrGet | modal/src/pickle.rs:596-658 | with no value on top a memo write does nothing; reading an empty slot fails |
| PickleWire.OpcodeNumbers | modal/src/pickle.rs:10-62 | the opcode bytes |
| PickleWire.OtherBytesRefused | modal/src/pickle.rs:699-701 | any other byte is refused as an opcode |
| PickleWire.ScalarsOnTheWire | modal/src/pickle.rs:143-236 | None, Booleans and integers byte by byte |
| PickleWire.FloatsOnTheWire | modal/src/pickle.rs:149-152 | a float is its eight bytes, most significant first |
| PickleWire.BlobsOnTheWire | modal/src/pickle.rs:153-168 | strings and byte strings byte by byte |
| PickleWire.ContainersOnTheWire | modal/src/pickle.rs:169-217 | how lists, tuples and dicts open and close, keys before values |
| PickleWire.StringSpellings | modal/src/pickle.rs:431-483 | any string in any of the four Unicode forms pushes the same value |
| PickleWire.IllFormedStringsRefused | modal/src/pickle.rs:431-483 | ill-formed UTF-8 is refused in all of them |
| PickleWire.BytesSpellings | modal/src/pickle.rs:452-477 | any byte string in any of five forms pushes the same value |
| PickleWire.NegativeLengthRefused | modal/src/pickle.rs:473-477 | a BINSTRING of negative length fails |
| PickleWire.QuotedString | modal/src/pickle.rs:484-491 | a quoted STRING line pushes the bytes between its quotes |
| PickleWire.IntSpellings | modal/src/pickle.rs:409-507 | any integer in each form that holds it, its padded decimal numeral included, pushes the same value |
| PickleWire.TextSlots | modal/src/pickle.rs:608-652 | PUT and GET read their slot from a decimal numeral |
| PickleWire.MarkOpcodes | modal/src/pickle.rs:522-595 | exactly what the opcodes over a mark build and when they fail |
| PickleWire.MarkOpcodesNeedMark | modal/src/pickle.rs:378-390 | without a mark they all fail |
| PickleWire.AppendOpcode | modal/src/pickle.rs:556-562 | APPEND grows the list below the item and fails on anything else |
| PickleWire.SetItemOpcode | modal/src/pickle.rs:570-579 | SETITEM adds the pair to the dict below and fails on anything else |
| PickleWire.StackSpellings | modal/src/pickle.rs:659-698 | POP and POP_MARK undo, DUP repeats, the object opcodes leave a placeholder |
| PickleWire.ValueOpcodesNeedValues | modal/src/pickle.rs:369-375 | opcodes that take values fail on a mark or an empty stack |
| PickleWire.StopReturnsTop | modal/src/pickle.rs:403-405 | STOP returns the value on top and fails on a mark or an empty stack |
| TextRoundTrip.ValidIffEncodes | modal/src/pickle.rs:431-437 | the accepted byte strings are exactly the UTF-8 encodings of strings of scalar values |
| TextRoundTrip.NumeralRoundTrip | modal/src/pickle.rs:492-507 | a decimal numeral is read back as its number |
| TextRoundTrip.TrimPadded | modal/src/pickle.rs:492-507 | trimming takes off ASCII padding and nothing else |
| TextRoundTrip.TrimByteTakesAll | modal/src/pickle.rs:484-491 | stripping quotes takes all of them off both ends and nothing else |
| QueueServer.AnyInterleavingRefines | modal/src/queue.rs:349-481 | under any interleaving of requests of any clients, what was received is a prefix of what was accepted and exactly the rest is stored, in order |
| QueueServer.StepRefines | modal/src/queue.rs:376-383 | one request keeps that, and the front of the queue decodes to exactly the values put |
| QueueClient.GetDecidedByReplies | modal/src/queue.rs:366-395 | a get polls until the first reply that fails, hands over items, or comes at or past the timeout; that reply alone gives the result: its status code, the decoding of exactly the items handed over, or QueueEmpty if and only if it is empty and the time is up |
| QueueClient.GetInternal | modal/src/queue.rs:349-396 | the loop is that run; its waits follow the polling plan; at most one request takes effect, its items are exactly what is returned |
| QueueClient.Get | modal/src/queue.rs:403-410 | the run of a get of one: its error, or the one value, which is the decoding of the front item, the only one removed |
| QueueClient.PutDecidedByAnswers | modal/src/queue.rs:444-478 | every attempt but the last finds the queue full before the deadline; the last answer alone gives the result: success if and only if stored, QueueFull if and only if full at or after the deadline, else its status code |
| QueueClient.SleepsAreGood | modal/src/queue.rs:459-474 | the k-th sleep is min(100 ms * 2^k, 30 s) from the answer before it, only ever shortened, to end at the deadline |
| QueueClient.AttemptsBounded | modal/src/queue.rs:463-474 | with timeout T at most T/200 ms + 2 attempts are made |
| QueueClient.PutInternal | modal/src/queue.rs:431-481 | the loop is that run; every attempt offers the same pickles; effect exactly once on success and none otherwise |
| QueueClient.RunRefines | modal/src/queue.rs:349-481 | any run of puts and gets, among any requests of others, keeps the FIFO refinement and never fails to decode; alone, a client receives what comes next, in order, and its successful puts are appended |
| QueueClient.RunCalls | modal/src/queue.rs:403-507 | a sequence of calls is that run: its state and every call's result |
| QueueClient.ValidatePartitionKey | modal/src/queue.rs:46-57 | keys over 64 bytes are refused, the empty key is the default partition, and any other key is used unchanged |
| QueueIterate.Iterate | modal/src/queue.rs:516-561 | the loop stops at the first fetch that fails, serves an undecodable entry or completes an idle period, and that fetch decides result or error; the result decodes exactly the entries served, a prefix of the log, each once and in order, with the cursor at the last; with a zero poll timeout exactly one fetch is made |
| QueueIterate.BusyUntilLast | modal/src/queue.rs:530-558 | every fetch before the last was answered and left the loop idle for less than the poll timeout |
| PollTiming.WaitsWithinTimeout | modal/src/queue.rs:359-394 | no wait exceeds the cap or runs past the timeout |
| PollTiming.ExpiresExactly | modal/src/invocation.rs:330-340 | if no poll overruns its wait, the timeout error comes exactly at the timeout |
| PollTiming.FullWaitPolls | modal/src/invocation.rs:316-340 | if every poll uses its full wait, there are max(1, ceil(T/cap)) of them |
| RouterMachine.EveryRunSafe | modal/src/task_command_router.rs:238-339 | under every interleaving the URL never changes and the stored token and every token presented came from an access response with that URL |
| RouterMachine.SecondTokenIsFresh | modal/src/task_command_router.rs:325-339 | under every interleaving the token an operation presents again was stored when or after the operation stored its own |
| RouterMachine.RpcBounds | modal/src/task_command_router.rs:325-339 | an operation issues at most two operation RPCs and one access RPC, the second only after UNAUTHENTICATED and a refresh; started after close, none |
| RouterMachine.StartedAfterClose | modal/src/task_command_router.rs:238-241 | in every run, whatever is started after a close, wherever the two stand in it, never issues an RPC and can only end refused |
| RouterMachine.NoRefreshAfterClose | modal/src/task_command_router.rs:296-299 | in every run a thread that had not begun to refresh when the client was closed never issues an access RPC |
| RouterMachine.FieldsComeFromLastStores | modal/src/task_command_router.rs:255-322 | in every run the stored token is the one stored last and the stored expiry that of the token whose expiry was stored last; they match if and only if these two tokens expire at the same time |
| RouterMachine.ExpiryMatchesIffSameThread | modal/src/task_command_router.rs:283-290 | the expiry is the stored token's if one thread made both last stores; and, no two tokens sharing an expiry, only if |
| RouterMachine.ExpiryFollowsToken | modal/src/task_command_router.rs:255-322 | when the two stores of refreshes do not interleave, the stored expiry is the stored token's whenever no refresh is half done |
| RouterMachine.OverlapMismatches | modal/src/task_command_router.rs:283-290 | such runs exist: from every newly initialized client whose token is due for refresh, two overlapping refreshes end with one token under the other's expiry |
| RouterClient.TaskCommandRouterClient.Init | modal/src/task_command_router.rs:210-235 | succeeds exactly when the access request does, the token parses and the URL is https, and then starts in the machine's initial state |
| RouterClient.TaskCommandRouterClient.Close | modal/src/task_command_router.rs:238-241 | marks the client closed and changes nothing else |
| RouterClient.TaskCommandRouterClient.RefreshJwtIfNeeded | modal/src/task_command_router.rs:255-293 | refused once closed, a token with more than 30 seconds left is kept, otherwise one access request replaces it and its expiry; the same as the machine's refresh thread run alone |
| RouterClient.TaskCommandRouterClient.ForceRefreshJwt | modal/src/task_command_router.rs:296-322 | refused without an RPC once closed; a changed URL or an error changes nothing; otherwise stores the token and its expiry |
| RouterClient.TaskCommandRouterClient.Operate | modal/src/task_command_router.rs:325-355 | one request under the current token; on UNAUTHENTICATED only, one access request and, if it succeeds with the same URL, one more request under the new token; the same as the machine's operation thread run alone |
| Retry.CallWithRetries | modal/src/task_command_router.rs:31-94 | sleeps are base·factor^k after one of the five transient codes only, none begins that would reach the deadline, no call starts at or past it, at most max_retries + 1 calls, and each result comes exactly from its cause |
| Retry.SleepsFitDeadline | modal/src/task_command_router.rs:83-91 | all sleeps together are shorter than the deadline |
| Retry.DoublingFitsDeadline | modal/src/task_command_router.rs:53-91 | with factor 2, k sleeps imply base·(2^k − 1) < deadline |
| Retry.RetryCall | modal/src/interceptors.rs:171-204 | attempts count from 0 under one key, repeated after three codes only; first sleep is the base delay, later ones min(base·factor^k, max); the last reply decides; the range is never exhausted |
| Invocation.PollFunctionOutput | modal/src/invocation.rs:307-342 | empty replies are polled past by the plan, at most 55 s each; the first other reply decides, and its report is the result; the timeout error only when the plan has expired |
| Invocation.ResultMeaning | modal/src/invocation.rs:344-437 | what every output means by its status, data and format; a blob that cannot be fetched gives its own error |
| Invocation.InternallyMeaning | modal/src/invocation.rs:344-374 | a wait ends in an internal failure if and only if its first non-empty reply is one, as an RPC error or by its output's status |
| Invocation.ControlPlaneInvocation.Create | modal/src/invocation.rs:134-165 | takes the identifiers of the response, and its first input token or the empty one |
| Invocation.ControlPlaneInvocation.Retry | modal/src/invocation.rs:209-232 | sends the same input under the latest token, and keeps the first token of a response that has any |
| Invocation.InputPlaneInvocation.Retry | modal/src/invocation.rs:290-304 | each retry sends the same function id and input under the token of the attempt before |
| Invocation.Remote | modal/src/function.rs:132-161 | at most ten waits and nine retries numbered from 0, same input, latest token; a retry only after a wait whose deciding reply is an internal failure; any other report is returned at once |
| Invocation.JwtIsLatest | modal/src/invocation.rs:224-230 | the token presented is the first of the latest non-empty response, else the original |
| ProcessStreams.ContainerProcessReader.Read | modal/src/sandbox.rs:1137-1180 | delivered bytes plus the buffer are the fetched chunks; fetches only when drained and not at the end; fills what it can and touches nothing beyond |
| ProcessStreams.ReadsConserve | modal/src/sandbox.rs:1092-1180 | over any sequence of reads, sizes, chunks and errors: delivered plus buffered is what was fetched, each fetched error is returned once, the end is permanent with no later fetch |
| ProcessStreams.ReadMany | modal/src/sandbox.rs:1137-1180 | a sequence of reads is that run: every outcome, what is buffered, and the number of fetches |
| ProcessStreams.ContainerProcessStdin.Write | modal/src/sandbox.rs:1068-1080 | sends at the current offset, which advances exactly on acknowledgement; nothing after close or for no bytes |
| ProcessStreams.ContainerProcessStdin.Close | modal/src/sandbox.rs:1051-1059 | sends EOF at the current offset until one is acknowledged, then never again |
| ProcessStreams.RequestsTile | modal/src/sandbox.rs:1049-1080 | over any run with any failures the requests tile the stream from 0, the acknowledged bytes are exactly those written before the first successful close, and that close carries the final offset and is last |
| ProcessStreams.RunStdin | modal/src/sandbox.rs:1049-1080 | a sequence of calls sends exactly those requests, and each call succeeds exactly when it should |
| SandboxListing.List | modal/src/sandbox.rs:700-727 | pages follow one another strictly before the last entry seen; a request that fails gives its code whatever has been gathered, and only an empty page, with nothing left before the cursor, gives the pages in order |
| SandboxListing.AllOrFault | modal/src/sandbox.rs:700-727 | with distinct creation times the result is every sandbox or the code of the first fault met, never a part |
| SandboxListing.CompleteIffTimesDistinct | modal/src/sandbox.rs:700-727 | every sandbox is listed exactly once, newest first, for all page sizes, if and only if creation times are distinct |
| ImageBuild.Build | modal/src/image.rs:297-398 | nothing is sent unless all layers validate; each layer is decided by the server's own answer, must be a success to name the next request's base, and the last one's id is returned; only the first request has the registry configuration; each is forced exactly when a layer up to its own asks for it; the first failed layer ends the build |
| ImageBuild.AwaitLayer | modal/src/image.rs:368-390 | polls resume from the last entry id until the first answer with a result, passed on as it is, or an error |
| ImageBuild.ForceBuildMonotone | modal/src/image.rs:347-349 | once a layer is forced, every later one is |
| ImageBuild.ValidateDockerfileCommands | modal/src/image.rs:402-412 | accepts exactly the command lists without a COPY from the local context |
| ImageBuild.WhatIsRefused | modal/src/image.rs:402-412 | a command between white space is refused exactly when it begins with COPY and a space and not with COPY --FROM=, in any case |
| ImageBuild.UpperLetters | modal/src/image.rs:404-405 | COPY and --FROM= are recognized in any case |
| ImageBuild.IntoResult | modal/src/image.rs:157-177 | only a successful result gives an image id |

## Left out

- RoundTrip: that an oversized blob breaks it is proved for values that are one string or byte string; inside a container the bytes after the wrapped length could be arranged to decode to anything.
- RouterClient.TaskCommandRouterClient.Operate: stands for all operations; `exec_wait`'s check of a deadline before the call and its renaming of two errors are not modelled, because they are single branches around it.
- The text of FLOAT beyond its line structure: parsing it is library code, given as a parameter.
- Arithmetic overflow of positions, durations and offsets in machine words; a negative BINSTRING length is a failure, as it exceeds any input.
- Python's sharing of memoized objects: the memo holds copies, as in the code.
- A queue request whose error hides that the server acted on it; the partition time-to-live; conversion of durations to floats.
- Clearing, measuring, creating and deleting queues, ephemeral heartbeats, and all lookups by name: single requests.
- The bridge that reads process output through the router always asks for offset 0; the reader is modelled over its own interface, which promises the next chunk.
- The CBOR encoding of arguments and the size limit of inline inputs: `Remote` takes the built input or its error.
- Sandbox creation, file systems, volumes, secrets, configuration, transport and header injection.
- A sandbox created at time 0 would reset the list cursor; creation times are positive in the model.
- Layer environments and image construction from registries: the build does not read the former, the latter only fills in fields.
