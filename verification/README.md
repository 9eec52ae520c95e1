# Proofs about an HTTP parser, a thread scheduler and a demand-paging loader

Three components of the repository are modelled, each twice: as functions on values that say what it does, and in the
form of the C code, with fields, arrays and loops that are changed step by step, proved to compute those functions.
What the component is for is then proved about the functions, for all inputs and all runs.

**The HTTP parser.** `HttpAutomaton` is the switch of `http_parser_execute` as one step on one byte (strict mode, with
assertions as a stop of their own). `HttpRun` runs it over input; an observable is a byte of a slice or a control
callback at a stream offset, so that two logs of slices are compared after joining adjacent ones. `HttpCalls` adds
what a call saves and loses, `HttpLog` and `HttpProgress` relate marks and callbacks to observables, and
`HttpParserClass` is the loop over an array with its marks, jumps and labels. `HttpMarks` and `HttpHanded` say what a
call that stops has marked and drops. `HttpText` spells out the names, words and byte ranges that the tables of the
parser are compared with. On top: splitting (`HttpSplit`, `HttpCuts`), method tokens (`HttpMethods`), paths and all
other targets with their slices (`HttpUrl`, `HttpTargets`), versions and status lines (`HttpVersions`,
`HttpStatusLine`), header words and blocks, also letter by letter (`HttpSpelled`), the converse for lines
(`HttpLines`), chunked coding, request lines, whole messages, pipelines and upgrades (`HttpFraming`), the header limit
over a pipeline (`HttpLimits`, `HttpLimitIff`), the order of observables (`HttpGrammar`), and the order of the
callbacks that are really made (`HttpLogGrammar`).

**The scheduler.** `ReadyQueue` is the queue as a stable list that also holds waiting threads; `PriorityQueueArray` is
the array behind it. `SchedulerSpec` gives each call as a function to the new scheduler and the semaphore operations
of the caller, in order; `SchedulerClass` is the same with fields updated in place. `SchedulerInvariant` holds what
every call keeps, `SchedulerFrames` all that it writes. `SchedulerSystem` puts the threads around it: a call updates
the scheduler at once, and its `sem_post` and `sem_wait` operations are then interleaved with everything the other
threads can do. `RoundRobin` counts calls.

**The loader.** `ExecParser` turns program headers into page-aligned segments in 32-bit arithmetic. `LoaderSpec` is the
fault handler on an address space, with the loads, stores and fetches of a program; `LoaderClass` is the handler with
its loop and flags. `DemandPaging` compares it with a loader that fills every page at the start.

Where code and documentation disagree, the model follows the code:

- The outcome of parsing depends on where the stream is cut in two ways: once the header limit is reached, because
  `nread` is saved as an `unsigned char` (http_parser.c:1571), and inside a slice, because an error drops what is only
  marked (1575-1577 skips 1561-1568). `CutsAreInvisibleIff` gives the exact condition, `CutsCanMatter` and
  `OpenSliceCutMatters` an input for each.
- `content_length` is unsigned, so a request without a length is read as one of 2^64 - 1 body bytes
  (http_parser.c:579 and 1421), and the arm for messages without a length (1424-1433) is never reached
  (`CompletesAtBlankIff`).
- The arms for CONNECT and MKCOL (http_parser.c:618-633) accept mismatching bytes: `MethodIff` says which.
- A header name may hold a space, a double quote, a slash and a closing brace, which section 2.2 of RFC 2616 excludes
  from tokens (`TokenIs`).
- A host that is a target of its own needs a dot or a digit behind its first letters (`RequestTargetIff`, with
  `HostNeedsDot` as an input).
- A chunk size may hold bytes from 128 on, which the table of 128 entries reads as 0 (`SizeLineIff`,
  `HighByteIsLastChunk`).
- A trailer's `Connection` lines decide about the connection (`ConnectionLines`).
- With a time quantum of one the scheduler lets two threads go on (`SingleCpuIff`, `OnlyRunnerIff`, `OwnWaitsIff`).
- `so_wait` also fails if no other thread could run, not only for an unknown device as so_scheduler.h:70-75 says
  (`WaitKeepsInv`, `LoneThreadCannotWait`).
- The end address of a segment counts as inside it (loader.c:60), which takes the first page of a segment that starts
  there (`ServedIff`, `FilledFromIff`, with `TouchingSegments` as an input).
- A header whose offset is smaller than its address's offset within a page wraps around (exec_parser.c:195), `lseek`
  fails, and the read goes on at the current position (`OffsetIff`, with `SmallOffset` as an input).

## Model

| member | source | states |
|---|---|---|
| `HttpHanded.SplitInvariance` | Homeworks/Asynchronous_Web_Server/http_parser.c:355-1577 | cutting a stream into any nonempty pieces, below the header limit, gives the same fields, stop and offset as one call on the whole and the same bytes and events on the way; the callbacks are handed the same exactly if no cut goes through a slice that is open where the parser stops, so always if it does not stop |
| `HttpHanded.HandedIff` | Homeworks/Asynchronous_Web_Server/http_parser.c:1561-1577 | calls that run alike hand over the same exactly if no cut goes through a slice that is open where they stop |
| `HttpHanded.HandedDecides` | Homeworks/Asynchronous_Web_Server/http_parser.c:1561-1577 | calls that end alike and hand over the same have run alike |
| `HttpHanded.MarksOfFeed` | Homeworks/Asynchronous_Web_Server/http_parser.c:362-377 | where the parser stops, a slice that a cut went through is marked from the last cut on, every other one from its first byte on |
| `HttpHanded.MarkedFit` | Homeworks/Asynchronous_Web_Server/http_parser.c:1575-1577 | a stopped call drops no more bytes of a slice than it has made observable |
| `HttpMarks.OpenMarksRange` | Homeworks/Asynchronous_Web_Server/http_parser.c:362-377 | the marks are those of the slices open in the state, at bytes of the call |
| `HttpMarks.MarksBehindCut` | Homeworks/Asynchronous_Web_Server/http_parser.c:362-377 | a slice open at a cut is marked anew by the next call, every other one as without the cut |
| `HttpCalls.FeedIsRun` | Homeworks/Asynchronous_Web_Server/http_parser.c:355-1573 | any sequence of calls is one run of the one-byte automaton over the joined pieces, although the counter is saved modulo 256 |
| `HttpCalls.CallIsRun` | Homeworks/Asynchronous_Web_Server/http_parser.c:379-1579 | a call that the header limit leaves alone is the run of the automaton over its buffer |
| `HttpCalls.NoAssertionFails` | Homeworks/Asynchronous_Web_Server/http_parser.c:379-1573 | no `assert` of the parser fails over any sequence of calls, and the saved parser is valid again |
| `HttpCalls.RunKeepsInv` | Homeworks/Asynchronous_Web_Server/http_parser.c:379-1559 | no assertion fails in one call, and the joint invariant of state, header sub-state, flags, length and counter survives it |
| `HttpCalls.SaveKeepsInv` | Homeworks/Asynchronous_Web_Server/http_parser.c:1570-1573 | the truncating save of `index` and `nread` loses nothing an assertion depends on |
| `HttpInvariant.StepKeepsInv` | Homeworks/Asynchronous_Web_Server/http_parser.c:379-1559 | the invariant survives every single byte in every state |
| `HttpCalls.CountModulo` | Homeworks/Asynchronous_Web_Server/http_parser.c:379-387 | the counter restored from its lowest byte is behind the true one by a multiple of 256, whatever follows |
| `HttpRun.RunAppend` | Homeworks/Asynchronous_Web_Server/http_parser.c:379-1559 | a run over joined inputs is the run over the first, then over the second |
| `HttpRun.RunStopsWithin` | Homeworks/Asynchronous_Web_Server/http_parser.c:379-1559 | a run that stops does not look past the byte that stops it |
| `HttpRun.AllowedAppend` | Homeworks/Asynchronous_Web_Server/http_parser.c:381-386 | the header limit over joined inputs is decided piece by piece with the true counter |
| `HttpRun.AllowedMonotone` | Homeworks/Asynchronous_Web_Server/http_parser.c:381-386 | a smaller counter never allows fewer bytes |
| `HttpRun.ShortInputsAreAllowed` | Homeworks/Asynchronous_Web_Server/http_parser.c:381-386 | inputs that fit under the limit are never cut short |
| `HttpCuts.CutsAreInvisibleIff` | Homeworks/Asynchronous_Web_Server/http_parser.c:355-1577 | for all inputs and any cuts, below and above the header limit: the calls end as one call on the whole and the callbacks are handed the same, exactly if no cut hides from the truncated counter that the limit is exceeded and none goes through a slice that is open where the parser stops |
| `HttpCuts.CutsKeepRunIff` | Homeworks/Asynchronous_Web_Server/http_parser.c:355-1573 | the run alone, marked bytes included, is that of one call on the whole exactly if no cut hides that the limit is exceeded |
| `HttpCuts.EarlyCutIsInvisible` | Homeworks/Asynchronous_Web_Server/http_parser.c:1571 | a cut taken while fewer than 256 header bytes are counted is invisible exactly if it goes through no slice that is open where the parser stops |
| `HttpCuts.OpenSliceCutMatters` | Homeworks/Asynchronous_Web_Server/http_parser.c:1575-1577 | `GET /a` and a byte that no target has fire no url or path callback in one buffer, and both if cut before that byte |
| `HttpCuts.HiddenOverflowShows` | Homeworks/Asynchronous_Web_Server/http_parser.c:381-386 | a hidden overflow shows in the outcome, however the rest of the stream is cut |
| `HttpCuts.FeedBegins` | Homeworks/Asynchronous_Web_Server/http_parser.c:321-1579 | calls on a beginning of a stream stop as the calls on all of it do, or all of it is consumed further |
| `HttpSplit.CutKeepsRunIff` | Homeworks/Asynchronous_Web_Server/http_parser.c:381-386 | one cut keeps the run exactly if it does not hide that the limit is exceeded, with the condition spelled out |
| `HttpSplit.EarlyCutKeepsRun` | Homeworks/Asynchronous_Web_Server/http_parser.c:1571 | a cut taken while fewer than 256 header bytes are counted keeps the run |
| `HttpSplit.CutsCanMatter` | Homeworks/Asynchronous_Web_Server/http_parser.c:1571 | 81921 carriage returns are refused in one buffer and accepted in two |
| `HttpSplit.FeedAll` | Homeworks/Asynchronous_Web_Server/http_parser.c:321-1579 | calling the parser on buffer after buffer computes `Feed`, and its log grows by exactly what `Feed` hands over, in an order that the grammar of messages allows, stopped or not |
| `HttpSplit.CompareCuts` | Homeworks/Asynchronous_Web_Server/http_parser.c:321-1579 | two parsers fed the same stream, one in pieces and one at once, end alike, and their logs agree for every callback exactly if no cut goes through a slice that is open where they stop |
| `HttpLog.StepAccounting` | Homeworks/Asynchronous_Web_Server/http_parser.c:362-377 | for every byte and callback: what is handed over plus what stays marked is what was marked plus what the byte makes observable, so each mark is set exactly in its resume states |
| `HttpLog.SignalsBetweenSlices` | Homeworks/Asynchronous_Web_Server/http_parser.c:1365-1451 | control callbacks fire only where no slice is open |
| `HttpProgress.ByteKeepsProgress` | Homeworks/Asynchronous_Web_Server/http_parser.c:379-1559 | an iteration of the loop keeps fields, counter, marks and log in step with the automaton |
| `HttpProgress.BulkKeepsProgress` | Homeworks/Asynchronous_Web_Server/http_parser.c:1439-1541 | a jump over body bytes keeps them in step too |
| `HttpProgress.ByteStops` | Homeworks/Asynchronous_Web_Server/http_parser.c:1575-1577 | a byte that stops the loop leaves the log with all that was handed over and without what was only marked |
| `HttpProgress.EndOfBuffer` | Homeworks/Asynchronous_Web_Server/http_parser.c:1561-1573 | handing over the open marks at the end of the buffer leaves nothing out |
| `HttpParserClass.HttpParser.Execute` | Homeworks/Asynchronous_Web_Server/http_parser.c:321-1579 | the loop over an array computes `Call`: fields, return value and stop, and a log that grows by exactly what is handed over, in an order that the grammar of messages allows, stopped or not; a failing assertion is impossible |
| `HttpParserClass.HttpParser.ExecuteEmpty` | Homeworks/Asynchronous_Web_Server/http_parser.c:335-350 | what an empty buffer returns in each state, with no callback |
| `HttpParserClass.HttpParser.Init` | Homeworks/Asynchronous_Web_Server/http_parser.c:1608-1617 | a fresh parser is valid, in the start state of its type |
| `HttpParserClass.HttpParser.ShouldKeepAlive` | Homeworks/Asynchronous_Web_Server/http_parser.c:1581-1599 | what `http_should_keep_alive` answers, tied by `PersistsIsKeepAlive` to the header lines |
| `HttpParserClass.HttpParser.OnByte` | Homeworks/Asynchronous_Web_Server/http_parser.c:388-1558 | the switch outside body bytes refines the automaton's step and emits exactly its callbacks |
| `HttpParserClass.HttpParser.OnStart` | Homeworks/Asynchronous_Web_Server/http_parser.c:390-606 | first byte of a message: refines the step, with the begin callback |
| `HttpParserClass.HttpParser.OnMethod` | Homeworks/Asynchronous_Web_Server/http_parser.c:608-647 | method names: refines the step, the two arms that accept mismatching bytes included |
| `HttpParserClass.HttpParser.OnLiteral` | Homeworks/Asynchronous_Web_Server/http_parser.c:414-468 | fixed letters of requests and responses: refines the step |
| `HttpParserClass.HttpParser.OnNumber` | Homeworks/Asynchronous_Web_Server/http_parser.c:469-553 | version and status numbers: refines the step |
| `HttpParserClass.HttpParser.OnUrl` | Homeworks/Asynchronous_Web_Server/http_parser.c:649-929 | request targets: refines the step, with the marks it sets and the slices it hands over |
| `HttpParserClass.HttpParser.OnHeaderField` | Homeworks/Asynchronous_Web_Server/http_parser.c:1073-1200 | header names: refines the step and its matcher |
| `HttpParserClass.HttpParser.OnHeaderValue` | Homeworks/Asynchronous_Web_Server/http_parser.c:1265-1340 | header values: refines the step and its matcher |
| `HttpParserClass.HttpParser.OnHeader` | Homeworks/Asynchronous_Web_Server/http_parser.c:1026-1437 | header blocks: refines the step |
| `HttpParserClass.HttpParser.FinishHeaders` | Homeworks/Asynchronous_Web_Server/http_parser.c:1365-1437 | end of the header block: upgrade, body framing, reset of the counter |
| `HttpParserClass.HttpParser.OnChunk` | Homeworks/Asynchronous_Web_Server/http_parser.c:1461-1553 | chunked coding outside chunk data: refines the step |
| `HttpParserClass.HttpParser.OnIdentity` | Homeworks/Asynchronous_Web_Server/http_parser.c:1439-1451 | one callback and one jump over body bytes, never past the buffer, lowering the length by as much |
| `HttpParserClass.HttpParser.OnChunkData` | Homeworks/Asynchronous_Web_Server/http_parser.c:1524-1541 | the same for chunk data, never past the buffer |
| `HttpParserClass.HttpParser.ResumeMarks` | Homeworks/Asynchronous_Web_Server/http_parser.c:362-377 | a resumed call marks exactly the slices open in the saved state |
| `HttpBody.IdentityBulk` | Homeworks/Asynchronous_Web_Server/http_parser.c:1439-1451 | the jump over body bytes has the same result as stepping over them one by one |
| `HttpBody.ChunkDataBulk` | Homeworks/Asynchronous_Web_Server/http_parser.c:1524-1541 | the same for chunk data |
| `HttpBody.IdentityUncounted` | Homeworks/Asynchronous_Web_Server/http_parser.c:381-386 | body bytes do not count against the header limit |
| `HttpRequestLine.MethodRun` | Homeworks/Asynchronous_Web_Server/http_parser.c:574-647 | for each method, the bytes of its name as a string literal and a space are recognised as that method |
| `HttpText.NameIs` | Homeworks/Asynchronous_Web_Server/http_parser.c:79-103 | the 23 names that the methods have by RFC 2616 and RFC 2518 are those in the parser's table |
| `HttpText.TokenIs` | Homeworks/Asynchronous_Web_Server/http_parser.c:105-137 | the bytes that the token table lets into a header name, as ranges, and the lower-case byte it gives for each |
| `HttpMethods.MethodIff` | Homeworks/Asynchronous_Web_Server/http_parser.c:574-647 | for every token and method: the token and a space are taken for the method exactly if every byte fits its name, where CONNECT, COPY, MKCOL and MKACTIVITY let mismatching bytes pass |
| `HttpMethods.MistakenMethods` | Homeworks/Asynchronous_Web_Server/http_parser.c:618-633 | `CXNNECT` is read as CONNECT, `CXPY` as COPY |
| `HttpMethods.OnlyFourMistaken` | Homeworks/Asynchronous_Web_Server/http_parser.c:610-645 | a token that is taken for any other method than CONNECT, COPY, MKCOL and MKACTIVITY is the name of that method |
| `HttpRequestLine.VersionRun` | Homeworks/Asynchronous_Web_Server/http_parser.c:931-1024 | a version is read as its two decimal numbers |
| `HttpRequestLine.RequestLineRun` | Homeworks/Asynchronous_Web_Server/http_parser.c:574-1024 | a request line, with a path, a host or an absolute target, yields begin, the slices of its target, its method and its version |
| `HttpVersions.VersionTextIff` | Homeworks/Asynchronous_Web_Server/http_parser.c:964-1017 | for all bytes but line ends: the parser stands behind a version exactly if they are `major.minor` with numbers up to 999, the first without a leading 0 |
| `HttpVersions.HttpVersionIff` | Homeworks/Asynchronous_Web_Server/http_parser.c:931-1024 | for all bytes behind a target up to the line end: accepted exactly if they are spaces, `HTTP/` and such a version, whose numbers are then known |
| `HttpStatusLine.MirrorRun` | Homeworks/Asynchronous_Web_Server/http_parser.c:469-514 | a response version is read as a request version is |
| `HttpStatusLine.StatusIff` | Homeworks/Asynchronous_Web_Server/http_parser.c:516-572 | for all bytes behind the version up to the line end: accepted exactly if they are a status code up to 999 and, behind a space, any text |
| `HttpStatusLine.ResponseLineIff` | Homeworks/Asynchronous_Web_Server/http_parser.c:427-572 | for every line without CR and LF: accepted where a response starts exactly if it is `HTTP/`, a version, a space and a status, with begin as its only callback and the three numbers known |
| `HttpStatusLine.BothTypes` | Homeworks/Asynchronous_Web_Server/http_parser.c:396-425 | a parser for both types reads what starts with `HT` as a response parser does and anything else as a request parser does |
| `HttpUrl.UrlSlicing` | Homeworks/Asynchronous_Web_Server/http_parser.c:649-929 | for every accepted target starting with `/` or `*`: url is all of it, path its prefix up to `?` or `#`, query and fragment the parts behind with their leading marks dropped |
| `HttpUrl.TargetRun` | Homeworks/Asynchronous_Web_Server/http_parser.c:750-929 | the same after any prefix of a target, and any other input without a space or a line end is an error |
| `HttpUrl.TargetIff` | Homeworks/Asynchronous_Web_Server/http_parser.c:155-189 | input that starts with `/` or `*` and holds no space or line end goes on exactly if all its bytes lie in 33..126 |
| `HttpTargets.RequestTargetIff` | Homeworks/Asynchronous_Web_Server/http_parser.c:649-929 | for all bytes before a space or line end: read exactly if they are a path, `scheme://host:port/path` or a host with a dot or digit behind its letters, where only a path may end the line; then url is all of it and path, query and fragment the slices of its path |
| `HttpTargets.HostNeedsDot` | Homeworks/Asynchronous_Web_Server/http_parser.c:671-748 | `host:80` is refused as a target, `h.st:80` is not |
| `HttpHeaderWords.NameRecognised` | Homeworks/Asynchronous_Web_Server/http_parser.c:1026-1178 | the sub-state after a name is the one of the word it denotes, up to case and trailing spaces |
| `HttpHeaderWords.ValueRecognised` | Homeworks/Asynchronous_Web_Server/http_parser.c:1202-1362 | a finished value sets the keep-alive, close and chunked flags exactly for their words |
| `HttpHeaders.ColonState` | Homeworks/Asynchronous_Web_Server/http_parser.c:1073-1183 | at the colon the sub-state tells which header the name denotes, for all names of the bytes in `IsNameByte` |
| `HttpSpelled.NamesRecognised` | Homeworks/Asynchronous_Web_Server/http_parser.c:1026-1183 | the literal bytes of `Connection:`, `Proxy-Connection:`, `Content-Length:`, `Transfer-Encoding:` and `Upgrade:` lead to the value with the right sub-state |
| `HttpSpelled.LinesRecognised` | Homeworks/Asynchronous_Web_Server/http_parser.c:1202-1362 | the literal lines for chunked, keep-alive, close, an upgrade and a length of 1049 set exactly that |
| `HttpHeaders.LengthRun` | Homeworks/Asynchronous_Web_Server/http_parser.c:1241-1294 | a content length is read modulo 2^64 with spaces skipped; any other byte is an error |
| `HttpHeaders.LineRun` | Homeworks/Asynchronous_Web_Server/http_parser.c:1026-1362 | a header line hands over its name and trimmed value and sets exactly the flag and length its words say |
| `HttpLines.LineIff` | Homeworks/Asynchronous_Web_Server/http_parser.c:1026-1362 | every line of bytes but CR and LF is accepted exactly if it is a name of the bytes in `IsNameByte`, a colon or nothing, and a value that its header allows, and then does what that line says |
| `HttpLines.CarriageReturnIff` | Homeworks/Asynchronous_Web_Server/http_parser.c:1342-1374 | behind the CR of any line nothing but LF is accepted |
| `HttpHeaders.BlockRun` | Homeworks/Asynchronous_Web_Server/http_parser.c:1026-1362 | a block of lines does what its lines do, in order |
| `HttpHeaders.BlockFlagsByWords` | Homeworks/Asynchronous_Web_Server/http_parser.c:1342-1362 | each flag is set after a block exactly if some line carries its header with its word |
| `HttpChunked.SizeLineRun` | Homeworks/Asynchronous_Web_Server/http_parser.c:1461-1522 | a chunk-size line is read as its hexadecimal number, extensions ignored |
| `HttpLines.SizeLineIff` | Homeworks/Asynchronous_Web_Server/http_parser.c:1461-1522 | every line of bytes but CR is accepted as a chunk size exactly if it starts with digits, followed by nothing, a semicolon or a space; bytes from 128 on are read as the digit 0 |
| `HttpLines.AcceptedSizeIsEncoded` | Homeworks/Asynchronous_Web_Server/http_parser.c:1461-1522 | an accepted size line is the encoding of its digits and extension, with the size they spell, exactly if none of the digits is such a byte |
| `HttpLines.HighByteIsLastChunk` | Homeworks/Asynchronous_Web_Server/http_parser.c:1461-1522 | a size line of the single byte 200 is read as the last chunk |
| `HttpLines.DataEndIff` | Homeworks/Asynchronous_Web_Server/http_parser.c:1543-1553 | the data of a chunk ends with CR and LF and with nothing else |
| `HttpLines.BlankLinesSkipped` | Homeworks/Asynchronous_Web_Server/http_parser.c:574-577 | line ends before a request are skipped |
| `HttpChunked.UnhexIs` | Homeworks/Asynchronous_Web_Server/http_parser.c:145-154 | the digits in the table, and what each is read as |
| `HttpChunked.ReadRun` | Homeworks/Asynchronous_Web_Server/http_parser.c:1461-1495 | bytes that are read as digits give their number modulo 2^64 |
| `HttpChunked.ChunkedBodyRun` | Homeworks/Asynchronous_Web_Server/http_parser.c:1461-1553 | a chunked body, with extensions and a trailer, is accepted to its last byte, where the message completes |
| `HttpChunked.ChunkedBodyDelivered` | Homeworks/Asynchronous_Web_Server/http_parser.c:1524-1541 | the body callback receives exactly the chunk data |
| `HttpChunked.ChunkedRoundTrip` | Homeworks/Asynchronous_Web_Server/http_parser.c:1461-1553 | for any body cut into nonempty pieces below 2^63: parsing its chunked coding returns the body, completes once, at the last byte |
| `HttpChunked.Hex` | Homeworks/Asynchronous_Web_Server/http_parser.c:1461-1495 | the canonical encoder of a chunk size is inverted by the digits the parser reads |
| `HttpFraming.MessageRun` | Homeworks/Asynchronous_Web_Server/http_parser.c:1365-1451 | a request takes exactly its own bytes, its callbacks are those of its parts, and the next request is possible exactly if the connection persists |
| `HttpFraming.MessageBody` | Homeworks/Asynchronous_Web_Server/http_parser.c:1365-1541 | the body callback receives the entity body: n bytes for an announced length n, the chunk data for chunked coding |
| `HttpFraming.CompletesAtBlankIff` | Homeworks/Asynchronous_Web_Server/http_parser.c:1415-1433 | a request that is neither chunked nor an upgrade completes at its blank line exactly if its length is 0, and otherwise waits for as many body bytes: for 2^64 - 1 if no line sets a length |
| `HttpFraming.BlockLengthIs` | Homeworks/Asynchronous_Web_Server/http_parser.c:1241-1294 | the length of a block is that of the last line that sets one, modulo 2^64, or stays if none does |
| `HttpFraming.UpgradeStopsIff` | Homeworks/Asynchronous_Web_Server/http_parser.c:1365-1408 | a request with good header lines stops at the line feed of its blank line, with headers-complete and complete fired there, exactly if a line asks for an upgrade or the method is CONNECT |
| `HttpFraming.PersistsIsKeepAlive` | Homeworks/Asynchronous_Web_Server/http_parser.c:1581-1599 | keep-alive at the end of a message is decided by its version and its connection lines, the trailer's included |
| `HttpFraming.PipelineRun` | Homeworks/Asynchronous_Web_Server/http_parser.c:315-318 | a pipeline of persistent requests yields the concatenation of their traces |
| `HttpFraming.PipelineInPieces` | Homeworks/Asynchronous_Web_Server/http_parser.c:355-1573 | the same for a pipeline fed in any nonempty pieces |
| `HttpLimits.MessagePasses` | Homeworks/Asynchronous_Web_Server/http_parser.c:381-387 | a message passes the header limit if its head with what is carried over, its size lines and its trailer each fit, whatever the length of its body |
| `HttpLimits.PipelineWithinLimit` | Homeworks/Asynchronous_Web_Server/http_parser.c:355-1573 | so a pipeline of any length in any pieces is handed over as `PipelineLens` says if each of its messages does that |
| `HttpLimitIff.MessagePassesIff` | Homeworks/Asynchronous_Web_Server/http_parser.c:381-387 | the limit leaves a message alone exactly if its head with what is carried over, each of its size lines and its trailer fit 81920 bytes; then its trailer's bytes are carried on to the next message |
| `HttpLimitIff.PipelineIff` | Homeworks/Asynchronous_Web_Server/http_parser.c:381-387 | one call on a pipeline runs through exactly if every message does that, and is stopped by the limit otherwise |
| `HttpLimits.HeadCounts` | Homeworks/Asynchronous_Web_Server/http_parser.c:381-387 | outside bodies every byte counts until a header block ends, so that input that runs through is cut short exactly behind 81920 bytes |
| `HttpLimits.HeadIsLimited` | Homeworks/Asynchronous_Web_Server/http_parser.h:56 | a request whose line and header lines are longer than what is left of 81920 bytes is refused at the byte behind these |
| `HttpFraming.NothingAfterClose` | Homeworks/Asynchronous_Web_Server/http_parser.c:390-394 | after a request that closes, the next byte stops the parser, at that request's end |
| `HttpGrammar.StepKeepsGrammar` | Homeworks/Asynchronous_Web_Server/http_parser.c:574-1553 | every byte keeps the observables of a request parser, bytes of slices and control callbacks, inside the grammar of messages |
| `HttpGrammar.FeedKeepsGrammar` | Homeworks/Asynchronous_Web_Server/http_parser.c:574-1553 | all that becomes observable over any calls is begin, request-line slices, header slices, headers-complete, body slices, trailer slices, complete, again and again |
| `HttpGrammar.OncePerMessage` | Homeworks/Asynchronous_Web_Server/http_parser.c:1365-1451 | among the observables begin, headers-complete and complete come once each per message |
| `HttpLogGrammar.EmittedInOrder` | Homeworks/Asynchronous_Web_Server/http_parser.c:388-1558 | the callbacks that one iteration really makes outside the bodies are in the order of the grammar, also when the parser stops there |
| `HttpLogGrammar.IdentityInOrder` | Homeworks/Asynchronous_Web_Server/http_parser.c:1439-1451 | so are the body callback of a jump and the complete behind it |
| `HttpLogGrammar.OpenSlicesFit` | Homeworks/Asynchronous_Web_Server/http_parser.c:1561-1568 | so are the slices handed over at the end of a buffer |
| `HttpLogGrammar.LogFromStart` | Homeworks/Asynchronous_Web_Server/http_parser.c:321-1579 | the log of a request parser from its start on, over any calls, stopped or not, is begin, request-line slices, header slices, headers-complete, body slices, trailer slices, complete, again and again |
| `HttpLogGrammar.FiredOncePerMessage` | Homeworks/Asynchronous_Web_Server/http_parser.c:1365-1451 | in the log begin, headers-complete and complete are fired once each per message, in turn |
| `ReadyQueue.InsertSplits` | Homeworks/Thread Scheduler/priority_queue.c:26-41 | `enqueue` reorders nothing and puts the thread behind all of its priority or higher |
| `ReadyQueue.InsertKeepsSorted` | Homeworks/Thread Scheduler/priority_queue.c:26-41 | `enqueue` keeps the queue sorted by descending priority |
| `ReadyQueue.DequeueMembers` | Homeworks/Thread Scheduler/priority_queue.c:50-62 | `dequeue` removes exactly what `front` returns |
| `ReadyQueue.FrontIsHighest` | Homeworks/Thread Scheduler/priority_queue.c:43-48 | `front` is the first of the highest priority among the threads that do not wait |
| `ReadyQueue.FrontSkipsWaiter` | Homeworks/Thread Scheduler/priority_queue.c:43-48 | a waiting thread that queues up does not change the front |
| `ReadyQueue.QueueStaysStable` | Homeworks/Thread Scheduler/priority_queue.c:26-62 | over any mix of `enqueue`, `dequeue` and state changes the queue is sorted, with equal priorities in order of arrival |
| `PriorityQueueArray.PriorityQueue.constructor` | Homeworks/Thread Scheduler/priority_queue.c:5-13 | an empty queue without slots |
| `PriorityQueueArray.PriorityQueue.AllocMemory` | Homeworks/Thread Scheduler/priority_queue.c:15-24 | the capacity doubles and the contents stay; the first allocation is for one slot |
| `PriorityQueueArray.PriorityQueue.Enqueue` | Homeworks/Thread Scheduler/priority_queue.c:26-41 | shifting in place is insertion into the stable list, within the allocated slots |
| `PriorityQueueArray.PriorityQueue.FrontThread` | Homeworks/Thread Scheduler/priority_queue.c:43-48 | the loop finds the first thread that does not wait |
| `PriorityQueueArray.PriorityQueue.DequeueThread` | Homeworks/Thread Scheduler/priority_queue.c:50-62 | shifting in place takes out the front and returns it |
| `SchedulerSpec.CheckPreempt` | Homeworks/Thread Scheduler/so_scheduler.c:50-78 | the mutual recursion ends from every state, and changes neither the registry nor any priority |
| `SchedulerInvariant.CheckIdle` | Homeworks/Thread Scheduler/so_scheduler.c:50-62 | with nobody running, the front is scheduled and its semaphore posted, and the whole invariant holds again |
| `SchedulerInvariant.ScheduleIdle` | Homeworks/Thread Scheduler/so_scheduler.c:80-87 | queueing a thread while nobody runs never waits and never preempts |
| `SchedulerInvariant.ExecKeepsInv` | Homeworks/Thread Scheduler/so_scheduler.c:156-175 | `so_exec` keeps the invariant; it keeps the thread running, or hands over and waits last, on the caller's own semaphore |
| `SchedulerInvariant.WaitKeepsInv` | Homeworks/Thread Scheduler/so_scheduler.c:108-129 | `so_wait` fails exactly if the event is bad or nobody else could run, and otherwise hands over to the front, so it never leaves nobody running |
| `SchedulerInvariant.SignalKeepsInv` | Homeworks/Thread Scheduler/so_scheduler.c:131-154 | `so_signal` keeps the invariant and returns the count of its loop |
| `SchedulerInvariant.WaitersAreCounted` | Homeworks/Thread Scheduler/so_scheduler.c:136-142 | counting in the queue counts each waiting thread once |
| `SchedulerInvariant.SignalWakesExactly` | Homeworks/Thread Scheduler/so_scheduler.c:136-142 | the number returned is the number of threads waiting for the event, and exactly these become ready |
| `SchedulerInvariant.SignalOutcome` | Homeworks/Thread Scheduler/so_scheduler.c:131-154 | after `so_signal` nobody waits for the event, every other waiting thread still waits for what it waited for, and the threads that stay queued keep their order |
| `SchedulerInvariant.ExitKeepsInv` | Homeworks/Thread Scheduler/so_scheduler.c:41-45 | the end of a thread keeps the invariant and hands over to the front, if there is one |
| `SchedulerInvariant.ForkIdle` | Homeworks/Thread Scheduler/so_scheduler.c:89-106 | a fork while nobody runs starts the new thread at once |
| `SchedulerInvariant.ForkBehind` | Homeworks/Thread Scheduler/so_scheduler.c:89-106 | a fork of no higher priority queues the thread and costs the caller one unit of time |
| `SchedulerInvariant.ForkAhead` | Homeworks/Thread Scheduler/so_scheduler.c:62-78 | a fork of higher priority preempts the caller, and the time is charged to the new thread |
| `SchedulerInvariant.ForkAheadShort` | Homeworks/Thread Scheduler/so_scheduler.c:66-74 | with a quantum of one that thread yields to itself, and the caller waits on its semaphore |
| `SchedulerFrames.ExecFrame` | Homeworks/Thread Scheduler/so_scheduler.c:156-175 | while time is left `so_exec` takes one unit from the caller and writes nothing else |
| `SchedulerFrames.ExecEndFrame` | Homeworks/Thread Scheduler/so_scheduler.c:156-175 | at the end of the quantum it refills the caller's, makes it ready and the thread that runs next running, and writes nothing else |
| `SchedulerFrames.WaitFrame` | Homeworks/Thread Scheduler/so_scheduler.c:108-129 | an accepted `so_wait` writes the caller's state and event and the state of the front, and no quantum, no priority and no other thread |
| `SchedulerFrames.SignalFrame` | Homeworks/Thread Scheduler/so_scheduler.c:131-154 | an accepted `so_signal` writes the states and events of the threads that wait for the event, the state of the caller and of the thread that runs next, and nothing else |
| `SchedulerFrames.ExitFrame` | Homeworks/Thread Scheduler/so_scheduler.c:41-45 | the end of a thread writes its state and that of the thread that runs next, and nothing else |
| `SchedulerFrames.ForkIdleFrame` | Homeworks/Thread Scheduler/so_scheduler.c:89-106 | a fork while nobody runs adds one running thread and changes no other |
| `SchedulerFrames.ForkBehindFrame` | Homeworks/Thread Scheduler/so_scheduler.c:89-106 | a fork that does not overtake adds one ready thread, changes no other, and is then `so_exec` |
| `SchedulerFrames.ForkAheadFrame` | Homeworks/Thread Scheduler/so_scheduler.c:62-106 | a fork that overtakes adds one running thread that has paid for the call, and writes no more than the caller's state |
| `SchedulerInvariant.RequeuedIsFair` | Homeworks/Thread Scheduler/so_scheduler.c:66-71 | a preempted thread queues up ready, and the priority invariant holds under the thread that preempted it |
| `SchedulerSystem.CallKeepsInv` | Homeworks/Thread Scheduler/so_scheduler.c:33-175 | every library call keeps: each thread in one place matching its state, events exactly while waiting, remaining quanta between 1 and the quantum, no ready thread above the running one; and preemption happens for freshly forked threads only |
| `SchedulerSystem.OwnWaitsIff` | Homeworks/Thread Scheduler/so_scheduler.c:62-78 | a call waits on its caller's own semaphore only, exactly unless it is a preempting fork with a quantum of one |
| `SchedulerSystem.OnlyExitIdles` | Homeworks/Thread Scheduler/so_scheduler.c:41-45 | nobody runs after a call exactly if a thread ended and all others wait or have ended |
| `SchedulerSystem.StepKeepsPhase` | Homeworks/Thread Scheduler/so_scheduler.c:33-175 | with a quantum of at least two, every interleaved step of calls and semaphore operations keeps the handoff: one active thread, all others parked on their own semaphore of value 0 |
| `SchedulerSystem.RunKeepsPhase` | Homeworks/Thread Scheduler/so_scheduler.c:33-175 | hence in every reachable state |
| `SchedulerSystem.OneMover` | Homeworks/Thread Scheduler/so_scheduler.c:33-175 | in every such state exactly one of main and the threads can go on, and only the running thread executes its own code |
| `SchedulerSystem.HandoffCompletes` | Homeworks/Thread Scheduler/so_scheduler.c:50-78 | a thread that was scheduled runs after two forced steps |
| `SchedulerSystem.SingleCpuIff` | Homeworks/Thread Scheduler/so_scheduler.c:11-31 | for every accepted pair of parameters: nothing ever runs beside another thread exactly if the quantum is at least two |
| `SchedulerSystem.QuantumOneState` | Homeworks/Thread Scheduler/so_scheduler.c:62-78 | the run with a quantum of one that leads to two threads that can go on |
| `SchedulerSystem.OnlyRunnerIff` | Homeworks/Thread Scheduler/so_scheduler.c:11-31 | for every accepted pair of parameters: only the running thread is ever in its own code exactly if the quantum is at least two |
| `SchedulerSystem.TwoExecute` | Homeworks/Thread Scheduler/so_scheduler.c:62-78 | the run with a quantum of one that leads to two threads in their own code |
| `SchedulerSystem.LoneThreadCannotWait` | Homeworks/Thread Scheduler/so_scheduler.c:108-114 | a thread that is alone gets -1 from `so_wait` for an event that exists |
| `RoundRobin.TurnComesCloser` | Homeworks/Thread Scheduler/so_scheduler.c:156-175 | one `so_exec` brings the turn of a ready thread of the running priority one call closer |
| `RoundRobin.ExactRoundRobin` | Homeworks/Thread Scheduler/so_scheduler.c:156-175 | such a thread first runs after exactly the running thread's remaining quantum plus those of the threads ahead of it in calls |
| `RoundRobin.TurnWithinRounds` | Homeworks/Thread Scheduler/so_scheduler.c:156-175 | hence within one quantum for the running thread and for each thread ahead |
| `SchedulerClass.Scheduler.constructor` | Homeworks/Thread Scheduler/so_scheduler.c:15-31 | an accepted `so_init` |
| `SchedulerClass.Scheduler.CheckPreempt` | Homeworks/Thread Scheduler/so_scheduler.c:50-78 | the update in place computes the specified outcome, semaphore operations in order included |
| `SchedulerClass.Scheduler.ScheduleThread` | Homeworks/Thread Scheduler/so_scheduler.c:80-87 | the same for `schedule_thread` |
| `SchedulerClass.Scheduler.Exec` | Homeworks/Thread Scheduler/so_scheduler.c:156-175 | the same for `so_exec` |
| `SchedulerClass.Scheduler.Fork` | Homeworks/Thread Scheduler/so_scheduler.c:89-106 | the same for `so_fork`, the refused arguments included |
| `SchedulerClass.Scheduler.WaitFor` | Homeworks/Thread Scheduler/so_scheduler.c:108-129 | the same for `so_wait` and its result |
| `SchedulerClass.Scheduler.Signal` | Homeworks/Thread Scheduler/so_scheduler.c:131-154 | the same for `so_signal` and its result |
| `SchedulerClass.Scheduler.WakeWaiters` | Homeworks/Thread Scheduler/so_scheduler.c:136-142 | the loop wakes and counts the waiters of the queue |
| `SchedulerClass.Scheduler.Exit` | Homeworks/Thread Scheduler/so_scheduler.c:41-45 | the same for the end of a thread |
| `SchedulerInvariant.NewThreadQueued` | Homeworks/Thread Scheduler/utils.c:6-18 | a new thread, once queued, is ready with its priority, the full quantum and no event, and in its one place; no other thread changes, and all of the invariant but fairness holds |
| `SchedulerClass.Scheduler.AddThread` | Homeworks/Thread Scheduler/utils.c:20-30 | the registry grows by one at its end and changes nothing else |
| `ExecParser.Exec.constructor` | Homeworks/Executable Loader/loader/exec_parser.c:176-212 | counting and filling yield exactly the segments of the loadable headers, in order, and their lowest start |
| `ExecParser.Convert` | Homeworks/Executable Loader/loader/exec_parser.c:193-205 | one header, in 32-bit unsigned arithmetic |
| `ExecParser.SegmentOfHeader` | Homeworks/Executable Loader/loader/exec_parser.c:187-212 | every loadable header has its segment, behind those of the headers before it |
| `ExecParser.SegmentShape` | Homeworks/Executable Loader/loader/exec_parser.c:193-205 | a segment starts at the page of its header's address, with the header's flags 4, 2 and 1 as the permissions 1, 2 and 4 and no others |
| `ExecParser.BaseOf` | Homeworks/Executable Loader/loader/exec_parser.c:182-208 | the base address is a lower bound of all segments and one of them, or the largest address if there is none |
| `ExecParser.AlignDownIs` | Homeworks/Executable Loader/loader/exec_parser.h:12 | the mask of the alignment macro, bit by bit, takes off the offset within the page |
| `LoaderSpec.FirstSegment` | Homeworks/Executable Loader/loader/loader.c:59-62 | the segment chosen for a fault is the first whose range, its end address included, has the address |
| `LoaderClass.Loader.MapPageInMemory` | Homeworks/Executable Loader/loader/loader.c:83-141 | filling one page in place: already mapped, or zeros with the file's part read in and the page flagged |
| `LoaderClass.Loader.SegvHandler` | Homeworks/Executable Loader/loader/loader.c:174-182 | the loop over the segments computes `Fault` |
| `DemandPaging.ContentIsImage` | Homeworks/Executable Loader/loader/loader.c:117-135 | a page filled on a fault has byte j of the segment from the file below the file size, and 0 above |
| `DemandPaging.RightSegment` | Homeworks/Executable Loader/loader/loader.c:174-180 | with separate segments the handler picks the one that covers the page |
| `DemandPaging.FaultFillsOnePage` | Homeworks/Executable Loader/loader/loader.c:83-183 | a fault at any address fills its page if it is not behind its segment and the page was not mapped, and changes no other page |
| `DemandPaging.FilledOnce` | Homeworks/Executable Loader/loader/loader.c:102-122 | over any program and any addresses no page is filled twice |
| `DemandPaging.AccessAgreesIff` | Homeworks/Executable Loader/loader/loader.c:143-183 | a load, store or fetch at any address has the answer that it has with all segments loaded at the start, killed programs included, exactly if the address is not behind its segment in a last page or the page is mapped already and permits it |
| `DemandPaging.TransparentIff` | Homeworks/Executable Loader/loader/loader.c:143-183 | for all separate segments and all programs over a set of addresses: lazy and eager loading give the same answers exactly if no address lies behind its segment in a last page |
| `DemandPaging.UnsettledFault` | Homeworks/Executable Loader/loader/loader.c:174-182 | behind a segment in its last page a fault fills nothing |
| `DemandPaging.SlackDiffers` | Homeworks/Executable Loader/loader/loader.c:59-62 | an address behind its segment in a last page is fatal on a first access, although the page would be there |
| `DemandPaging.HeaderImage` | Homeworks/Executable Loader/loader/exec_parser.c:193-197 | byte i of a well-formed loadable header is at its address plus i: the file's byte, or 0 behind the file part |
| `DemandPaging.OffsetIff` | Homeworks/Executable Loader/loader/loader.c:133-137 | the first fault finds the first byte of a header's file part at its address exactly if the header's offset leaves room for the bytes before it in its page, or the bytes at the current file position happen to agree, from which the read goes on when `lseek` fails |
| `DemandPaging.SmallOffset` | Homeworks/Executable Loader/loader/exec_parser.c:195 | a header at address 1 with offset 0 and a file of one byte for which the byte is not found |
| `DemandPaging.TouchingSegments` | Homeworks/Executable Loader/loader/loader.c:59-62 | two touching segments for which the program reads 0 instead of the file's 7 |
| `DemandPaging.LoadSeesFile` | Homeworks/Executable Loader/loader/loader.c:83-183 | a program under demand paging reads that byte unless it stored over it |
| `DemandPaging.HeaderPermissions` | Homeworks/Executable Loader/loader/loader.c:143-183 | at an address of a loadable header a program may load, store and fetch, on the first access already, exactly if bit 2, 1 and 0 of the header's flags are set |
| `DemandPaging.ServedIff` | Homeworks/Executable Loader/loader/loader.c:59-62 | for every list of sane segments without common addresses: an address is served by its own segment exactly if no segment before it in the list ends at that address |
| `DemandPaging.FilledFromIff` | Homeworks/Executable Loader/loader/loader.c:83-141 | the page that a first fault fills is flagged for and filled from the segment that has the address exactly under that condition, and otherwise from one that ends there |

## Left out

- HTTP callbacks are assumed to return 0 and not to change the parser, so `on_headers_complete` never asks to skip the
  body; that arm of the code is in the automaton but its flag is never set.
- Non-strict mode of the HTTP parser.
- Reading behind the method string, and chunk sizes of 2^63 and more, which the code compares as signed numbers: the
  model stops there (`OutOfBounds`) instead of saying what the C program does.
- An upgrade return is a terminal outcome: the code does not save its state (http_parser.c:1405-1408), and the model does
  not say what a further call would do.
- The framing results are for requests with a length or chunked coding; responses behind their status line, messages
  without a length and HTTP/0.9 requests are in the automaton, the splitting, assertion and refinement results, but have
  no framing result.
- `HttpHanded.SplitInvariance`: is for streams below the header limit, as the property is false above it;
  `HttpCuts.CutsAreInvisibleIff` says for all streams and cuts when it holds.
- `aws.c` and the socket helpers, whose results depend on the kernel.
- The scheduler's fields are updated at once by each call; interleavings inside that update are not modelled (the code
  posts a semaphore at so_scheduler.c:69 before it queues the preempted thread at line 71).
- A null scheduler, a second `so_init`, pthread creation and joining, `so_end`, failing allocations, and forks by the
  main program while a thread runs.
- `SchedulerClass.Scheduler.Signal`: asks that no thread is queued twice, which every reachable scheduler satisfies.
- `SchedulerClass.Scheduler.AddThread`: the registry is a sequence, so that the array of pointers and its `realloc` are
  not modelled.
- The capacity and size of the queue are unbounded numbers, not 32-bit `int`.
- The loader's `fix_auxv`, the jump into the program, signal delivery, the identity checks on the ELF header, failing
  system calls other than `lseek` to an offset from 2^31 on.
- `LoaderClass.Loader.MapPageInMemory`: keeps the flags of mapped pages as a set per segment, empty at first; the C array
  is sized by floor division (loader.c:89) and its pointer is not initialised by the parser.
- The default handler of the loader is a terminal outcome, as is a negative count for `read`.
- Accesses of the program are single bytes, checked against the segment's permission bits.
