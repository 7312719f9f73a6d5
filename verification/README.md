# A verified model of the ATS FastCGI plugin

This project models, in Dafny, the three stateful components of the Apache Traffic Server FastCGI plugin and
proves what they keep over every input and every run:

- the **FastCGI record codec** of `src/ats_fcgi_client.cc`: the decoder that resumes over network chunks, and
  the encoder that writes a request through one buffer;
- the **connection scheduler** of `src/server.cc` with its pool, queue and id map, for one thread and for any
  number of interleaved threads;
- the **configuration parser and writer** of `src/configuru.hpp`.

Each component comes in two forms. The form the source has (classes with fields, loops, a moving position) is
proved to do what a specification on values says; the main theorems are then proved about that specification.
`dafny verify dfyconfig.toml` checks everything.

## How the files build on each other

| file | what it holds |
|---|---|
| `FcgiProtocol` | records, and the reference parser of section 3.3 of the FastCGI Specification 1.0 |
| `FcgiStream` | the decoder as a machine fed byte by byte; feeding is a fold |
| `FcgiResponse` | the machine refines the reference parser; when chunking matters and when it does not |
| `FcgiDecoder` | the decoder's fields and loops, against the machine |
| `FcgiRequest` | the bytes of a request, the reader of section 3.4, and what readers find in a request |
| `FcgiEncoder` | the encoder's buffer and position, against those bytes |
| `FcgiWire` | a request as the backend finds it, read by byte positions only |
| `SchedulerSpec` | one thread's scheduler as a state machine, one step per event |
| `SchedulerInvariants`, `SchedulerOrder`, `SchedulerService` | what every event keeps; who is started when; what a connection counts and serves |
| `SchedulerEvents` | every event field by field: which connection is taken, who waits, who is dropped, what is left |
| `Scheduler` | the classes of the source, one method per event, against the state machine |
| `SchedulerThreads`, `SchedulerMachine` | the same work cut at every access to shared data; any interleaving of any number of threads |
| `SchedulerSections` | the cut-up work, left alone, is the one-step event |
| `SchedulerReduction`, `SchedulerThreadOrder` | and interleaved, too: every thread goes through a run of the one-step machine, in order |
| `ConfigText`, `ConfigUtf8` | values, options, characters; escapes and UTF-8 |
| `ConfigGrammar`, `ConfigLayout` | what the parser accepts and what the writer prints, as functions |
| `ConfigNumbers`, `ConfigStrings`, `ConfigRoundTrip` | the parser reads what the writer prints, for every tree and layout |
| `Wrappers` | the option type |
| `ConfigSpelling`, `ConfigDocuments` | every JSON text means what RFC 8259 says: strings in any spelling, numbers in any form, any white space |
| `ConfigErrors`, `ConfigOptions` | where errors are reported, at any depth; what each option lets through |
| `ConfigColumns` | what a dump looks like: lines, columns, separators, and the forms of strings and keys |
| `ConfigReader`, `ConfigMeaning` | layout has no meaning; texts are reproduced; JSON; escapes; trailing commas |
| `ConfigObject` | the numbered map behind an object, and when its order is determined |
| `ConfigParser`, `ConfigWriter` | parser and writer as written, against the functions |

## Where the code does not do what one would expect

The code is modelled as it is. For each expectation that fails there is the exact condition under which it
holds, or the family of inputs on which it fails.

- **Padding.** The padding state skips all that is left of the padding whatever the chunk holds
  (`src/ats_fcgi_client.cc:387-390`). Two chunks mean what their concatenation means exactly when the padding
  left open by the first fits into the second (`TwoChunks`); every other cut reads past the chunk or ends the
  response early (`PaddingCutFails`).
- **Bare headers.** A record with neither content nor padding is handed on only when a further byte follows
  (`src/ats_fcgi_client.cc:431-433`); `Deliverable` and `RequestDecodes` say which record that concerns.
- **The transfer loop** keeps only the last block's answer (`src/server.cc:23-34`). It reports the end of a
  response exactly unless that comes before the last block and does not come again with it
  (`TransferIsFeeding`); and the records behind the end are sent to the client, too (`TransferHandsOn`,
  `TransferRenders`).
- **Request bodies.** Every body chunk is followed by its own end of stream, and a request that is not a POST
  gets one in any case (`src/ats_fcgi_client.cc:171-186`, `257-260`): `RequestWellFormed` gives the exact number
  of chunks.
- **Lengths.** Parameters or chunks beyond 65535 bytes, and names or values from 2^31 bytes on, do not fit
  their length fields (`RequestRoundTrip`, `ParamsRoundTrip`).
- **Overtaking.** Only `removeIntercept` looks at the queue. When a connection breaks, its place goes to the
  next newcomer, who overtakes everybody waiting (`BrokenConnectionLetsOvertake`).
- **Early aborts.** If the client goes away before its connection is there, the connection is put into the
  free list without being connected. When the next request takes it, `createFCGIClient` runs for that request
  at once and again when NET_CONNECT comes (`src/server.cc:61-65`, `376`; `EarlyAbortCountsTwice`). A counter
  passes its limit exactly by a NET_CONNECT for a connection that carries a request and has counted all it may
  (`StepFits`, `RunsFit`). It is the counter that passes the limit, not the service: no connection ever serves
  more distinct requests than its limit (`ServiceWithinLimit`).
- **Moved requests.** A request whose connection fails before it is sent is connected anew; it is dropped,
  although it was accepted, exactly if the pool is saturated and the queue full (`MovedRequestIsDropped`). Its
  old connection still has its place in the pool then (`MovedRequest`).
- **Aborts on another thread** than the one that made the connection put that connection into the hands of the
  wrong thread. What the threads keep survives such an abort exactly if the id is no longer in the map
  (`AbortElsewhere`).
- **Five-byte UTF-8** loses bit 24, as the second byte is not masked (`src/configuru.hpp:2209-2216`;
  `Utf8RoundTrip`). Unicode ends before that form begins.
- **NUL** is written as `\0` (`src/configuru.hpp:3797-3798`), an escape the parser does not know; and reserved
  words are written bare as keys where bare keys are allowed. Both make a dump unreadable, and nothing else
  does, but for the next point.
- **Commas in objects** are left out on account of the option for arrays (`src/configuru.hpp:3631-3635`). That
  makes a dump unreadable exactly when the option for arrays is on, the one for objects is off, the layout is
  not compact, and some object has two entries (`CommasMatch`, `Readable`).
- **Trailing commas**, in arrays and objects alike, are refused only when the bracket follows on the comma's line
  or at the very start of the next; with white space in front of it there, the comma passes
  (`TrailingCommaInArray`, `TrailingCommaInObject`).
- **Zeros** in front of a number are refused exactly if it has no sign, no fraction and no exponent, at most 19
  digits, and is not zero (`LeadingZeros`); `-012`, `00.5` and twenty digits beginning with zero pass.
- **White space and control characters.** A carriage return that no newline follows is refused where it stands
  (`src/configuru.hpp:2541`), although RFC 8259 allows it (`NoComments`); inside strings every control character
  but NUL, newline and tab passes as it is, although RFC 8259 asks for escapes (`Allowed`, `ReadExactlyIfSpelled`).
- **Erased entries.** The number given to a new entry is the size of the object (`src/configuru.hpp:1880-1896`).
  After an erasure it can be taken already, and then the order of writing is open (`EraseThenInsert`,
  `ErasedOrderIsOpen`).

## Model

| member | source | states |
|---|---|---|
| FcgiProtocol.RecordsOfRecordBytes | src/ats_fcgi_client.cc:324-327 | The reference parser of section 3.3 reads a written record, with its content and whatever padding, and goes on behind it. |
| FcgiStream.FeedSplit | src/ats_fcgi_client.cc:424-442 | Feeding bytes to the decoder is a fold: from every state, feeding a then b is feeding a + b, until a record ends the response. |
| FcgiStream.FeedWholeHeader | src/ats_fcgi_client.cc:428-434 | Header bytes collected over any number of feedings open the body of the header they spell. |
| FcgiStream.FeedWholeBody | src/ats_fcgi_client.cc:379-422 | From any point of a record, the rest of content and padding completes it with exactly its content, and the bytes behind go to the next record. |
| FcgiResponse.FeedRefinesRecords | src/ats_fcgi_client.cc:519-612 | On every byte sequence the incremental decoder hands on exactly the reference parser's records, up to and with the first END_REQUEST or STDERR, less a bare header at the very end; and says that the response ended exactly when there is one. |
| FcgiResponse.RenderOneIs | src/ats_fcgi_client.cc:533-607 | One record's text: the status text if it is the first, then the content of a record of type 6, or for one of type 7 the bytes of "HTTP/1.0 500 Server Error" with its empty line and then the content; types 3 and 7 end the response. |
| FcgiResponse.RenderIsMeant | src/ats_fcgi_client.cc:533-607 | For every list of records, the text up to the first of type 3 or 7 is the status text of the first, the contents of those of type 6 before that place in order, and if a record of type 7 stands there the error response and its content. |
| FcgiResponse.HeaderBlockMeans | src/ats_fcgi_client.cc:534-540 | The status text is made from the first record's content up to and with its first empty line, or from nothing if there is none. |
| FcgiResponse.ResponseText | src/ats_fcgi_client.cc:519-618 | However a response is cut into chunks, its whole text, STDERR included, is the one just said, from the reference parser's records; and its end is reported if and only if there is a record of type 3 or 7. |
| FcgiResponse.RenderConcat | src/ats_fcgi_client.cc:522-607 | The text of records handed on in two lots is the text of all of them; only the first lot has a status line. |
| FcgiResponse.StepFeeds | src/ats_fcgi_client.cc:379-442 | One pass over a record does what feeding its bytes one by one does, unless the padding skip leaves the chunk. |
| FcgiResponse.CallSteps | src/ats_fcgi_client.cc:519-612 | A call is a succession of passes until the chunk is used up, the response ends, or a skip leaves the chunk. |
| FcgiResponse.CallViewSteps | src/ats_fcgi_client.cc:519-612 | The same with the text produced and the first-record flag. |
| FcgiResponse.TwoChunks | src/ats_fcgi_client.cc:387-390 | For non-empty chunks a and b, the call on a asking for more: two calls leave the records, state and result of one call on a + b if and only if the padding open behind a fits into b. |
| FcgiResponse.ChunksAreFeeding | src/ats_fcgi_client.cc:519-618 | Any list of chunks none of which is shorter than the padding open before it gives the records, final state and result of the joined bytes. |
| FcgiResponse.ChunkingDoesNotMatter | src/ats_fcgi_client.cc:519-618 | Two such ways of cutting the same bytes cannot be told apart. |
| FcgiResponse.ResponseRefinesRecords | src/ats_fcgi_client.cc:519-618 | A whole response in chunks is rendered as the reference parser's records up to the terminal one; it is reported finished if and only if there is one. |
| FcgiResponse.NoPaddingAlwaysFits | src/ats_fcgi_client.cc:379-422 | A stream whose records have no padding can be cut anywhere. |
| FcgiResponse.PaddingCutFails | src/ats_fcgi_client.cc:387-390 | Every cut inside the padding of a record with content, with too short a second chunk, runs past that chunk or ends the response before its bytes are there. |
| FcgiResponse.TransferIsFeeding | src/server.cc:11-44 | For every list of buffer blocks, none shorter than the padding open before it, the transfer loop reports what the joined blocks say if and only if the end of the response, should a block before the last bring it, is brought again by the last. |
| FcgiResponse.TransferHandsOn | src/server.cc:23-44 | The loop hands on the records of the response up to its end, then all records it finds in the blocks behind it, starting over; and is left in the state these leave. |
| FcgiResponse.TransferRenders | src/server.cc:39-43 | The client is sent the response's text and the text of the records behind its end; nothing more exactly if those have none. |
| FcgiResponse.TransferLosesTheEnd | src/server.cc:23-44 | One failing family: the end of a response is not reported when a last block shorter than a header follows the block that brings it. |
| FcgiResponse.FinishedIsFresh | src/ats_fcgi_client.cc:526-530 | Behind a record that ended the response the decoder starts over. |
| FcgiDecoder.FCGIRecordList.constructor | src/ats_fcgi_client.h:58-64 | A new record waits for its first header byte. |
| FcgiDecoder.ResponseDecoder.constructor | src/ats_fcgi_client.cc:44-51 | A new decoder stands at the start of a stream with the status line still to come. |
| FcgiDecoder.ResponseDecoder.ProcessHeader | src/ats_fcgi_client.cc:329-377 | One byte extends the header received so far; the eighth makes the header those eight bytes spell; past the header nothing is taken or changed. |
| FcgiDecoder.ResponseDecoder.ProcessContent | src/ats_fcgi_client.cc:379-422 | The position and record move as one pass of the machine over content and padding, at the same byte, with the same content. |
| FcgiDecoder.ResponseDecoder.ProcessRecord | src/ats_fcgi_client.cc:424-442 | From any state the pass stops with the record, position and state the machine stops with. |
| FcgiDecoder.ResponseDecoder.HandOn | src/ats_fcgi_client.cc:532-607 | A complete record adds its text, the first one behind the status line, and the response ends exactly with a terminal record; RenderOneIs says the text byte by byte. |
| FcgiDecoder.ResponseDecoder.DecodeNext | src/ats_fcgi_client.cc:525-611 | One round of the loop is one pass, with its text, answer and position. |
| FcgiDecoder.ResponseDecoder.DecodeRecordChunk | src/ats_fcgi_client.cc:519-618 | The call's result, the text so far and the decoder's state are those of the machine on this chunk; the chunk theorems therefore hold of the class. |
| FcgiDecoder.DecodeResponse | src/ats_fcgi_client.cc:519-618 | A new decoder, called on the chunks one after the other, produces exactly this text and reports this end. |
| FcgiRequest.ParamRoundTrip | src/ats_fcgi_client.cc:277-307 | The section 3.4 reader finds a serialized name and value, in all four combinations of short and long lengths, and stops behind them. |
| FcgiRequest.ParamsRoundTrip | src/ats_fcgi_client.cc:230-233 | A serialized parameter list is read back as itself if and only if every name and value is shorter than 2^31 bytes. |
| FcgiRequest.ParamsBytesInjective | src/ats_fcgi_client.cc:277-307 | Two such lists with the same bytes are the same. |
| FcgiRequest.RequestRoundTrip | src/ats_fcgi_client.cc:171-262 | The reference parser finds exactly the intended records in a whole request if and only if parameters and body chunks fit the two length bytes. |
| FcgiRequest.RequestDecodes | src/ats_fcgi_client.cc:424-442 | This client's own decoder hands on every record of such a request but the closing empty one, and asks for more. |
| FcgiRequest.RequestWellFormed | src/ats_fcgi_client.cc:171-262 | What is written is a well-formed FastCGI request (both streams closed once, at their end) if and only if a POST body comes in one chunk and any other request has none. |
| FcgiWire.RecordsAreFrames | src/ats_fcgi_client.cc:323-327 | On any bytes, a parser by the byte positions of section 3.3 finds the same records as the reference parser: version, type, request id (high byte first), content, and what is left over. |
| FcgiWire.RequestOnWire | src/ats_fcgi_client.cc:188-262 | By those positions a request is exactly: a record of type 1 with the bytes 0 1 1 0 0 0 0 0, the parameters in one of type 4, an empty one of type 4, for each piece of the body one of type 5 and an empty one, and one more empty one unless the method is POST; all with version 1 and the low 16 bits of the request id, and nothing behind them; if and only if parameters and pieces fit a record. |
| FcgiWire.BackendReads | src/ats_fcgi_client.cc:198-307 | A backend that reads by sections 3.3, 3.4 and 5.1 gets the request id, role 1, the connection to be kept, the parameters and the body, in whatever pieces it was written. |
| FcgiWire.ParamOnWire | src/ats_fcgi_client.cc:277-307 | A parameter is its two lengths, in one byte or in four with the high byte first, its name and its value. |
| FcgiWire.LengthsAreRead | src/ats_fcgi_client.cc:277-303 | The section 3.4 reader takes lengths in that form, whatever follows. |
| FcgiEncoder.RequestEncoder.constructor | src/ats_fcgi_client.cc:44-87 | The buffer has 5000 bytes, and for a POST as many more as announced. |
| FcgiEncoder.RequestEncoder.SerializeNameValue | src/ats_fcgi_client.cc:277-307 | Exactly the bytes of the pair are written at the place given, nothing else changes, and their number is returned. |
| FcgiEncoder.RequestEncoder.SizeParams | src/ats_fcgi_client.cc:217-222 | The sizing pass returns the length of all pairs and writes only into bytes that the second pass will cover. |
| FcgiEncoder.RequestEncoder.AppendParams | src/ats_fcgi_client.cc:230-233 | The second pass writes all pairs one after the other and moves on by their length. |
| FcgiEncoder.RequestEncoder.CreateBeginRequest | src/ats_fcgi_client.cc:198-240 | The buffer holds the three records, none of the scratch bytes is left, the PARAMS length is that of the pairs, and the position has moved by 32 plus that length. |
| FcgiEncoder.RequestEncoder.PostBodyChunk | src/ats_fcgi_client.cc:242-262 | From the start of the buffer stand the chunk's record and an empty one. |
| FcgiEncoder.RequestEncoder.EmptyParam | src/ats_fcgi_client.cc:171-186 | The closing record, unless the method is POST. |
| FcgiEncoder.RequestEncoder.AddClientRequest | src/ats_fcgi_client.cc:264-269 | What is handed out is what was written since the buffer was last started. |
| FcgiEncoder.RequestFits | src/ats_fcgi_client.cc:77-84 | The allocated buffer holds a request if and only if the parameters leave 32 bytes of it free and each chunk 16; for a POST whose chunks stay within the announced length the parameters alone decide. |
| FcgiEncoder.WriteRequest | src/server.cc:259-321 | Header, body chunks and completion together hand out the bytes of the request. |
| SchedulerInvariants.StepKeeps | src/server.cc:47-146 | Every event keeps: the pool is the disjoint union of free and mapped connections, without duplicates and within its limit; free ones are ready, carry no id and may serve more; map entries carry their id on both sides; every submitted intercept is in exactly one place. |
| SchedulerInvariants.EveryRun | src/server.cc:47-146 | All this holds after every run of events. |
| SchedulerInvariants.MapInjective | src/server.cc:343-371 | No intercept and no connection is entered under two ids. |
| SchedulerInvariants.StepReissuesNothing | src/server.h:15-27 | No event brings back an id that was handed out and is no longer in use. |
| SchedulerInvariants.NeverReissued | src/server.h:15-27 | Nor does any run. |
| SchedulerInvariants.SecondRemovalIsNoOp | src/server.cc:224-256 | Removing an intercept again, at once or after any further events, changes nothing. |
| SchedulerEvents.NewConnection | src/connection_pool.cc:42-46 | Below its limit the pool makes a connection for a newcomer, though free ones may be there; the whole state behind it, field by field. |
| SchedulerEvents.FreeConnection | src/connection_pool.cc:33-40 | At its limit the connection that has been free for longest is taken, is in use, and has counted one more request. |
| SchedulerEvents.NewcomerWaitsOrIsDropped | src/request_queue.cc:19-54 | At a pool at its limit without a free connection, a newcomer goes to the end of the queue if and only if that holds fewer than it may, and is dropped if and only if it holds as many; nothing else changes. |
| SchedulerEvents.FirstOnesWait | src/request_queue.cc:19-54 | Of any number of requests that arrive there, exactly the first ones that fit the places left wait, in their order, and all others are dropped. |
| SchedulerEvents.WithoutIs | src/connection_pool.cc:67-73 | A connection taken out of a list leaves the others in their order. |
| SchedulerEvents.RequestLeaves | src/server.cc:224-246 | A response completed or a request aborted while nobody waits: the connection is the last free one, without id, with its count; if it has counted as many requests as it may it leaves the pool instead; an unknown id changes nothing. |
| SchedulerEvents.FirstWaitingIsServed | src/server.cc:236-251 | While others wait, the first of them is served at once: on the connection free for longest, counting the one just freed, if the pool is at its limit and that one can go on, and on a new one otherwise; the free list, the pool and the queue behind it. |
| SchedulerEvents.ConnectionIsThere | src/server.cc:58-67 | NET_CONNECT puts the connection to use for its request and counts it, or makes it ready if the request is gone. |
| SchedulerEvents.RequestIsSent | src/server_connection.cc:55-91 | Only the flag of the connection changes. |
| SchedulerEvents.BrokenConnection | src/server.cc:113-146 | A connection that breaks behind its request, fails with an error, or has none: it and its entry are gone, the request failed, the lists keep their order, and nobody moves up. |
| SchedulerEvents.MovedRequest | src/server.cc:69-77 | A connection that fails before its request is sent: the request is connected anew while the old connection still counts, on a new one below the limit, on the one free for longest at it, or it waits last of all, or is dropped if the queue is full; and the old connection is gone. |
| SchedulerOrder.FirstInQueueStarts | src/server.cc:236-251 | A removal while others wait starts exactly the first of them: it always gets a connection and never goes back to the queue. |
| SchedulerOrder.RegularRunsKeepOrder | src/server.cc:224-257 | In every run without broken connections, those started followed by those waiting are the accepted ones in order, and while some wait the pool is at its limit without a free connection. |
| SchedulerOrder.NewcomerStarts | src/server.cc:323-340 | A newcomer is started at once if and only if the pool is not saturated, whoever waits. |
| SchedulerOrder.BrokenConnectionLetsOvertake | src/server.cc:113-132 | When a connection breaks after its request was sent, the next newcomer overtakes all who wait. |
| SchedulerOrder.StepWithinLimit | src/server_connection.cc:130-154 | With a limit of at least one, no event but an early abort lets a connection serve more requests than the limit. |
| SchedulerOrder.RunsWithinLimit | src/server_connection.cc:130-154 | Nor does any run without early aborts. |
| SchedulerOrder.MovedRequestIsDropped | src/server.cc:342-353 | A request that moves is dropped if and only if the pool is at its limit without a free connection and the queue holds as many as it may, queued last if and only if it holds fewer, and started otherwise. |
| SchedulerOrder.EarlyAbortCountsTwice | src/server.cc:58-67 | With a limit of one: after an early abort, the next request on the connection counts twice once its NET_CONNECT comes. |
| SchedulerService.StepFits | src/server_connection.cc:130-141 | With all counters within the limit, an event takes one beyond it if and only if it is the NET_CONNECT of a connection that carries a request and has counted all it may. |
| SchedulerService.RunsFit | src/server_connection.cc:130-141 | Throughout a run all counters stay within the limit if and only if no event of the run is of that kind. |
| SchedulerService.StepServes | src/server.cc:236-246 | Every event keeps: a connection has served no more distinct intercepts than its limit and than it has counted, and the one it carries is among them or it has served none. |
| SchedulerService.ServiceWithinLimit | src/server.cc:239-246 | In every run, with early aborts or without, a connection serves no more distinct intercepts than its limit (one, if that is zero) and than it has counted. |
| Scheduler.ServerConnection.CreateFCGIClient | src/server_connection.cc:130-141 | A ready or complete connection is in use and has counted one more request; any other is unchanged. |
| Scheduler.ServerConnection.ReleaseFCGIClient | src/server_connection.cc:143-154 | A complete connection is ready again; any other is unchanged. |
| Scheduler.RequestQueue.AddToQueue | src/request_queue.cc:44-54 | The intercept goes to the end if fewer wait than may, and is dropped without a word otherwise. |
| Scheduler.RequestQueue.PopFromQueue | src/request_queue.cc:56-67 | The first in the queue leaves it, if there is one. |
| Scheduler.ConnectionPool.GetAvailableConnection | src/connection_pool.cc:29-48 | At the limit the first free connection is taken and made ready; below it a new one joins the pool; otherwise nothing changes. |
| Scheduler.ConnectionPool.ReuseConnection | src/connection_pool.cc:56-65 | The connection is ready and last in the free list. |
| Scheduler.ConnectionPool.ConnectionClosed | src/connection_pool.cc:67-73 | The connection is in neither list any more. |
| Scheduler.Server.GetNext | src/server.h:15-27 | The counter's value is returned and the counter moves on in 32 bits. |
| Scheduler.Server.InitiateBackendConnection | src/server.cc:355-378 | All objects are in the state specified: new id on both sides, entry in the map, connection started. |
| Scheduler.Server.Connect | src/server.cc:323-340 | All objects are in the state specified for a connection found, made, or not to be had. |
| Scheduler.Server.ConnectionClosed | src/server.cc:380-392 | All objects are in the state specified for a connection that goes. |
| Scheduler.Server.RemoveIntercept | src/server.cc:224-257 | All objects are in the state specified for a removal with the queue looked at. |
| Scheduler.Server.ReConnect | src/server.cc:342-353 | All objects are in the state specified for a request that moves. |
| Scheduler.Server.OnSubmit | src/server.cc:323-340 | The event is the step specified, and the invariants hold behind it. |
| Scheduler.Server.OnNetConnect | src/server.cc:58-67 | The event is the step specified, and the invariants hold behind it. |
| Scheduler.Server.OnConnectFailed | src/server.cc:69-77 | The event is the step specified, and the invariants hold behind it. |
| Scheduler.Server.OnRequestWritten | src/server_connection.cc:55-91 | The event is the step specified, and the invariants hold behind it. |
| Scheduler.Server.OnResponseDone | src/server.cc:79-96 | The event is the step specified, and the invariants hold behind it. |
| Scheduler.Server.OnAbort | src/server_intercept.cc:25-35 | The event is the step specified, and the invariants hold behind it. |
| Scheduler.Server.OnEos | src/server.cc:110-133 | The event is the step specified, and the invariants hold behind it. |
| Scheduler.Server.OnError | src/server.cc:135-146 | The event is the step specified, and the invariants hold behind it. |
| SchedulerThreads.ActKeeps | src/server.cc:224-392 | Each section of a thread's work, wherever it stands in an event, keeps its pool, free list, ids, partition and places of intercepts, with the connection in hand accounted for. |
| SchedulerThreads.BeginKeeps | src/server.cc:47-146 | So does taking up any event. |
| SchedulerThreads.AtRest | src/connection_pool.cc:29-73 | Between events each connection is free or serves a mapped intercept, never both, and no intercept is in limbo. |
| SchedulerMachine.ActIsLocal | src/server.cc:343-367 | A section does to the shared map what it would do to the thread's own part of it, and leaves the parts of all other threads as they are. |
| SchedulerMachine.GoKeeps | src/server.cc:224-392 | A section of one thread keeps what all threads keep, at whatever point the others are. |
| SchedulerMachine.StartKeeps | src/server.cc:47-146 | So does an event taken up by one thread. |
| SchedulerMachine.EveryInterleaving | src/server.cc:355-378 | Every interleaving of any number of threads, in which the events of a connection and of its intercept come to the thread that made the connection, keeps every thread's invariants, the counter above all ids, and no object with two threads. |
| SchedulerMachine.AbortElsewhere | src/server.cc:224-235 | An abort taken up by any thread: looking up the id keeps what all threads keep if and only if the id is not in the map or that thread drew it. |
| SchedulerMachine.MapIsInjective | src/server.cc:343-371 | At every point of every interleaving no intercept and no connection is entered under two ids. |
| SchedulerMachine.NeverReissued | src/server.h:15-27 | An id that was drawn and is gone stays gone, however the threads interleave; a later removal finds nothing. |
| SchedulerMachine.Isolation | src/server.cc:355-392 | A move of one thread changes nothing another thread can see but the counter. |
| SchedulerMachine.ThreadAtRest | src/connection_pool.cc:29-73 | Whenever a thread is between events, its pool is the disjoint union of its free list and its entries in the shared map, and within its limit. |
| SchedulerSections.ConnectAlone | src/server.cc:323-378 | The sections of connect, worked off, do what the one-step connect does. |
| SchedulerSections.RemoveAlone | src/server.cc:224-257 | The same for removeIntercept with the queue. |
| SchedulerSections.ReconnectAlone | src/server.cc:69-77 | The same for reConnect with the closing behind it. |
| SchedulerSections.Alone | src/server.cc:47-146 | Every event, worked off section by section without interruption, ends between events in the state of the one-step machine, with the same lists of accepted and started intercepts and the same finished, failed and dropped ones. |
| SchedulerReduction.SettledActs | src/server.cc:355-392 | Once its id is drawn, the rest of an event does not depend on where others move the counter. |
| SchedulerReduction.CounterMoves | src/server.cc:355-367 | At whatever point of an event a thread stands, the counter moved on by others does not change where the event will end, but for the id still to be drawn. |
| SchedulerReduction.InterleavingAddsNothing | src/server.cc:47-392 | In every interleaving of any number of threads, each thread that is between events stands where a run of the one-step machine stands that skips the ids drawn by others, with the same lists of accepted and started intercepts; the run's events are the events the thread took up, in their order, and each was possible when it came. |
| SchedulerThreadOrder.StartedAreEntered | src/server.cc:364-367 | A thread's list of started intercepts is what its insertions into the shared map put there, move by move. |
| SchedulerThreadOrder.AcceptedInOrder | src/server.cc:323-340 | In every interleaving, a thread's accepted requests are those submitted to it by its events, in that order, without those dropped on arrival. |
| SchedulerThreadOrder.NobodyIsOvertaken | src/server.cc:224-257 | In every interleaving, for a thread whose connections do not break: the requests its moves enter in the map, in order, followed by its queue, are its accepted requests in order; and while some wait its pool is at the limit without a free connection. |
| SchedulerThreadOrder.FirstOnesWaitInThreads | src/request_queue.cc:19-54 | In every interleaving, while all of a thread's connections stay in use, exactly the first of the requests submitted to it wait, as many as fit its queue, in their order, and all later ones are dropped. |
| ConfigUtf8.HexMeans | src/configuru.hpp:3225-3245 | Reading succeeds if and only if as many hexadecimal digits as asked for stand at the front, and gives the number they write by positions. |
| ConfigUtf8.SurrogatesCombine | src/configuru.hpp:3191-3203 | The formula inverts the splitting of RFC 2781 for every code point beyond 0xFFFF and hits every surrogate pair. |
| ConfigUtf8.Utf8RoundTrip | src/configuru.hpp:2183-2229 | For every number up to 31 bits, a decoder in the style of section 3 of RFC 3629 finds it again if and only if it is not of the five-byte form with bit 24 set. |
| ConfigNumbers.CompareMeans | src/configuru.hpp:3049-3059 | The first difference of two digit strings of one length decides as their values do. |
| ConfigNumbers.FitsByDigits | src/configuru.hpp:3032-3061 | Length and comparison together decide whether the value lies in 64 bits, for both signs. |
| ConfigNumbers.IntLiteral | src/configuru.hpp:2987-3062 | A decimal literal without superfluous zeros, fraction or exponent becomes an integer of its value if and only if that lies in [-2^63, 2^63-1], and a float otherwise. |
| ConfigNumbers.LeadingZeros | src/configuru.hpp:2968-3062 | A literal of two or more digits beginning with zero, with any sign the options allow and whatever follows the digits, is refused if and only if it has no sign, no fraction and no exponent, at most 19 digits, and its value is not zero. |
| ConfigNumbers.IntRoundTrip | src/configuru.hpp:3500-3503 | Every 64-bit integer the writer prints is read back as itself, whatever may follow it. |
| ConfigStrings.CharReads | src/configuru.hpp:3788-3812 | Every character, escaped or not, is read back as itself, and NUL is refused. |
| ConfigStrings.QuotedRoundTrip | src/configuru.hpp:3769-3815 | A quoted string is read back as itself, up to just behind it, if it holds no NUL, and refused otherwise. |
| ConfigStrings.VerbatimRoundTrip | src/configuru.hpp:3817-3823 | The same for triple-quoted strings without three quotes in a row, also if they begin or end with quotes. |
| ConfigStrings.StringRoundTrip | src/configuru.hpp:3729-3740 | Whichever form the writer chooses. |
| ConfigStrings.BareKeyReserved | src/configuru.hpp:2445-2456 | A bare key is taken for a reserved word if and only if it is one. |
| ConfigStrings.KeyRoundTrip | src/configuru.hpp:3642-3650 | A key is read back if and only if it holds no NUL and is not a reserved word written bare. |
| ConfigRoundTrip.SkipRun | src/configuru.hpp:2519-2630 | White space, with either form of newline, is skipped as a whole, whatever the indentation. |
| ConfigRoundTrip.ItemsRead | src/configuru.hpp:2776-2845 | Array elements, behind those read already and in any of the writer's spacings, are read as themselves, or refused if one is unreadable. |
| ConfigRoundTrip.EntriesRead | src/configuru.hpp:2866-2966 | The same for object entries with their keys and order. |
| ConfigRoundTrip.CoreReads | src/configuru.hpp:3481-3580 | The text of any tree at any depth, whatever follows it, is read as that tree up to just behind it, if and only if it is readable. |
| ConfigRoundTrip.DumpRoundTrip | src/configuru.hpp:3857-3878 | For every tree and all options, the dumped text is parsed as the tree, to the end, if and only if it is readable; otherwise it is refused. |
| ConfigSpelling.EncodedIsUtf8 | src/configuru.hpp:2183-2229 | Every number of 31 bits is encoded in the bytes that section 3 of RFC 3629, or RFC 2279 for the longer forms, gives for it, if and only if it is not of the five-byte form with bit 24 set. |
| ConfigSpelling.SpelledStringReads | src/configuru.hpp:3130-3222 | Every spelling of a string, each character plain where allowed, as a two-character escape including `\/`, or as one or two `\u` escapes with digits of either case, is read as that string and nothing more, whatever follows. |
| ConfigSpelling.ReadExactlyIfSpelled | src/configuru.hpp:3130-3222 | A quoted text is read as a string if and only if it is a spelling of that string: no other escape or character passes, and none passes as anything else. |
| ConfigSpelling.LongEscape | src/configuru.hpp:3207-3213 | Where allowed, `\U` and eight digits of either case give the bytes of any number of 31 bits, and an error behind the digits for a larger one. |
| ConfigDocuments.NumeralReads | src/configuru.hpp:2968-3062 | Every number of section 6 of RFC 8259 is read to its end: an integer of its value if it has neither fraction nor exponent and 64 bits hold it, a float with its literal otherwise. |
| ConfigDocuments.DocReads | src/configuru.hpp:2695-2966 | Every JSON value, however deep and with any white space around its parts, is read as the tree it means, up to just behind it. |
| ConfigDocuments.JsonTextReads | src/configuru.hpp:2637-2966 | Every JSON text is parsed to its end as the tree it means. |
| ConfigErrors.PlaceMeans | src/configuru.hpp:2342-2345 | The line of an error is one more than the newlines in front of it, its column one more than the characters on its line. |
| ConfigErrors.ErrorKeepsItsPlace | src/configuru.hpp:2757-2864 | What goes wrong in a value is reported at the same place however deep the value is nested, behind whatever elements, members, keys and white space. |
| ConfigErrors.StringWithoutEnd | src/configuru.hpp:3148-3151 | A string cut off by the end of the text or a NUL: its opening quote. |
| ConfigErrors.RawCharacter | src/configuru.hpp:3156-3161 | A newline in a string, or a tab where forbidden: that character. |
| ConfigErrors.UnknownEscape | src/configuru.hpp:3214-3216 | An escape that does not exist: the character behind the backslash. |
| ConfigErrors.MissingDigit | src/configuru.hpp:3229-3240 | A `\u` that lacks a digit: the character behind the u. |
| ConfigErrors.NoValue | src/configuru.hpp:2706-2752 | No value where one should begin: the character there. |
| ConfigErrors.WrongWord | src/configuru.hpp:2708-2722 | A word that is none of the three: its first character. |
| ConfigErrors.ArrayWithoutEnd | src/configuru.hpp:2758-2774 | An array cut off by the end of the text: its bracket. |
| ConfigErrors.ObjectWithoutEnd | src/configuru.hpp:2847-2864 | An object: its brace. |
| ConfigErrors.MissingComma | src/configuru.hpp:2833-2842 | Two elements without a comma between them: the second. |
| ConfigErrors.MissingCommaInObject | src/configuru.hpp:2954-2963 | Two members without one: the second key. |
| ConfigErrors.TrailingComma | src/configuru.hpp:2833-2836 | A comma in front of the bracket on its line, where forbidden: the comma. |
| ConfigErrors.DuplicateKey | src/configuru.hpp:2917-2920 | A key that the object has already, in whatever spelling: the second one. |
| ConfigErrors.MissingColon | src/configuru.hpp:2922-2936 | A key without a colon: the character in its place. |
| ConfigErrors.NoComments | src/configuru.hpp:2539-2588 | A comment, or a carriage return alone, behind any white space: its first character. |
| ConfigErrors.BehindTheValue | src/configuru.hpp:2660-2669 | Something behind the value of a text: its first character. |
| ConfigErrors.NoText | src/configuru.hpp:2671-2681 | A text without a value: its end, or an empty object if the options say so. |
| ConfigOptions.EqualSign | src/configuru.hpp:2922-2936 | An equals sign stands for the colon if and only if the options say so, and is the place of the error otherwise. |
| ConfigOptions.SpaceBeforeColon | src/configuru.hpp:2922-2927 | White space in front of a colon is refused at the colon unless the options allow it. |
| ConfigOptions.ObjectWithoutColon | src/configuru.hpp:2928-2936 | The colon may be missing in front of an object if and only if the options say so. |
| ConfigOptions.BareKey | src/configuru.hpp:2904-2914 | A bare identifier is a key if and only if the options say so and it is none of the three reserved words. |
| ConfigOptions.KeyComesAgain | src/configuru.hpp:2945-2946 | Where keys may come again, the first value stays. |
| ConfigOptions.PlusSign | src/configuru.hpp:2987-3062 | A plus sign in front of any number is refused where it stands unless the options allow it; then it does not change an integer and stays with the literal of a float. |
| ConfigOptions.ThreeQuotes | src/configuru.hpp:3105-3107 | Three quotes are refused where they stand unless the options allow them. |
| ConfigOptions.SeveralValues | src/configuru.hpp:2660-2692 | Several values in one text are an array if the options say so; otherwise the error is at its end. |
| ConfigColumns.ObjectLines | src/configuru.hpp:3608-3637 | A pretty object is a brace, a line for each entry, and a brace as far in as the object began: every line has the indentation, the key, what stands between, the value, and a comma unless it is the last or commas are left out. |
| ConfigColumns.ValuesAreAligned | src/configuru.hpp:3590-3624 | Where values are aligned, in every object: the values of entries with a colon whose keys are printed with the same overhead start in the same column of their lines; between colon and value stand blanks only; and behind a longest key exactly one. |
| ConfigColumns.ArrayForms | src/configuru.hpp:3508-3551 | The four forms of an array (empty, compact, on one line, on a line for each element), with the limits of 16 numbers, four elements and 60 characters. |
| ConfigColumns.CompactObject | src/configuru.hpp:3552-3568 | A compact object is its keys and values with colons and commas and nothing else. |
| ConfigColumns.DumpEnds | src/configuru.hpp:3885-3889 | A dump ends with a newline if and only if the options ask for one and the layout is not compact. |
| ConfigColumns.CharacterForms | src/configuru.hpp:3788-3812 | How every single byte is written between quotes. |
| ConfigColumns.StringForms | src/configuru.hpp:3729-3740 | A string stands between triple quotes if and only if the options allow it, it has a newline and at least 240 characters, and holds no three quotes. |
| ConfigColumns.KeyForms | src/configuru.hpp:3642-3650 | A key stands bare if and only if the options allow it and it is an identifier. |
| ConfigReader.OneBlank | src/configuru.hpp:2549-2572 | Taking a whole indentation at once comes to the same as taking its characters one by one. |
| ConfigReader.ReadersAgree | src/configuru.hpp:2637-2966 | On every text, options that differ in layout only give the same value or the same error at the same place. |
| ConfigMeaning.LayoutHasNoMeaning | src/configuru.hpp:3508-3637 | A tree dumped in one layout is read back with the options of any other. |
| ConfigMeaning.TextIsReproduced | src/configuru.hpp:3582-3640 | Dumping what was parsed reproduces the text, and different trees have different texts. |
| ConfigMeaning.JsonRoundTrip | src/configuru.hpp:1248-1300 | The JSON dump in any indentation, or compact, is read by the JSON reader as the same tree with the same key order if and only if no string or key holds a NUL. |
| ConfigMeaning.DumpAndParse | src/configuru.hpp:3857-3878 | The writer's and the parser's loops, run one after the other, give the tree back or report an error, as just said. |
| ConfigMeaning.UnicodeEscapeReads | src/configuru.hpp:3181-3206 | The escape of every code point (section 7 of RFC 8259) is read as bytes that decode to it. |
| ConfigMeaning.LoneSurrogate | src/configuru.hpp:3193-3202 | A high surrogate is accepted if and only if the escape of a low one follows. |
| ConfigMeaning.TrailingCommaInArray | src/configuru.hpp:2822-2840 | An array of any length in any of the writer's layouts, with a comma behind its last element: read as if the comma were not there, or refused; refused if and only if it holds something unreadable, or the options forbid the comma and no white space follows the first newline (if any) between comma and bracket. |
| ConfigMeaning.TrailingCommaInObject | src/configuru.hpp:2943-2962 | The same for objects with any number of entries. |
| ConfigObject.OneListing | src/configuru.hpp:3602-3606 | The order of writing is determined if and only if no number occurs twice. |
| ConfigObject.EmplaceKeepsOrder | src/configuru.hpp:1879-1884 | The parser's insertions number entries so that they can be listed in the order of their arrival and in no other; a key that is there already keeps its value. |
| ConfigObject.EraseThenInsert | src/configuru.hpp:1886-1911 | After erasing any entry of an object as parsed and inserting another, by either way of inserting, the numbers are distinct if and only if the erased entry was the last. |
| ConfigObject.ErasedOrderIsOpen | src/configuru.hpp:3602-3606 | Then the entries can be listed in more than one order of numbers if and only if it was not the last. |
| ConfigParser.LineOfCounts | src/configuru.hpp:2530-2548 | The line number is one more than the newlines in front of the position. |
| ConfigParser.LineStartMeans | src/configuru.hpp:2530-2548 | The start of the line is just behind the last newline. |
| ConfigParser.AppendUtf8 | src/configuru.hpp:2183-2229 | The bytes specified are appended and their number is returned; none for a number beyond 31 bits. |
| ConfigParser.Parser.SkipWhite | src/configuru.hpp:2519-2630 | Result and position are as specified; on success and error alike line number and line start are those of the position. |
| ConfigParser.Parser.SetState | src/configuru.hpp:2333-2339 | A saved state is restored with its line. |
| ConfigParser.Parser.ParseHex | src/configuru.hpp:3225-3245 | The number the digits write, or an error in front of them. |
| ConfigParser.Parser.ParseEscape | src/configuru.hpp:3152-3215 | The string is extended by what the escape means, or the error is where specified; SpelledStringReads and UnknownEscape say what that is. |
| ConfigParser.Parser.ParseMultiline | src/configuru.hpp:3104-3129 | The triple-quoted string as specified, lines counted, an unterminated one reported at its start. |
| ConfigParser.Parser.ParseQuoted | src/configuru.hpp:3130-3222 | The quoted string as specified, character by character, though the loop takes safe stretches at once. |
| ConfigParser.Parser.ParseString | src/configuru.hpp:3095-3223 | Either form as specified. |
| ConfigParser.Parser.ParseFiniteNumber | src/configuru.hpp:2987-3062 | The integer or float specified, with the pointer back in front of the sign before the digits are read. |
| ConfigParser.Parser.ParseArrayContents | src/configuru.hpp:2776-2845 | The elements specified; each round consumes text, so the loop ends. |
| ConfigParser.Parser.ParseObjectContents | src/configuru.hpp:2866-2966 | The entries specified, in order, duplicates reported at the second key. |
| ConfigParser.Parser.ParseValue | src/configuru.hpp:2695-2755 | The value specified, and whether white space followed it on its line. |
| ConfigParser.Parser.TopLevel | src/configuru.hpp:2637-2693 | The value of a whole text as specified. |
| ConfigParser.Parse | src/configuru.hpp:3310-3322 | Every text gives the value specified, or an error with the line and column of the place specified; and parsing ends. |
| ConfigWriter.Writer.WriteQuotedString | src/configuru.hpp:3769-3815 | The loop over safe stretches and escapes appends the quoted text, character by character as specified. |
| ConfigWriter.Writer.WriteKey | src/configuru.hpp:3642-3650 | Bare, quoted or triple-quoted as specified. |
| ConfigWriter.Writer.IsSimpleArray | src/configuru.hpp:3825-3873 | The two loops decide as specified whether an array goes on one line. |
| ConfigWriter.Writer.WriteArray | src/configuru.hpp:3508-3552 | The text specified for an array in each of the three spacings is appended. |
| ConfigWriter.Writer.WriteObjectContents | src/configuru.hpp:3582-3640 | The text specified for the entries is appended; ValuesAreAligned says in which columns it puts the values. |
| ConfigWriter.Writer.WriteValue | src/configuru.hpp:3481-3580 | The text specified for a tree is appended and nothing else changes. |
| ConfigWriter.DumpString | src/configuru.hpp:3857-3878 | The whole text as specified. |

## Left out

- Traffic Server's API (VIOs, buffers, continuations, statistics, transactions, sockets): its calls appear as events and byte sequences.
- The MIME parsing of the first record (`src/ats_fcgi_client.cc:541-590`): any function from header block to status text takes its place.
- GenerateFcgiRequestHeaders (`src/ats_fcgi_client.cc:108-160`): the parameters are any list, in the order the map is walked.
- The configuration of the plugin (`src/fcgi_config.cc`): its limits are parameters.
- `src/Profiler.h`, plugin start-up, statistics and debug output: no property of interest.
- What happens behind an overrun: the decoder would read memory outside the chunk.
- A buffer too small for a request: the encoder's methods require that it fits, as the source does not check; RequestFits says when it does.
- FcgiResponse.TransferIsFeeding: blocks cut inside padding, for which one call has no defined result; and blocks without bytes are skipped by the loop and not listed.
- Content-Length not a number: the announced length is any number.
- Request ids beyond 16 bits: the header holds the low 16 bits, as in the source; two requests on one connection are not told apart by them.
- FcgiRequest.RequestWellFormed: chunks are non-empty and parameters are present, as the plugin calls it (`src/server.cc:28`).
- An intercept destroyed while it waits: its pointer stays in the queue, and a later removal starts it (`src/server.cc:248-251`); until a connection is found its request id is not initialised (`src/server_intercept.h:79`), so that its destructor removes any entry or none (`src/server_intercept.cc:25-35`). Intercepts live at least until they are started.
- Events of a connection whose object is already deleted: each connection gets one answer to its connect, and events only while it lives.
- What follows when the 32-bit id counter wraps: runs end before, though the counter itself is modelled in 32 bits.
- A thread without its thread-local data (`src/server.cc:327`, `339`): connect then does nothing and reports 1.
- Liveness of the scheduler: it depends on the network, and nobody looks at the queue after a failure.
- SchedulerMachine.EveryInterleaving: an abort and a written request come to the thread that made the connection, which the source does not enforce; AbortElsewhere says exactly what an abort on another thread does to the invariants, and a request written by another thread would set one flag of the connection.
- SchedulerSections.Alone: an uninterrupted event; interrupted ones are the subject of InterleavingAddsNothing.
- SchedulerReduction.InterleavingAddsNothing: a new connection object never has the address of one deleted before on that thread.
- Floating-point values: a float is carried as its literal, which the reader takes to its end; the number `strtod` makes of it and the printing of floats (`src/configuru.hpp:3652-3727`) are not modelled, and round trips are for trees without floats.
- Comments, `#include` macros, hexadecimal and binary integers, infinities and NaN, C# strings and bare top-level objects: their options are off in JSON, and they are refused as there.
- Enforced indentation and the counting of indentation levels: off in JSON.
- Sorting of keys (`src/configuru.hpp:3602-3604`): the default order is modelled.
- The bit operations of encode_utf8 are written as sums, which they are except in the five-byte form, where the OR is written out.
- Access flags, document tags, reference counting, deep_eq, error wording, file input and output, and the serialisation helpers of configuru.
- Memory release, and the mutexes around single accesses, which appear as the sections between which threads may interleave.
