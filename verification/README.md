# http_io, modelled and proved

http_io connects the HTTP parser and serializer of http_proto to Asio streams. Its own code is a
handful of resumable coroutines, and an example server and client built on them. This project
models that code step by step and proves what it promises: whatever the fragmentation of the
streams, whatever errors they report, and in whatever order completions, signals and timers race.

`dafny verify dfyconfig.toml` checks everything.

## How the model is built

- **Codes.dfy** - error codes, and a completion as a code with the bytes moved.
- **Parsing.dfy** - the contract of the parser (`Grammar.Lawful`) and the parser object. The parser
  belongs to http_proto, so it is a parameter: a verdict, a header flag and a decoded body, each a
  function of the bytes committed since `start` and of whether the end of the stream was committed.
  Every theorem holds for every grammar that meets the contract. **SampleGrammar.dfy** meets it.
- **ReadSteps.dfy**, **ReadLoops.dfy**, **ReadOps.dfy** - `read_header_op` and `read_body_op`: one
  resumption as a function, the plain loop as a function, the coroutine objects, and the loop that
  drives them.
- **Fragmentation.dfy**, **HeaderAlone.dfy** - what does and what does not depend on how bytes arrive.
- **WriteSteps.dfy**, **WriteLoops.dfy**, **WriteOps.dfy** - the serializer's contract,
  `write_some_op` and `write_op`, in the same three forms.
- **MimeTypes.dfy**, **Paths.dfy**, **Requests.dfy** - mime types, file paths, and the answer to a request.
- **Connections.dfy** - the history of one connection, what is owed to it, and why it may be given up.
- **WorkerModel.dfy**, **WorkerTheorems.dfy** - the worker as a state machine: each handler is a
  step, and composed operations stand wherever their coroutines are suspended.
- **ServerModel.dfy**, **Shutdown.dfy** - flags, waits and workers under an adversary that chooses
  which operation completes when and which queued handler runs next; theorems over every run.
- **ServerObjects.dfy** - the `server`, `acceptor` and `worker` objects; each of their methods does
  what the state machine says.
- **Signals.dfy** - exactly when the server begins to shut down and exactly when it stops.
- **Histories.dfy**, **WholeRuns.dfy** - what handlers do to connections, the history as what the
  environment did, and what whole runs do before and after shutdown begins.
- **EventLoop.dfy** - a program of these objects under any run: it ends in the state the run reaches,
  so the theorems over runs hold of the objects.
- **Client.dfy** - the example client: redirects, then the body as it arrives.

An operation is *in flight* (a cancellation aborts it) or *ready* (its completion, or a posted
continuation, is queued and nothing can cancel it). One `io_context` with one thread runs the
handlers, so each handler is one atomic step.

## Assumptions about the code outside this repository

- Parser: a decision (complete or malformed) and a known header stand whatever follows; the end of
  the stream always decides; a complete message is not empty, lies within the bytes and has a
  header; the decoded body only grows and is whole once the message is; `reset` drops everything;
  `start` needs a parser that was reset or holds a complete message, keeps only what lies beyond that
  message, and the end of the stream has then to be committed again.
- Read stream: success brings at least one byte, the end of the stream none, and after it no bytes
  come. How much room `prepare` gives is not fixed: it would only rule out some of the scripts
  that the theorems already cover.
- Serializer: a fixed byte sequence and a cursor; `prepare` offers a non-empty run at the cursor or
  fails, at the choice of an arbitrary oracle; `start` discards the old message, finished or not.
- Write stream: it accepts a prefix of what was offered, at least a byte on success, possibly
  together with an error.
- Only a cancellation makes an operation or a wait complete as aborted.
- What a request says, which files open and how a response is serialized are parameters (`Site`).

## Two things that are false, and when they hold

- *Reading a header does not depend on fragmentation* is false: a fault beyond the header surfaces
  early when it shares a read with the header (`SampleGrammar.HeaderAloneCanDiffer` gives two such reads).
  `HeaderAlone.HeaderIndependentIff` gives the exact condition on the bytes. The composition of
  header and body, as the server runs it, is independent without condition.
- *After `stop()` nothing is begun* is false: the acceptor is cancelled but not closed, so a worker
  with a completion queued carries on and accepts again. `Shutdown.StopCanFindOneQueued` gives a run
  from the start of a server to such a stop. `Shutdown.IssuesAfterStopIffQueued` gives the exact
  condition, per worker, and `Shutdown.DrainsIffNoneQueued` the exact condition for the loop to end.

## Model

| member | source | states |
|---|---|---|
| ReadOps.ReadHeaderOp.Resume | include/boost/http_io/impl/read.hpp:45-107 | one resumption leaves parser, saved point, count and effect as the step function says, and the first never completes the operation |
| ReadOps.ReadBodyOp.Resume | include/boost/http_io/impl/read.hpp:132-205 | the same for the body, including the parse after a posted continuation and the masking of need_more_input |
| ReadOps.AsyncReadHeader | include/boost/http_io/impl/read.hpp:218-230 | initiating a header read suspends it: it is posted or reading, never complete inside the call |
| ReadOps.AsyncReadBody | include/boost/http_io/impl/read.hpp:238-278 | the logic error is thrown exactly when no header was read, and then nothing changed; otherwise the read is suspended |
| ReadOps.DriveHeader | include/boost/http_io/impl/read.hpp:52-106 | over every script, resuming from saved points gives the parser calls, code and count of the plain loop |
| ReadOps.DriveBody | include/boost/http_io/impl/read.hpp:139-278 | the same for both body reads, initiated through the check that the header was read |
| ReadLoops.ReportedIsCommitted | include/boost/http_io/impl/read.hpp:81-103 | on every exit, an error delivered with bytes included, the reported count is what was committed, and those are the next bytes of the stream |
| ReadLoops.ReadsTerminate | include/boost/http_io/impl/read.hpp:70-200 | a read resumes at most once more than the bytes it takes, and completes over any stream of finitely many bytes |
| ReadLoops.ReadsStopRight | include/boost/http_io/impl/read.hpp:54-200 | a read stops at the first arrival that settles what it waits for, with that arrival's code; every read is preceded by prepare, a failed one is committed and not parsed; a header read of a known header takes nothing and touches nothing |
| ReadLoops.NothingEscapes | include/boost/http_io/impl/read.hpp:83-199 | need_more_input and eof never reach the caller; header success means the header is known, body success that the message is complete, so the header-first check is never tripped |
| Fragmentation.ReadMessageMeetsFate | include/boost/http_io/impl/read.hpp:70-200 | header-then-body ends, for every script, as an independent definition says: decided by the first arrival that fails or lets the bytes so far be judged |
| Fragmentation.FateAtEof | include/boost/http_io/impl/read.hpp:83-89 | over a stream that ends, that definition is the verdict on all bytes together |
| Fragmentation.FragmentationIndependence | example/server/main.cpp:436-477 | two ways of splitting the same bytes into reads end with the same first error or with the same message, which is the verdict on all bytes |
| Fragmentation.ReadSomeUntilDoneIsRead | include/boost/http_io/impl/read.hpp:162-203 | async_read_some repeated until done equals one async_read: parser, calls, error and summed count |
| HeaderAlone.HeaderIndependentIff | include/boost/http_io/impl/read.hpp:70-102 | a header read alone is independent of fragmentation exactly when no fault lies beyond an intact header in the stream |
| SampleGrammar.HeaderAloneCanDiffer | include/boost/http_io/impl/read.hpp:94-101 | a header followed by a bad body byte: read in one piece the header read ends with the syntax error, read in two it succeeds, though both streams deliver the same bytes and end |
| SampleGrammar.SampleIsLawful | include/boost/http_io/impl/read.hpp:186-192 | the parser contract can be met |
| WriteOps.WriteSomeOp.Resume | include/boost/http_io/impl/write.hpp:53-101 | one resumption of write_some_op, with and without the right to post |
| WriteOps.WriteAllOp.Resume | include/boost/http_io/impl/write.hpp:123-151 | the completion of the inner operation resumes write_op, which completes or starts another |
| WriteOps.AsyncWriteSome | include/boost/http_io/impl/write.hpp:46-84 | never completes inside the initiating call |
| WriteOps.AsyncWrite | include/boost/http_io/impl/write.hpp:259-274 | initiating starts the first inner operation and never completes inside the call |
| WriteOps.DriveWrite | include/boost/http_io/impl/write.hpp:130-150 | the nested objects give the serializer calls, code, count and bytes of the do-while loop, for every script |
| WriteOps.DriveWriteSome | include/boost/http_io/impl/write.hpp:48-100 | async_write_some resumed from its saved point gives the calls, code, count and bytes of one round |
| WriteOps.DriveCalls | include/boost/http_io/impl/write.hpp:48-150 | the objects of any sequence of calls on a message leave its first bytes at the destination, as many as the calls reported |
| WriteLoops.PrepareErrorEndsWrite | include/boost/http_io/impl/write.hpp:65-149 | over a whole async_write: it completes with a serializer error exactly when the last prepare was refused with it; no refusal is passed over or followed by another call, and none adds to the count |
| WriteLoops.FailureEndsWrite | include/boost/http_io/impl/write.hpp:132-146 | async_write never goes on after a write that failed |
| WriteLoops.WriteSomeIsOneRound | include/boost/http_io/impl/write.hpp:63-100 | async_write_some takes at most one answer, reports its code, consumes what it moved, and takes none if prepare fails |
| WriteLoops.WriteLoopEnds | include/boost/http_io/impl/write.hpp:132-149 | a successful async_write leaves the serializer done, a failed one reports the failure of its last round; it begins at least one round and takes at most one answered write for each byte left |
| WriteLoops.DestinationHoldsPrefix | include/boost/http_io/impl/write.hpp:95-146 | over any sequence of calls, partial writes, failing writes that moved bytes and prepare errors, the destination holds the first k serialized bytes, k the sum of the reported counts |
| Connections.SplitCuts | example/server/main.cpp:436-443 | parts are the split of a connection's bytes exactly when each is the one message that the stream holds beyond the parts before it and no message follows; so there is no other way to cut |
| WorkerTheorems.HandleKeeps | example/server/main.cpp:406-524 | every handler keeps a worker's whole invariant: one outstanding operation, socket closed only with nothing pending, parser started only when reset or complete, connection history in order |
| WorkerTheorems.CompletionKeeps | example/server/acceptor.hpp:84-91 | so do completions and both kinds of cancellation |
| WorkerTheorems.IssuesUnlessAborted | example/server/main.cpp:418-524 | a handler begins exactly one further operation unless it took an abort; then the worker ends silently |
| WorkerTheorems.CancelledUnlessQueued | example/server/main.cpp:376-381 | cancelling dooms a worker exactly when no completion other than an abort was queued |
| ServerModel.Next | example/server/server.cpp:46-106 | every event keeps the invariant of the server, whatever races |
| ServerModel.StartedInv | example/server/server.cpp:29-44 | the state in which the event loop is entered has the invariant: one signal wait armed and every worker with an accept in flight |
| Signals.FlagsChange | example/server/server.cpp:46-106 | the first signal begins shutdown and arms both waits without touching a worker; a later one stops, an expired timer stops, a failed wait changes nothing; nothing else changes either flag |
| Signals.ShutsDownAndStopsExactly | example/server/server.cpp:66-106 | over any run the server shuts down exactly when a signal was handled, and has stopped, once, exactly when two were handled or the timer expired and that was |
| Histories.AcceptDecides | example/server/main.cpp:418-434 | a worker begins to read exactly when its accept succeeded; after any other error than an abort it accepts again on a closed socket with nothing carried over |
| Histories.HandleEvolves | example/server/main.cpp:406-524 | a handler keeps its connection or gives it up for a new one, changes its facts only by what was heard, and begins at most one response: the handler's, or the 503 after shutdown began |
| WholeRuns.HistoryIsWhatHappened | example/server/main.cpp:406-524 | over any run, a worker's connections with their bytes both ways, ends and failures are what the completions given to it make up |
| WholeRuns.ReadsOnlyAfterAccept | example/server/main.cpp:418-443 | over any run, a worker reads or writes only if the latest accept it heard of succeeded |
| WholeRuns.BeforeShutdown | example/server/main.cpp:479-486 | over any run, before shutdown begins every response is the handler's answer to its request |
| WholeRuns.AfterShutdown | example/server/main.cpp:479-524 | from any moment at which shutdown has begun, each connection begins at most one further response, a 503 that closes, and at most two complete |
| WholeRuns.NoneEndsBeforeStop | example/server/main.cpp:406-524 | over any run, no worker ends before the stop body has run |
| Shutdown.EveryReachableState | example/server/server.cpp:29-106 | at most two on_signal, one on_timer and one stop body; stopped implies shutting down with no wait armed; operations begun less completions handled is one for a live worker and zero for an ended one |
| Shutdown.RequestsAndRepliesInOrder | example/server/main.cpp:406-524 | over a keep-alive connection of a server started with a grammar, the requests handed over are a prefix of that grammar's split of its own bytes, and all of it once a read was refused for what followed; each is answered in order, field by field as its request says, and the bytes sent are those answers, the last perhaps in part |
| Shutdown.GivenUpIffConcluded | example/server/main.cpp:406-524 | a connection is given up exactly for a reason: what followed was no message, a read or write failed, or its last response closes it; nothing follows a response that closes; the sending side is shut down exactly where a write met the end of the stream |
| Shutdown.FilesServedBelowRoot | example/server/main.cpp:243-279 | over any run, a response with a file answers a request whose target passed the check, and the file lies at or below the document root |
| Shutdown.AtMostOneLateResponse | example/server/main.cpp:479-524 | after shutdown began a connection begins at most one response, its last, a 503 that closes; at most two complete |
| Shutdown.StopDooms | example/server/acceptor.hpp:84-91 | the stop body dooms every worker but those with such a completion queued, which it leaves untouched |
| Shutdown.DoomedStays | example/server/server.cpp:46-106 | a doomed worker stays doomed and begins nothing, whatever happens next |
| Shutdown.IssuesAfterStopIffQueued | example/server/server.cpp:46-64 | a worker can begin an operation after the stop body exactly when a completion other than an abort was queued for it at that moment; any other worker begins nothing and only its abort is left to handle |
| Shutdown.StopCanFindOneQueued | example/server/server.cpp:46-91 | a run from the start of a server to a stop that finds a completion queued, after which that worker begins an operation |
| Shutdown.DrainRuns | example/server/server.cpp:46-106 | while draining every event is a handler and takes one piece of work away |
| Shutdown.WorkIsRunnable | example/server/server.cpp:43-43 | the loop cannot get stuck: while there is work some handler can run |
| Shutdown.StopDrains | example/server/server.cpp:46-106 | where no such completion was queued, at most N + 1 more handlers run for N workers, nothing is begun, and the loop stops exactly when nobody is alive |
| Shutdown.DrainsIffNoneQueued | example/server/server.cpp:46-106 | after the stop body the length of runs is bounded exactly when no such completion was queued, and then by N + 1 |
| ServerObjects.Worker.Stop | example/server/main.cpp:376-381 | aborts the worker's read or write if it is in flight, and nothing else |
| ServerObjects.Worker.OnError | example/server/main.cpp:452-458 | every handler's error path: an abort ends the worker, anything else drops the connection and accepts again |
| ServerObjects.Worker.Fail | example/server/main.cpp:384-404 | an abort changes nothing, the end of the stream half-closes the socket |
| ServerObjects.Worker.DoAccept | example/server/main.cpp:406-416 | runs only with nothing pending; closes, resets and accepts as the state machine says |
| ServerObjects.Worker.OnAccept | example/server/main.cpp:418-434 | the accept handler as a step of the state machine: it reads exactly on success, and accepts again on a closed socket after any error but an abort |
| ServerObjects.Worker.DoRead | example/server/main.cpp:436-443 | runs only on a parser that was reset or holds a complete message |
| ServerObjects.Worker.OnReadHeader | example/server/main.cpp:445-462 | the header handler; the body read it initiates never throws |
| ServerObjects.Worker.OnReadBody | example/server/main.cpp:464-503 | the body handler: the handler's answer, or 503 once shutting down |
| ServerObjects.Worker.OnWrite | example/server/main.cpp:505-524 | the write handler: read on if the response keeps the connection, else accept |
| ServerObjects.Worker.Dispatch | example/server/main.cpp:414-502 | resuming whatever is outstanding is one step of the state machine |
| ServerObjects.Acceptor.constructor | example/server/acceptor.hpp:40-63 | N workers with identifiers 1 to N that serve the given site and share nothing they update |
| ServerObjects.Acceptor.NextId | example/server/acceptor.hpp:59-63 | identifiers count up from one |
| ServerObjects.Acceptor.Run | example/server/acceptor.hpp:77-82 | every worker accepts |
| ServerObjects.Acceptor.Stop | example/server/acceptor.hpp:84-91 | every worker is cancelled on the acceptor and then on its own socket |
| ServerObjects.Server.MakeService | example/server/server.hpp:66-80 | appends a new service for the given site; the earlier ones remain, as they were |
| ServerObjects.Server.Run | example/server/server.cpp:29-44 | arms the signal wait and runs every service |
| ServerObjects.Server.Stop | example/server/server.cpp:46-64 | cancels waits and services once; a second call does nothing |
| ServerObjects.Server.OnSignal | example/server/server.cpp:66-91 | the first call begins shutdown and arms both waits, a later one stops, whatever the code; stopped afterwards exactly if it was or shutdown had begun |
| ServerObjects.Server.OnTimer | example/server/server.cpp:93-106 | stopped afterwards exactly if it was or the wait ended without error |
| ServerObjects.Server.DispatchSignal | example/server/server.cpp:66-91 | the loop's call of on_signal, also after its wait was cancelled |
| ServerObjects.Server.DispatchTimer | example/server/server.cpp:93-106 | the loop's call of on_timer with the code its wait ended with |
| ServerObjects.Server.DispatchWorker | example/server/server.cpp:43-43 | a worker's handler changes that worker alone, as the state machine says |
| ServerObjects.Server.Step | example/server/server.cpp:29-106 | whatever event the state machine allows, the objects make the state machine's step |
| EventLoop.RunEvents | example/server/server.cpp:43-43 | under the events of any run the objects end in the state the run ends in |
| EventLoop.Serve | example/server/main.cpp:559-567 | booted, then run: the state reached is the run's, and so are its bounds on signals, timeouts and stops |
| ServerObjects.Boot | example/server/main.cpp:559-567 | one service for the given site; the objects enter the event loop in the state the theorems over runs start from |
| Paths.PathCat | example/server/main.cpp:102-129 | an empty base gives the path; a base that ends in a slash gives the base without that slash, then the path; any other base gives base and path |
| Paths.FilePathIs | example/server/main.cpp:250-254 | the path is the root, then the target, then an index page after a final slash |
| Paths.PathStaysBelowRoot | example/server/main.cpp:243-254 | an accepted target gives the segments of the directory that the document root names, followed by its own; resolving dot segments never climbs above what that directory resolves to |
| Requests.HandleRequest | example/server/main.cpp:222-285 | field by field: keep-alive as the request asks; 400 exactly for a target that is empty, not absolute or holds ".."; else 200 with the file at root and target, and the type of its extension, if it opens; else 500; pages are HTML |
| Requests.FilesStayBelowRoot | example/server/main.cpp:243-279 | no request makes the server name a file above its root; the answer depends on which files open exactly when the target passed the check |
| MimeTypes.ExtensionIs | example/server/main.cpp:60-68 | the extension is the part from the last dot, and empty without a dot |
| MimeTypes.MimeTypeIs | example/server/main.cpp:70-98 | the type of any path is the one listed for its extension in lower case, and application/text for all others |
| MimeTypes.ExtensionIdempotent | example/server/main.cpp:60-68 | the extension of an extension is itself, so the doubled call at line 272 finds the type of the path |
| MimeTypes.MimeTypeIgnoresCase | example/server/main.cpp:70-98 | changing the case of letters anywhere in a path does not change its type |
| Client.PrintBody | example/client/flex_await/main.cpp:276-292 | what was printed is always a prefix of the body decoded from what the connection carries, whatever is still to come, and the whole on a normal exit; otherwise all that decodes from the bytes before the failing or missing read was printed; the loop ends as the fate of the message says, and no read in it trips the header-first check |
| Client.LandsIff | example/client/flex_await/main.cpp:187-274 | the client lands on connection k exactly when its header is read with a status other than 301, 302, 307 and 308 and every one before answered with such a status and a location; and the like for each way of getting stuck |
| Client.FindResponse | example/client/flex_await/main.cpp:238-274 | follows the redirects exactly to the first response that is not one, or ends with the reason there is none |
| Client.Request | example/client/flex_await/main.cpp:231-292 | what is printed is a prefix of the body that the parser given decodes from the bytes of the first connection whose response is no redirect, all of it on a normal exit and otherwise all that decodes from the bytes before the deciding read; the exit is normal exactly when that message is whole, else the first error there; each redirect starts from a reset parser |

## Left out

- Asio itself (sockets, executors, `async_compose`, `io_context`), TLS and name resolution: represented by scripts, slots and the adversary's events.
- http_proto (parsing, serializing, zlib, `prepare` sizes): the contracts above.
- Reads on a parser to which the end of the stream was committed without completing the message: the callers here reset it.
- Progress on pipelined input: after `start` the code reads the stream before it parses what is left over, so only safety is claimed.
- Other error handling on an accepted socket: `fail` with its logging, and the deadline that is commented out.
- HTML of error pages, `parse_authority`, header fields other than those that decide status, keep-alive and content type.
- `path_cat` for Windows separators; the model follows the POSIX branch.
- `file_handler` (empty), `fixed_array` memory management, command lines and `main`'s exception handling.
- `any_stream`: its adapters pass one completion through.
- Termination of the client's redirect loop: the code sets no bound, so the model lets the list of connections run out.
- Client shutdown of the stream after the body, and the text of its request.
- `relay_some_op`, the sandbox test and other disabled code.
