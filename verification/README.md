# A verified model of the Redis client

This project models the core of an asynchronous Redis client written in C++17 on Boost.Asio
and Boost.MSM, and proves properties of it. It follows bytes and requests all the way through
the client:

* the **codec**: the recursive reply parser and the in-place command encoder of RESP2
  (`Parser`, `Serializer`), with a grammar to judge them by (`Grammar`);
* the **read loop**, which cuts a read into replies and raises one event for each
  (`ReadLoop`);
* the **state machine** of one connection, with its deferred events (`Fsm`);
* the **connection pool** on top of the machines of its connections (`Pool`), as a transition
  system over whole states, and once more as objects that hold references to each other and
  call each other back (`PoolObjects`);
* the **connection string** parser (`ConnectionString`), with a description of the strings it
  reads and of what is wrong with the others (`ConnectionTexts`).

`dafny verify dfyconfig.toml` checks all of it.

## How it is put together

| file | what it holds |
|---|---|
| `Wrappers`, `Decimal`, `Resp`, `Events` | option and result types, decimal text, reply values and parse outcomes, machine events |
| `Parser` | the parser, branch by branch, and its array loop as a method over one buffer |
| `Grammar` | concrete syntax trees of replies; a printed tree is parsed as its outcome, and a value is only read from a printed tree |
| `Streaming`, `ParserTheorems` | what later bytes can change; the parser against the grammar as equivalences |
| `Serializer` | the encoding as a function, and the encoder writing into a buffer that grows once |
| `ReadLoop`, `ReadLoopTheorems`, `Cuts`, `ErrorEvents` | the loop over a read; framing, splitting of streams, pipelines, unique decodability; replies and errors cut short; what an error is reported as |
| `Fsm`, `FsmTheorems` | transition table, deferral, run-to-completion; every run of one machine |
| `Pool` | the pool's methods as functions from state to state |
| `PoolInvariant`, `PoolSteps` | the invariant, and that each action keeps it |
| `PoolRuns`, `PoolHistory`, `PoolWaiting`, `PoolIntake` | every reachable state; the fate of every request, now and over time; how long one can wait; which are taken in |
| `PoolClosing`, `ClosedCallback`, `PoolEnding` | closing drains and ends; how often the closed callback runs; who is told to terminate |
| `PoolEvents`, `PoolObjects`, `PoolSafety` | classes for connections and pool, proved to do what `Pool` says; the run theorems, and reads, for the objects |
| `Replies`, `Reads` | from the bytes of a reply to the callbacks of its request; what a read does to a pool, whatever it holds |
| `ConnectionString`, `ConnectionTexts`, `ConnectionStringTheorems` | the parser of connection strings; the texts they are made of; what is read, and what is refused and why |

A method that the original writes as a loop or as updates in place is a Dafny method or class
here, proved equal to a function; the theorems are about the functions. A request carries a
ticket, the number of requests accepted before it, so that two requests with equal bytes stay
apart. `Pool.Log` records what has happened: what was accepted, handed out, failed or lost.

## Assumptions

* Each step is atomic: there is one I/O thread, and the callbacks given by the user do not
  call back into the pool.
* The transport stays connected while the machine is not terminated, so that every `send`
  writes its bytes.
* A server sends one reply for each request and does not refuse `AUTH` (a query error has no
  row in `authn`). `PoolSteps.Expected` says which socket events a run may contain; late events
  for a terminated connection are among them. `Reads` drops the first half for a read of a
  connection with a request in flight: it holds any bytes, and any number of replies.
* The state machine library runs to completion: an event raised while another is being
  processed waits until that one is done, and deferred events are tried again, in order, before
  those that wait (tests/test_fsm.cpp:79-90 and 129-156 rely on it).
* A byte is a `char`. Lengths are unbounded integers; `size_t` and `int64_t` arithmetic is
  modelled with its wrap-around where the original mixes or subtracts them (`Parser.AddSize`,
  `ReadLoop.SubSize`).

## What the proofs bring to light

Each of these is how the code behaves, with the exact condition proved.

* An array that holds an error is reported with the length of the error alone
  (parser.hpp:133-137), so the read loop goes on in the middle of the array. The loop keeps in
  step with the stream exactly for the other replies (`FramingIff`). What is left of the array
  is taken for more replies, which answer the requests that wait, in order, in place of their
  own (`LeftoverAnswersQueue`, `LeftoverHappens`). A read of any bytes meets `idle`, which has
  no row for a reply, exactly if the pool is open and the read raises more events than there
  are requests in flight on the connection and waiting (`ReadFaultsIff`).
* A read that ends inside a reply loses it: "not enough data" becomes a query error and the
  buffer is dropped (connection_fsm.hpp:490-493, `CutLosesReply`). A stream of replies may be
  cut into two reads exactly between two of them (`CutIff`).
* A command without arguments is cut short by the NUL of `snprintf`
  (`AppendedIsEncodingIff`, `SerializedRoundTripIff`). There are such commands:
  `single_command_t` refuses to be built from an empty list, but its default constructor makes
  one, and its list of arguments is public (commands.hpp:27-35).
* The error callback passes a null connection (concrete_connection.hpp:57), so only the notice
  of termination removes a connection from the list. Nothing removes it from the list of ready
  connections: a connection that fails while idle stays there and swallows the next request
  without a callback (`SwallowedIff`, `DeadConnectionSwallows`).
* A request in flight when its connection fails gets no callback, then or later; one that
  waits is failed. Nothing else the pool does drops a request in flight or fails one that waits
  (`DroppedIff`, `ClearedIff`, `FatesMoveForward`, `DroppingHappens`).
* The closed callback runs once for each of several things (`ClosedCallbackCount`): exactly
  once for a pool closed without requests and connections, and otherwise only where connection
  errors take the place of its other occasions (`ClosedCallbackOnceIff`). Closing an idle pool
  of one connection runs it twice (`ClosedCallbackRunsTwice`).
* A connection told to terminate while connecting still writes its startup message, exactly if
  there is a password and the connect completes; it sends nothing else
  (`OnlyStartupAfterTerminate`).
* A machine keeps an execute that comes too early, but only one: a second is a fault when its
  turn comes (`DeferredInTurn`). The pool never gives it two.
* The documentation of connection strings shows any word as the database
  (common.hpp:97-101); the code takes only what starts with a number, and leaves any other word
  in the address (`DocumentedExample`, `WordStaysInAddress`). With both a database and
  parameters, the database keeps the text of the parameters (`DatabaseTakesParameters`), and an
  address whose last segment starts with a number loses that segment (`RoundTripIff`). Negative
  timeouts are accepted (`TimeoutIsRead`).

## Model

| member | source | states |
|---|---|---|
| Decimal.CastIff | include/redis_async/details/protocol/markup_helper.hpp:33-37 | the cast gives a number, and that number, exactly for digits with or without one sign whose value is between -2^63 and 2^63 - 1; it throws for any other text |
| Decimal.CastOfSigned | include/redis_async/details/protocol/markup_helper.hpp:33-37 | a number printed in decimal, after a plus sign, a minus sign or nothing, converts back to itself or its negative as far as 64 bits go, and no further |
| Parser.AddSize | include/redis_async/details/protocol/parser.hpp:93-95 | the mixed signed and unsigned sum of a count that is not negative and the terminator size never wraps |
| Parser.Parse | include/redis_async/details/protocol/parser.hpp:176-206 | whatever is not a protocol error consumes at least one byte and no more than there are, errors inside arrays included |
| Parser.ParseElements | include/redis_async/details/protocol/parser.hpp:127-144 | a completed loop has read exactly the announced number of elements and at least a byte for each; a loop that stops never stops with a value |
| Parser.ElementLoop | include/redis_async/details/protocol/parser.hpp:127-144 | the loop that advances an iterator over one buffer comes to the recursive definition over the bytes left, and never passes the end |
| Parser.ArrayApply | include/redis_async/details/protocol/parser.hpp:109-146 | the array parser on a buffer agrees with its definition for every offset and number of bytes consumed before |
| Parser.RawParse | include/redis_async/details/protocol/parser.hpp:202-206 | parsing in place from any position agrees with parsing the bytes from there on |
| Grammar.ParseOfPrint | include/redis_async/details/protocol/parser.hpp:23-206 | completeness: every well-formed reply, printed, is parsed as its value and full length, or as its first error depth first, whatever bytes follow |
| Grammar.ParseAllOfPrint | include/redis_async/details/protocol/parser.hpp:132-142 | a run of printed replies followed by more elements gives their values and summed lengths, or stops at the first error among them |
| Grammar.ParseSound | include/redis_async/details/protocol/parser.hpp:23-206 | soundness: when a value is read, the bytes consumed are the printed form of a well-formed reply without errors that evaluates to it |
| ParserTheorems.ParserMeetsGrammar | include/redis_async/details/protocol/parser.hpp:23-206 | the parser yields a value and a length if and only if that many bytes derive that value in the grammar |
| ParserTheorems.NegativeIsRead | include/redis_async/details/protocol/parser.hpp:54-76 | an integer reply with a minus sign is read as that negative number, down to -2^63, whatever follows |
| ParserTheorems.NilIsRead | include/redis_async/details/protocol/parser.hpp:84-90 | a bulk string or an array of length -1 is nil, and five bytes long, whatever follows |
| ParserTheorems.ErrorMeetsGrammar | include/redis_async/details/protocol/parser.hpp:23-206 | which error is reported, for every input: a server error with the length of its line alone, or one of the protocol errors, if and only if the input begins with a way down, through complete elements without errors, to an error line, an unknown introduction, a line that is no number, a count below nil, or a bulk string with another terminator |
| Streaming.VerdictStable | include/redis_async/details/protocol/parser.hpp:23-146 | every outcome other than "not enough data" stays the same when bytes are appended |
| Streaming.Settle | include/redis_async/details/protocol/parser.hpp:23-146 | every input judged "not enough data" can be continued to one with another verdict |
| ParserTheorems.IncompleteIff | include/redis_async/details/protocol/parser.hpp:30-31 | the verdict is "not enough data" if and only if some continuation changes the verdict |
| ParserTheorems.ValueNeedsItsBytes | include/redis_async/details/protocol/parser.hpp:23-206 | cut before the length consumed, the input of a value is judged "not enough data" and nothing else; cut after it and continued in any way, it gives the same value and length |
| ParserTheorems.IncompletePrefix | include/redis_async/details/protocol/parser.hpp:30-31 | every prefix of an input judged "not enough data" is judged so too |
| Cuts.ErrorNeedsItsBytes | include/redis_async/details/protocol/parser.hpp:23-206 | every error is decided by a prefix of the input: any shorter one is judged "not enough data", and the prefix followed by anything gives the same error |
| Cuts.ReplyNeedsItsBytes | include/redis_async/details/protocol/parser.hpp:23-206 | a reply that is not an array holding an error is judged "not enough data" until its last byte has arrived |
| Serializer.SizeForInt | include/redis_async/details/protocol/serializer.hpp:19-27 | counts the digits that are printed for the number, one for zero |
| Serializer.CommandSize | include/redis_async/details/protocol/serializer.hpp:29-40 | the size computed beforehand is the length of the encoding |
| Serializer.WriteArgument | include/redis_async/details/protocol/serializer.hpp:49-58 | within its bound, each argument is stored as its encoding, the NUL of the printed length is overwritten, and no other byte changes |
| Serializer.Serialize | include/redis_async/details/protocol/serializer.hpp:42-59 | the buffer keeps what it held and gains the encoding, or the truncated header for a command without arguments |
| Serializer.SerializeAll | include/redis_async/details/protocol/serializer.hpp:61-66 | the buffer gains what is appended for each command, in order |
| Serializer.AppendedIsEncodingIff | include/redis_async/details/protocol/serializer.hpp:45-47 | what is appended is the RESP2 encoding if and only if the command has an argument |
| Serializer.AppendedAllIsEncoding | include/redis_async/details/protocol/serializer.hpp:61-66 | for commands with arguments, what is appended is the concatenation of their encodings |
| ReadLoop.SubSize | include/redis_async/details/connection/connection_fsm.hpp:493 | subtracting no more than there is does not wrap |
| ReadLoop.Receiver.ReadMessage | include/redis_async/details/connection/connection_fsm.hpp:483-495 | from a buffer holding exactly the bytes transferred: every round consumes between one and the bytes left, the loop ends, the buffer is empty, and the events are those of the read |
| ReadLoop.Receiver.HandleRead | include/redis_async/details/connection/connection_fsm.hpp:464-470 | a read appended to an empty buffer leaves it empty for the next |
| ReadLoopTheorems.FramingIff | include/redis_async/details/connection/connection_fsm.hpp:483-495 | the loop raises one event for a reply and goes on behind it, whatever follows, if and only if the reply is not an array holding an error |
| ReadLoopTheorems.DeliverAll | include/redis_async/details/connection/connection_fsm.hpp:483-495 | a read holding whole replies of that kind raises their events in order, then those of the rest |
| ReadLoopTheorems.SplitIff | include/redis_async/details/connection/connection_fsm.hpp:490-493 | a stream may be cut into two reads at a point, for every continuation, if and only if the loop over the first part meets no protocol error |
| Cuts.EndsCleanIff | include/redis_async/details/connection/connection_fsm.hpp:490-493 | a read of whole replies, cut anywhere, meets no protocol error if and only if it ends where a reply does |
| Cuts.CutIff | include/redis_async/details/connection/connection_fsm.hpp:483-495 | a stream of replies may be cut into two reads, whatever follows, if and only if the cut is between two of them |
| Cuts.CutLosesReply | include/redis_async/details/connection/connection_fsm.hpp:490-493 | a read that ends inside a reply raises the events of the replies before it and then a query error; the part of the reply is gone |
| ErrorEvents.ErrorIsRaised | include/redis_async/details/connection/handler_parse_result.hpp:22-35 | a read that begins with an error raises, whatever follows, the cause at the end of its path: the text of the server, wrong introduction, count conversion, count range or bulk terminator; a server error is left behind with its line, any other drops the read |
| ErrorEvents.FirstErrorIff | include/redis_async/details/connection/handler_parse_result.hpp:22-35 | the first event of a read is a given error if and only if the read begins with what causes it, or, for "not enough data", is undecided |
| ErrorEvents.FirstValueIff | include/redis_async/details/connection/handler_parse_result.hpp:32-35 | the first event of a read is a value if and only if the read begins with a reply that denotes it |
| ReadLoopTheorems.CommandIsPrinted | include/redis_async/details/protocol/serializer.hpp:42-59 | an encoded command is the printed form of the array of its arguments |
| ReadLoopTheorems.PipelineRoundTrip | include/redis_async/details/protocol/serializer.hpp:61-66 | reading a pipeline of encoded commands gives one array of strings per command, in order, then the events of whatever follows |
| ReadLoopTheorems.SerializedRoundTripIff | include/redis_async/details/protocol/serializer.hpp:42-66 | the encoder's output is read back as its commands if and only if none of them is empty |
| ReadLoopTheorems.EncodingIsPrefixFree | include/redis_async/details/protocol/serializer.hpp:42-59 | no command's encoding begins another's |
| ReadLoopTheorems.EncodingIsUniquelyDecodable | include/redis_async/details/protocol/serializer.hpp:61-66 | two lists of commands with the same bytes are equal |
| FsmTheorems.ProcessResting | include/redis_async/details/connection/connection_fsm.hpp:222-242 | after every event the machine is in order: requests are settled in the order sent with at most one in flight, `terminated` has been notified exactly if it is the state, nothing waits |
| FsmTheorems.RunResting | include/redis_async/details/connection/connection_fsm.hpp:180-217 | that holds over every run, whatever the socket reports and the owner asks |
| FsmTheorems.TerminatedAbsorbs | include/redis_async/details/connection/connection_fsm.hpp:97-104 | no run leaves `terminated`, sends a byte from it, runs a callback or notifies again |
| FsmTheorems.ProcessArrival | include/redis_async/details/connection/connection_fsm.hpp:299-303 | with or without a startup message, entering `idle` comes to the same: deferred events first, then what its callback raised |
| FsmTheorems.DeferredInTurn | include/redis_async/details/connection/connection_fsm.hpp:106-180 | on arrival in `idle` what was deferred is done in turn: a terminate in front takes effect; behind one execute it is kept while that request is sent; another execute, deferred or raised on arrival, is a fault |
| FsmTheorems.TerminateAfterExecute | include/redis_async/details/connection/connection_fsm.hpp:106-180 | told to execute and then to terminate, a machine sends that request on the next arrival and terminates on the one after, its reply received |
| FsmTheorems.PostsOnlyOnArrival | include/redis_async/details/connection/connection_fsm.hpp:165-171 | an event that does not lead to `idle` does not depend on what the owner would raise there |
| FsmTheorems.DeferredTerminateIff | include/redis_async/details/connection/connection_fsm.hpp:106-178 | on the next arrival in `idle` a machine with deferred events terminates if and only if the first of them is a terminate, before anything its owner raises there |
| FsmTheorems.TerminateIsKept | include/redis_async/details/connection/connection_fsm.hpp:106-180 | a terminate deferred in connecting, authn or query, whatever was deferred before it, is kept over every run until the machine has come to its end |
| FsmTheorems.StartupIff | include/redis_async/details/connection/connection_fsm.hpp:299-308 | whatever the machine, an event writes one startup message if it is the connect completing with a password, and none otherwise, with all the events it causes |
| FsmTheorems.OnlyStartupAfterTerminate | include/redis_async/details/connection/connection_fsm.hpp:106-180 | with no execute deferred before the terminate, no run sends another request; one startup message is written if and only if there is a password, the machine is connecting, and the connect completes |
| FsmTheorems.EventLeads | include/redis_async/details/connection/connection_fsm.hpp:222-254 | where every event leads from every state that can still react, with nothing put off: the next state, whether there is no row for it, and which calls are kept for later |
| FsmTheorems.EventArrives | include/redis_async/details/connection/connection_fsm.hpp:165-171 | arriving with nothing deferred, the machine stays, sends the request raised by its callback, or terminates |
| FsmTheorems.EventBreaks | include/redis_async/details/connection/connection_fsm.hpp:222-242 | a connection error terminates the machine from any of its working states, forgetting its query and its deferred events without running a callback |
| FsmTheorems.CallFaultsIff | include/redis_async/details/connection/connection_fsm.hpp:222-254 | asking a live machine to execute or terminate meets a missing row if and only if it is to execute while a request is in flight |
| FsmTheorems.CallTerminate | include/redis_async/details/connection/concrete_connection.hpp:77-79 | a terminate ends an idle machine at once and is deferred by any other live one, behind whatever it has deferred already |
| PoolInvariant.CreateInv | src/details/connection/connection_pool.cpp:226-232 | a new pool satisfies the invariant |
| PoolInvariant.GetConnectionKeeps | src/details/connection/connection_pool.cpp:162-182 | a request keeps the invariant: list of live connections without duplicates and within the size, ready list, queue discipline, and books in which every request handed out is failed, lost or sent |
| PoolInvariant.CloseConnectionsKeeps | src/details/connection/connection_pool.cpp:197-210 | terminating all connections leaves none idle but the one in the middle of an event, which has a terminate posted if it is alive |
| PoolInvariant.CloseKeeps | src/details/connection/connection_pool.cpp:184-196 | closing keeps the invariant |
| PoolSteps.SocketEventKeeps | include/redis_async/details/connection/concrete_connection.hpp:34-62 | every socket event keeps the invariant, with all the calls between pool and machines it causes |
| PoolSteps.ArrivesToQueue | src/details/connection/connection_pool.cpp:134-139 | a connection that comes to rest while requests wait takes the first of them and leaves the others |
| PoolSteps.ArrivesToRest | src/details/connection/connection_pool.cpp:67-74 | a connection that comes to rest while nothing waits in an open pool is listed as ready behind the others, and nothing else changes |
| PoolSteps.BreaksKeeps | src/details/connection/connection_pool.cpp:148-161 | a connection error empties the queue, removes the connection and keeps the invariant, though the error callback names no connection |
| PoolRuns.ReachableInv | src/details/connection/connection_pool.cpp:56-210 | every state that some run of a new pool ends in satisfies the invariant |
| PoolRuns.ReadyMeansIdle | src/details/connection/connection_pool.cpp:56-74 | in every reachable state no machine has met an event it has no row for, a live connection is listed as ready exactly if it is idle, once, and a closed pool has none idle |
| PoolRuns.ConnectionsAreLive | src/details/connection/connection_pool.cpp:75-82 | in every reachable state the connection list is the set of connections not terminated, without duplicates and no longer than the pool size |
| PoolRuns.NoRequestIsStranded | src/details/connection/connection_pool.cpp:134-147 | while a request waits no connection is ready, there is one, all are on their way to idle, and the next to arrive sends the request that has waited longest |
| PoolWaiting.WaitingIsBounded | src/details/connection/connection_pool.cpp:134-147 | over every run, open or closed: while a request waits, the socket events of live connections are no more than its place in the queue, what the connections still have to go through, and the room for more of them allow |
| PoolWaiting.WaitingProgress | src/details/connection/connection_pool.cpp:134-147 | while a request waits, some such event other than an error is always to come |
| PoolRuns.GrowsIff | src/details/connection/connection_pool.cpp:173-181 | a request adds a connection, under way and listed last, if and only if none is ready and the pool has room for another |
| PoolIntake.IntakeIs | src/details/connection/connection_pool.cpp:162-182 | a closed pool fails the request and changes nothing else; an open one takes in that request, with the next ticket, and refuses none |
| PoolIntake.FirstFate | src/details/connection/connection_pool.cpp:162-182 | when the call returns, the request waits, is in flight on the connection that has been ready longest, or has been swallowed by it, exactly as no connection is ready, that one lives, or it has died |
| PoolIntake.IntakeFromStart | src/details/connection/connection_pool.cpp:162-196 | over every run of a new pool the requests asked for before `close` are taken in, in order and with their bytes, and those asked for after it are refused, in order |
| PoolRuns.FirstComeFirstServed | src/details/connection/connection_pool.cpp:162-182 | requests leave the pool in the order they were accepted; handing one straight to an idle connection overtakes nothing |
| PoolRuns.RepliesArePaired | include/redis_async/details/connection/connection_fsm.hpp:180-208 | on every connection callbacks run in the order of sending, at most one request is in flight, and termination is notified once |
| PoolRuns.StartupComesFirst | include/redis_async/details/connection/connection_fsm.hpp:143-148 | in every reachable state a live connection has written its startup message if and only if there is a password and it has connected; never twice, never without a password, and no request before it |
| PoolRuns.ExactlyOneFate | src/details/connection/connection_pool.cpp:105-182 | every accepted request is in exactly one place: waiting, failed with the queue, swallowed, in flight, settled once, or dropped with its connection |
| PoolRuns.NothingIsLost | src/details/connection/connection_pool.cpp:105-182 | as long as no connection has failed, a request is waiting, in flight on a live connection, or settled |
| PoolRuns.SwallowedIff | src/details/connection/connection_pool.cpp:173-175 | a new request vanishes without a callback if and only if the pool is open and the head of the ready list has terminated |
| PoolRuns.DeadConnectionSwallows | src/details/connection/connection_pool.cpp:173-175 | that state can be reached |
| PoolHistory.FatesMoveForward | src/details/connection/connection_pool.cpp:105-182 | over every run of every reachable state: a settled, failed, swallowed or dropped request stays so, so no callback runs twice; one in flight stays, is settled or is dropped on its connection; one that waits is never swallowed |
| PoolHistory.ClearedIff | src/details/connection/connection_pool.cpp:157-161 | an action fails a request with the queue if and only if it is a connection error of a live connection while the request waits |
| PoolHistory.DroppedIff | include/redis_async/details/connection/connection_fsm.hpp:210-216 | an action leaves a request without a callback on a connection if and only if it is an error of that connection, still live, while the request is in flight on it |
| PoolHistory.DroppingHappens | include/redis_async/details/connection/connection_fsm.hpp:210-216 | a reachable state has a request dropped so, and another failed with the queue |
| PoolClosing.ClosingStep | src/details/connection/connection_pool.cpp:134-156 | after `close`, every socket event of a live connection strictly lowers the requests waiting plus what each connection has still to go through |
| PoolClosing.ClosingTerminates | src/details/connection/connection_pool.cpp:184-210 | no run after `close`, refused requests, late events and further closes included, has more socket events of live connections than were outstanding, and nothing more is accepted |
| PoolClosing.ClosingProgress | src/details/connection/connection_pool.cpp:184-210 | while a connection is left after `close`, some event other than an error is still to come |
| PoolClosing.ClosingEnds | src/details/connection/connection_pool.cpp:148-156 | when none is, no connection and no request is left, the closed callback has run, and every request has been settled unless a connection failed |
| PoolClosing.NothingAfterTerminate | src/details/connection/connection_pool.cpp:197-210 | nothing is terminated and the closed callback does not run before the pool is closed and drained; after that nothing is accepted or handed out |
| PoolEnding.EveryConnectionIsTold | src/details/connection/connection_pool.cpp:197-210 | in every reachable state in which any connection has been told to terminate, each one left has a terminate put off with nothing before it, and so sends no further request |
| PoolEnding.CloseTellsEach | src/details/connection/connection_pool.cpp:197-210 | closing calls `terminate` once for each listed connection if nothing waits, and for none otherwise |
| ClosedCallback.ClosedCallbackCount | src/details/connection/connection_pool.cpp:148-210 | for every run after `close`: the callback has run once if nothing waited then, once for each arrival in `idle` that finds the pool drained, and once when the last connection leaves |
| ClosedCallback.ClosedCallbackOnceIff | src/details/connection/connection_pool.cpp:148-210 | when no connection is left, the callback has run exactly once if and only if the pool had nothing waiting and no connection at `close`, or had requests waiting and no connection came to rest after they were gone; without connection errors the latter is at least twice |
| PoolClosing.ClosedCallbackRunsTwice | src/details/connection/connection_pool.cpp:184-210 | a reachable open pool of one idle connection runs the callback twice on `close` |
| PoolObjects.Connection.OnExit | include/redis_async/details/connection/connection_fsm.hpp:196-216 | leaving `query` settles the request by a reply or a query error and forgets it in any case |
| PoolObjects.Connection.OnEntry | include/redis_async/details/connection/connection_fsm.hpp:182-194 | entering `query` records and sends the request, entering `authn` without a password raises its own completion |
| PoolObjects.ConnectionPool.constructor | src/details/connection/connection_pool.cpp:226-232 | a new pool object starts in the created state with one connection under way |
| PoolObjects.ConnectionPool.EraseConnection | src/details/connection/connection_pool.cpp:75-82 | the object found is the first with that number; a null connection erases nothing |
| PoolObjects.ConnectionPool.ClearQueue | src/details/connection/connection_pool.cpp:105-113 | every waiting request is failed, in order, and nothing else changes |
| PoolObjects.ConnectionPool.ConnectionTerminated | src/details/connection/connection_pool.cpp:148-156 | the connection leaves the list, and the closed callback runs if it was the last of a closed pool |
| PoolObjects.ConnectionPool.ConnectionError | src/details/connection/connection_pool.cpp:157-161 | called with a null connection, it fails the queue and leaves the list alone |
| PoolObjects.ConnectionPool.ConnectionReady | src/details/connection/connection_pool.cpp:134-147 | called from inside a connection's event: the pool changes as specified, and what it asks of that connection is in its inbox, in order |
| PoolObjects.ConnectionPool.CloseConnections | src/details/connection/connection_pool.cpp:197-210 | terminates a copy of the list object by object, although each call changes the list; the one in the middle of an event gets it posted |
| PoolObjects.ConnectionPool.Call | include/redis_async/details/connection/concrete_connection.hpp:73-79 | an execute or terminate changes that connection and the pool as specified and no other connection; in the middle of an event it is only put into the inbox |
| PoolObjects.ConnectionPool.Transition | include/redis_async/details/connection/connection_fsm.hpp:222-242 | exit, action, entry and callbacks of one transition, the pool called back in between, add up to one step of the machine and its effect on the pool |
| PoolObjects.ConnectionPool.RunEvent | include/redis_async/details/connection/connection_fsm.hpp:299-303 | all transitions of an event, retried and posted events included, end where run-to-completion says, with the pool called back once |
| PoolObjects.ConnectionPool.SocketEvent | include/redis_async/details/connection/connection_fsm.hpp:456-481 | a socket event takes the whole object graph from one specified state to the next |
| PoolObjects.ConnectionPool.CreateNewConnection | src/details/connection/connection_pool.cpp:116-133 | a new object is told to connect and listed last; a closed pool creates none |
| PoolObjects.ConnectionPool.GetIdleConnection | src/details/connection/connection_pool.cpp:56-66 | takes the connection that has been ready longest, none if the pool is closed |
| PoolObjects.ConnectionPool.GetConnection | src/details/connection/connection_pool.cpp:162-182 | a request is refused, handed over or queued as specified, and no connection object is forgotten |
| PoolObjects.ConnectionPool.Close | src/details/connection/connection_pool.cpp:184-196 | the first close terminates the connections unless requests wait; a second does nothing |
| PoolSafety.Launch | src/details/connection/connection_pool.cpp:226-232 | a new pool object is in order and in a state that runs reach |
| PoolSafety.Perform | src/details/connection/connection_pool.cpp:162-196 | whatever is done to a pool object keeps it within the states that runs reach |
| PoolSafety.ObjectsAreInOrder | src/details/connection/connection_pool.cpp:56-82 | between two events of any run every connection object is listed exactly if it is not terminated, listed as ready if it is idle, never faulted, and paired with its replies |
| PoolSafety.HandleRead | include/redis_async/details/connection/connection_fsm.hpp:464-495 | the loop over the bytes of a read raises each reply in the connection object, with all the calls between the objects it causes, before it looks for the next; the buffer is left empty and the object graph is where the events of the read lead |
| Replies.ReplyFaultsIff | include/redis_async/details/connection/connection_fsm.hpp:483-495 | for one machine whose owner raises nothing when it comes to rest: a whole reply, read at once, gives its request the result or error it denotes; it faults the machine if and only if it is an array holding an error and no terminate is deferred; otherwise the machine is idle, or terminated if it was told to |
| Replies.ReplySettles | include/redis_async/details/connection/connection_fsm.hpp:196-208 | in every reachable state, the bytes of such a reply settle the request in flight with the value or error they denote |
| Reads.AnswersInOrder | include/redis_async/details/connection/connection_fsm.hpp:483-495 | the answers one read raises, however many, settle the request in flight and then those that wait, in order; what is still waiting, what is in flight and the phase of the connection after them are given exactly |
| Reads.ReadFaultsIff | include/redis_async/details/connection/connection_fsm.hpp:483-495 | for every reachable state with a request in flight and any bytes: the read meets an event without a row if and only if the pool is open and the read raises more events than the requests in flight and waiting; otherwise it ends in a reachable state; either way each event settles its request for good |
| Reads.ErrorSettles | include/redis_async/details/connection/connection_fsm.hpp:196-201 | a read that begins with an error fails the request in flight with its cause, in every reachable state and whatever follows in the read |
| Reads.RepliesAnswerInOrder | include/redis_async/details/connection/connection_fsm.hpp:196-208 | several whole replies in one read, none an array holding an error, give their values or errors to the requests they answer, in order; more of them than requests fault an open pool's connection |
| Reads.LeftoverAnswersQueue | include/redis_async/details/protocol/parser.hpp:133-137 | after an array holding an error, the waiting requests are settled in order with what the loop makes of the rest of the array, in place of their own replies; only what goes further faults the connection |
| Reads.LeftoverHappens | include/redis_async/details/protocol/parser.hpp:133-137 | a reachable state and a reply for which the next request is told the first one's error, without a fault |
| ConnectionString.ParseParameters | src/common.cpp:115-135 | the loop comes to the definition `ApplyText`, of which `ParametersIff` says what it accepts and how it fails |
| ConnectionTexts.StoiIff | src/common.cpp:94-100 | `stoi` gives a number exactly for a text that begins, after white space, with an optional sign and digits, all of them together between -2^31 and 2^31 - 1 |
| ConnectionTexts.StoiOfText | src/common.cpp:94-100 | so it is for every printed number with any white space and sign before it and any text but a digit after it |
| ConnectionTexts.SplitIff | src/common.cpp:115-130 | splitting a text gives the one list of pieces without the separator that it is joined from |
| ConnectionTexts.TimeoutIff | src/common.cpp:148-167 | a timeout fails for its number exactly if no number with digits of 64 bits is in front, for its unit exactly if what follows is none of the three, and in no other way |
| ConnectionTexts.ParameterIff | src/common.cpp:127-147 | every parameter, whatever its text: it is accepted exactly if it is one of the three keys, one equals sign, and a value of its kind; otherwise the failure says which of these is wrong |
| ConnectionTexts.ParametersIff | src/common.cpp:115-147 | every text of parameters is accepted exactly if all its pieces are; otherwise it fails as the first piece that is not |
| ConnectionString.ParseConnectionString | src/common.cpp:22-33 | the four stages give the specified options, or the first failure |
| ConnectionStringTheorems.RenderedParts | src/common.cpp:46-76 | alias, schema, password and the rest are told apart in every well-formed string |
| ConnectionStringTheorems.PathWithout | src/common.cpp:85-114 | an address is kept whole unless its last segment starts with a number; then that segment and all that follows is the database, and without anything before it the string is invalid |
| ConnectionStringTheorems.ParseIsReading | src/common.cpp:22-33 | what is read, for every alias, schema, password, address, database word and list of valid parameters without delimiters |
| ConnectionStringTheorems.DatabaseTakesParameters | src/common.cpp:87-100 | a string with both a database and parameters is read with the parameters applied and their text added to the database |
| ConnectionStringTheorems.WordStaysInAddress | src/common.cpp:94-104 | a database word that is no number is read as part of the address |
| ConnectionStringTheorems.DocumentedExample | include/redis_async/common.hpp:97-101 | the example of the documentation is read with its database in the address |
| ConnectionTexts.TimeoutIsRead | src/common.cpp:148-167 | a number as `stoul` reads it, with white space and a sign, in milliseconds, seconds or minutes, is accepted if its digits fit in 64 bits, and read as that many milliseconds if they fit as well, negative ones included |
| ConnectionStringTheorems.ParametersAreApplied | src/common.cpp:115-147 | a list of valid parameters sets each option to the last value given for it |
| ConnectionStringTheorems.RoundTripIff | src/common.cpp:22-167 | a well-formed connection string is read back as what it says if and only if it names a number for a database and no parameters, or no database and its address does not end in a number |
| ConnectionStringTheorems.NumberedDatabase | src/common.cpp:94-104 | a database written as a plain number is read back exactly if the number is below 2^31, and stays in the address otherwise |
| ConnectionStringTheorems.SplitUriIff | src/common.cpp:46-76 | for every string: alias, schema, password and path are these exactly if the string is put together from them with none holding, before its end, the delimiter that ends it |
| ConnectionStringTheorems.SplitPathIff | src/common.cpp:85-114 | for every path: database, address and text of the parameters, told by the last slash and the last question mark wherever they are; the path is refused exactly if no address is left |
| ConnectionStringTheorems.ParseFailsIff | src/common.cpp:22-33 | for every string: it is refused as a whole exactly if it has no parts and no address to read, and otherwise for its first parameter with something wrong, with its kind of failure |
| ConnectionStringTheorems.ParseSucceeds | src/common.cpp:22-33 | every other string is read as its parts, its address and database, and its parameters, each option set by the last that names it |

## Left out

- Sockets, resolver, stream buffers, strands and write completion (transport.cpp): their outcomes are the events of the model.
- The metaprogramming of the state machine library; its ordering of events is an assumption, listed above.
- Threads, mutexes and atomics: the pool reads the size of its list outside the lock, so the bounds hold for atomic steps.
- User callbacks that call back into the pool, that are empty, or that throw (connection_fsm.hpp:333-371): running a callback is an entry in the record.
- `send` on a transport that is not connected, which drops the message silently (connection_fsm.hpp:312).
- A refused `AUTH`, for which `authn` has no row, and replies that nobody asked for to a connection without a request in flight: runs of the pool do not contain them.
- The exception thrown for an event without a row (connection_fsm.hpp:246-254): the machine is put into a state `Faulted` instead, which reachable states exclude.
- `redis_impl` and its countdown of closed callbacks (redis_impl.cpp:67-85), which relies on each running once.
- `reserve` failing for a huge array count (parser.hpp:128), and the depth of recursion for nested arrays.
- Pools of size zero, empty addresses and unsupported schemas, which are refused by exceptions before a pool or a connection exists (connection_pool.cpp:41-45, base_connection.cpp:37-39).
- The command builders of commands.cpp and command_args.hpp, and the numeric and stream conversions of results: list building and formatting.
- The clearing of a connection's callbacks on termination (concrete_connection.hpp:50): a terminated machine makes no transition, so it calls nothing back anyway.
- Texts of log messages and errors.
- Timeouts that do not fit in 64 bits as milliseconds, which wrap or are undefined in the original; white space and letters follow the "C" locale.
- PoolSafety.HandleRead: after an event without a row the loop goes on, with a connection that ignores every event; the exception that would end it early is not part of the model.
