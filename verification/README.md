# Verified models of the clone-proxy repository's concurrent and incremental code

This project models, in Dafny, the parts of the repository whose correctness is hardest to see
by reading: the event-driven HTTP engine of httperf, the reference protocol of Apache's
mod_mem_cache, the start barrier and transaction dispenser of a SQL trace replayer, the
asynchronous clone proxy, and the random number generator of a queue simulation. Code that the
source writes as loops over buffers, records and tables is written as such loops here, and each
is proved against a specification; what the specification promises is proved as lemmas over all
inputs, all runs or all interleavings. `dafny verify dfyconfig.toml` checks everything.

## What is proved

**Replies (`Numerals`, `ReplyStream`, `ReplyReceiver`, `WireReplies`, `EndOfConnection`,
`LongLines`).** `ReplyStream` says what one byte of a reply does to a connection. `ReplyReceiver`
is the buffer-at-a-time parser, with its 1024-byte line buffer, proved to have the effect of its
bytes one by one. So the result does not depend on how the network cuts the stream, and well-formed
pipelined replies (with Content-Length, chunked, or delimited by the end of the connection) are
read back exactly. Which statuses have no body, which digits there are and how headers frame a body
is said there in tables of its own, not by the functions of the model. A negative result: a reply
with status 100 swallows the head of the reply behind it. `Numerals` models strtoul and the sscanf
of the status line. `EndOfConnection`
says what becomes of a well-formed reply that is cut at any byte: a body that is shorter than its
announced length is taken to be complete. `LongLines` shows that independence ends exactly at lines
of 1023 bytes.

**Timers (`TimerWheel`).** The hashed wheel with delta-encoded doubly linked spokes refines a map
from timers to remaining ticks. A run of the wheel, with callbacks that schedule and cancel while
a spoke is drained, is a run of that map; records are partitioned between heads, spokes, free
list and the active timer.

**Sessions (`SessionModel`, `SessionEngine`, `SessionOutcome`).** Ring buffers of pending calls, queues of
connections, reconnection and retries. `SessionModel` is the event machine with its invariants and
theorems over all runs; `SessionEngine` is the code, proved to take the machine's steps. One of the
results is negative: with HTTP/1.0 the connection is closed after every reply, and a call that is
then still pending in the slot (piped behind the first, or retried) loses its connection.
`StrandsExactlyWhen` says for which parameters that can happen, with a run for each of them.
`SessionOutcome` is a watcher who sees only the events, and who is proved to know in every run which
events are possible and when the session fails.

**Requests, names, ports, references (`RequestWriter`, `HostTable`, `PortPool`, `RefCounts`,
`Holdings`, `CoreLoop`).** Partial writes with saved fragments; an open-addressing table in which the first
binding wins; a bitmap allocator with a next-fit cursor, which can report -1 while ports are free,
namely exactly when these are in the current word before the cursor; reference counts that equal
the holders in every run, with event handlers that may close connections at any point; `Holdings`
says what each step is for in terms of the holders alone, and `CoreLoop` that nothing is left half
destroyed. A negative
result is about conn_failure and conn_timeout, which close a connection after its handlers have
run: outside core_loop it may have been freed then, and its place taken by another connection.

**Cache (`MemCacheModel`, `CacheDirectory`, `MemCache`, `HeaderTable`).** All interleavings of the
critical sections of the mutex build. To its users the cache is a plain directory
(`CacheDirectory`), in which what has been cached is found. In `MemCache` memory is a map from which freed objects disappear, so each
access is proved to be to an allocated object. `HeaderTable` is the serialization of headers into
one block.

**Trace replay (`StartBarrier`, `TraceDispenser`, `TraceReplay`).** Three negative results belong to
this part. pthread_cond_wait may wake up spuriously, and one such wakeup can leave another worker
waiting for ever when there are two workers or more. Having at least as many transactions as
workers does not ensure that each worker gets one: a worker that comes late indexes past the trace.
And a transaction of the trace that ends with BEGIN leaves one open in the database that the
worker's flag does not know of. `SafeExactlyForOne`, `NobodyIsLeftWaiting`, `BrokenExactlyWhenLate`,
`InTimeExactlyWhen` and `SeparateExactlyWhen` give the conditions under which the code does what it
should.

**Clone proxy (`CloneProxy`, `HandleClient`, `ForwardLoops`).** An interleaved system of four
processes and a bounded pipe. Once the processes run, nothing that the duplicate does or leaves
undone can be seen in production, and the duplicate gets the production stream without whole
refused chunks. Before that, handle_client waits for the duplicate to accept a connection. From the
acceptance of a client on, clone proxy and plain proxy simulate each other exactly when the
duplicate accepts and the pipe can be made; otherwise a client is left waiting, or dropped, that
the plain proxy would serve.

**Random numbers (`Schrage`).** The generator is multiplication by 7^5 modulo 2^31 - 1 for every
32-bit state, and its documented check value is right.

## Where code and comments differ

- `scripts/queue_sim.c`: the comment says that a positive seed seeds the generator and that the
  result is between 0 and 1. Any seed other than 0 does, the seeding call also steps, and the
  result is 1 when the generator is stuck.
- `test-cases/apache-21287/mod_mem_cache.c`: the comment of remove_url describes a reference that
  is taken for the removal; the mutex build takes none.
- `eval/httperf-0.9.0/src/core.c`: port_get's message says that it is out of port numbers; ports
  may be free in the current word before the cursor.

## Model

| member | source | states |
|---|---|---|
| `Numerals.ReadBack` | eval/httperf-0.9.0/src/http.c:235-337 | strtoul, in the base of a Content-Length or of a chunk size, reads back every way to write a number: white space, a sign (a negative number wraps around), 0x in base 16, digits of either case from an explicit table, any zeros in front; too large a number is ULONG_MAX; it stops at the first byte that does not go on with the number |
| `Numerals.ReadNothing` | eval/httperf-0.9.0/src/http.c:337-347 | and where there are no digits it finds no number |
| `Numerals.ReadBackAfterBlank` | eval/httperf-0.9.0/src/http.c:231-238 | so a number with one blank before it, as after the colon of a header |
| `Numerals.StatusReadBack` | eval/httperf-0.9.0/src/http.c:123-127 | scanning a written status line gives back its version and status |
| `Numerals.ScanIsCut` | eval/httperf-0.9.0/src/http.c:123 | what "%u" reads is the number modulo 2^32 |
| `Numerals.FlawsAreFound` | eval/httperf-0.9.0/src/http.c:123-127 | a line that lacks HTTP/, one of the three numbers or the dot, at whatever place, is no status line |
| `ReplyStream.StepKeepsInv` | eval/httperf-0.9.0/src/http.c:359-409 | no byte of a reply can break what the connection relies on: a line that fits its buffer, content counts within the announced length |
| `ReplyStream.FeedAppend` | eval/httperf-0.9.0/src/core.c:615-642 | reading two stretches of bytes one after the other is reading them together |
| `ReplyStream.FeedAllIsFeed` | eval/httperf-0.9.0/src/core.c:541-645 | any sequence of reads leads to the state that one read of all the bytes leads to |
| `ReplyStream.FragmentationIndependence` | eval/httperf-0.9.0/src/core.c:615-645 | two ways to cut a stream into reads give the same final state, statuses, versions, header lines, contents and bodies, for all streams |
| `ReplyStream.ReadLineThatFits` | eval/httperf-0.9.0/src/http.c:53-104 | get_line on a line that fits takes it up to its LF and completes it |
| `ReplyStream.ReadLineFeeds` | eval/httperf-0.9.0/src/http.c:53-104 | what get_line does with a stretch of a buffer is what its bytes do one by one |
| `ReplyReceiver.Conn.constructor` | eval/httperf-0.9.0/src/conn.c:45-60 | a connection starts with an empty line buffer, expecting a status line |
| `ReplyReceiver.Conn.Expect` | eval/httperf-0.9.0/src/core.c:494-508 | a call that has been sent joins the receive queue and nothing else changes |
| `ReplyReceiver.Conn.GetLine` | eval/httperf-0.9.0/src/http.c:53-104 | appends to the line buffer, in place, just what the read-a-line specification takes; cuts a line at 1023 bytes |
| `ReplyReceiver.Conn.ChopLine` | eval/httperf-0.9.0/src/http.c:90-101 | drops LF or CR LF and puts the NUL |
| `ReplyReceiver.Conn.ParseStatusLine` | eval/httperf-0.9.0/src/http.c:106-195 | takes bytes of a status line with the effect that these bytes have one by one |
| `ReplyReceiver.Conn.BeginReply` | eval/httperf-0.9.0/src/http.c:123-194 | sets version, status, whether there is a body, and the next state, from a scanned status line; a line that cannot be scanned counts as HTTP/1.0 with status 599 |
| `ReplyReceiver.Conn.ParseHeaders` | eval/httperf-0.9.0/src/http.c:197-262 | takes header lines with the effect that their bytes have one by one |
| `ReplyReceiver.Conn.HeaderText` | eval/httperf-0.9.0/src/http.c:207-259 | one header line, or the empty line that decides how the body is delimited |
| `ReplyReceiver.Conn.FrameBody` | eval/httperf-0.9.0/src/http.c:229-254 | the framing headers, compared without case: Content-Length (0 means no body) and Transfer-Encoding |
| `ReplyReceiver.Conn.ParseFooters` | eval/httperf-0.9.0/src/http.c:264-291 | takes footer lines with the effect that their bytes have one by one |
| `ReplyReceiver.Conn.ParseData` | eval/httperf-0.9.0/src/http.c:293-317 | delivers content up to what is missing and leaves the rest of the buffer |
| `ReplyReceiver.Conn.XferChunked` | eval/httperf-0.9.0/src/http.c:319-356 | takes chunk lines and chunk data with the effect that their bytes have one by one |
| `ReplyReceiver.Conn.NextChunk` | eval/httperf-0.9.0/src/http.c:328-353 | a chunk line: empty, unusable, the last one, or one that lengthens the content |
| `ReplyReceiver.Conn.ProcessReplyBytes` | eval/httperf-0.9.0/src/http.c:358-409 | runs the state machine until the reply is done or the buffer is empty; the consumed bytes have the effect they have one by one |
| `ReplyReceiver.Conn.DoRecv` | eval/httperf-0.9.0/src/core.c:615-645 | one read, with any number of pipelined replies in it, ends in the state that the fold over its bytes gives |
| `ReplyReceiver.Conn.RecvAll` | eval/httperf-0.9.0/src/core.c:541-645 | a sequence of reads ends in the state that the fold gives for them |
| `ReplyReceiver.Conn.RecvEof` | eval/httperf-0.9.0/src/core.c:570-593 | the end of the connection completes the reply in progress exactly when its body is being received and has no chunks, and otherwise fails |
| `WireReplies.BareLf` | eval/httperf-0.9.0/src/http.c:90-101 | a line that ends with a bare LF is read like one that ends with CR LF |
| `WireReplies.FeedHeaders` | eval/httperf-0.9.0/src/http.c:207-259 | headers in any order, names of framing headers in any case, have just the effect on the framing that they should have: the last length counts, a length of 0 and a coding in chunks stay |
| `WireReplies.FeedChunks` | eval/httperf-0.9.0/src/http.c:319-356 | chunked round trip (RFC 7230 section 4.1): any list of non-empty chunks, of any bytes, is read back as their concatenation, for sizes in either case, with zeros, blanks, a plus or 0x before the digits, and whatever fits behind them on the size lines and does not go on with the number |
| `WireReplies.FeedPlainChunks` | eval/httperf-0.9.0/src/http.c:319-356 | so in particular the usual encoding, with nothing behind the sizes |
| `WireReplies.BadChunkLine` | eval/httperf-0.9.0/src/http.c:337-347 | a chunk line without a number is skipped |
| `WireReplies.HugeChunkLine` | eval/httperf-0.9.0/src/http.c:337-347 | and so is one with too large a number |
| `WireReplies.FeedReply` | eval/httperf-0.9.0/src/http.c:358-409 | one well-formed reply is read back exactly, with none of the bytes of the next one consumed; replies to HEAD and those with a status of 100 to 199, 204, 205 or 304 have no body, whatever headers they have |
| `WireReplies.FeedPipeline` | eval/httperf-0.9.0/src/core.c:615-642 | pipelined replies go to the waiting calls in order, each exactly as it was written |
| `WireReplies.PipelineInAnyFragments` | eval/httperf-0.9.0/src/core.c:615-645 | the same for every way to cut the stream into reads |
| `WireReplies.NothingMoreExpected` | eval/httperf-0.9.0/src/core.c:615-622 | bytes for which no call waits end in the failing assertion |
| `WireReplies.NoEndExpected` | eval/httperf-0.9.0/src/core.c:549-550 | and so does the end of the connection |
| `WireReplies.InterimSwallowsFinal` | eval/httperf-0.9.0/src/http.c:155-228 | a reply with status 100 does not end with the empty line behind its headers: the status line and headers of the reply that follows are taken for more headers, and the call is told of status 100 |
| `WireReplies.CloseDelimited` | eval/httperf-0.9.0/src/core.c:583-591 | without a length, or with one that is not reached, the rest of the connection is the body |
| `EndOfConnection.LastByteFinishes` | eval/httperf-0.9.0/src/http.c:358-409 | bytes that finish one reply and lead to the start of the next do so with the last of them |
| `EndOfConnection.CutShort` | eval/httperf-0.9.0/src/core.c:582-591 | of every well-formed reply, cut at every byte: it has failed, unless it has an announced length and all its headers have come; then the call is told that it is complete, with as much of the body as there is |
| `LongLines.ShortLine` | eval/httperf-0.9.0/src/http.c:72-103 | a line that fits is found whole in every fragmentation |
| `LongLines.LongLine` | eval/httperf-0.9.0/src/http.c:74-90 | one read of a line that does not fit gives its first 1023 bytes as the only line |
| `LongLines.FragmentationMattersForLongLines` | eval/httperf-0.9.0/src/http.c:74-90 | what get_line finds is independent of fragmentation exactly for lines of at most 1023 bytes with the LF |
| `TimerWheel.CountsDown` | eval/httperf-0.9.0/src/timer.c:99-118 | in every run of the abstract machine a timer loses one tick per tick until it fires or is cancelled |
| `TimerWheel.FiresOnTime` | eval/httperf-0.9.0/src/timer.c:99-118 | a timer scheduled for some ticks and not cancelled fires after exactly that many |
| `TimerWheel.TickFiresTheDue` | eval/httperf-0.9.0/src/timer.c:101-107 | a timer fires in a tick exactly if it was due at its start and no callback has cancelled it before |
| `TimerWheel.CancelledDoesNotFire` | eval/httperf-0.9.0/src/timer.c:101-107 | a timer that a callback has cancelled, or that has fired, does not fire in this tick any more, even if its record is scheduled again |
| `TimerWheel.Wheel.constructor` | eval/httperf-0.9.0/src/timer.c:81-88 | an empty wheel is well formed and has no pending timers |
| `TimerWheel.Wheel.Done` | eval/httperf-0.9.0/src/timer.c:58-64 | pushes a record on the free list, which stays well formed |
| `TimerWheel.Wheel.Take` | eval/httperf-0.9.0/src/timer.c:130-145 | takes the record that was put on the free list last, or makes one if there is none; no pending timer changes |
| `TimerWheel.Wheel.Schedule` | eval/httperf-0.9.0/src/timer.c:121-188 | adds one pending timer with the requested ticks (at least one) and changes no other timer's remaining ticks |
| `TimerWheel.Wheel.Find` | eval/httperf-0.9.0/src/timer.c:162-169 | the walk along a spoke stops where the deltas add up to the requested turns |
| `TimerWheel.Wheel.InsertAfter` | eval/httperf-0.9.0/src/timer.c:170-179 | splicing into the doubly linked spoke and adjusting the next delta keeps the wheel well formed and adds just this timer |
| `TimerWheel.Wheel.Cancel` | eval/httperf-0.9.0/src/timer.c:190-213 | removes one pending timer and changes no other; is refused for the active timer; its assertion on the back link holds |
| `TimerWheel.Wheel.CallbackStep` | eval/httperf-0.9.0/src/timer.c:104 | a callback may schedule, cancel any pending timer, or try to cancel itself, while a spoke is drained: the wheel stays well formed and the map changes as it should |
| `TimerWheel.Wheel.Callback` | eval/httperf-0.9.0/src/timer.c:104 | the same for any number of such actions |
| `TimerWheel.Wheel.FirstIsLeast` | eval/httperf-0.9.0/src/timer.c:101 | the first timer of the spoke being drained has the fewest turns to go, so the loop may stop at it |
| `TimerWheel.Wheel.Fire` | eval/httperf-0.9.0/src/timer.c:101-104 | the first timer with delta 0 has no ticks left and is the active one now |
| `TimerWheel.Wheel.Release` | eval/httperf-0.9.0/src/timer.c:105-106 | the active record goes to the free list, and the rest of the spoke is intact |
| `TimerWheel.Wheel.Close` | eval/httperf-0.9.0/src/timer.c:108-117 | the end of a tick: the head is relinked, one delta lowered, and every remaining count has gone down by one |
| `TimerWheel.Wheel.Drain` | eval/httperf-0.9.0/src/timer.c:101-107 | the loop over due timers ends, though callbacks schedule and cancel, and is a legal run of the abstract machine |
| `TimerWheel.Wheel.Tick` | eval/httperf-0.9.0/src/timer.c:99-118 | a tick is a legal drain followed by one advance of time |
| `TimerWheel.Wheel.TimerTick` | eval/httperf-0.9.0/src/timer.c:90-119 | any number of intervals is a legal run with that many advances; every record is a list head, on a spoke, on the free list, or active |
| `SessionModel.ReplyIsForFirstCall` | eval/httperf-0.9.0/src/gen/session.c:301-305 | call_done's assertion: the call whose reply is complete is the first of its slot, and the counters are positive |
| `SessionModel.StepKeepsInv` | eval/httperf-0.9.0/src/gen/session.c:125-427 | every event keeps: on a connection that is ready the receive queue followed by the send queue is the slot's pending calls; counters within bounds; calls conserved |
| `SessionModel.ReplyIsConserved` | eval/httperf-0.9.0/src/gen/session.c:300-329 | a completed reply conserves calls, and a retried call always finds room |
| `SessionModel.CallsAreConserved` | eval/httperf-0.9.0/src/gen/session.c:285-427 | in every run, each call is pending in exactly one slot or completed, as often as it was issued |
| `SessionModel.PendingIsFifo` | eval/httperf-0.9.0/src/gen/session.c:125-186 | over every run a slot's pending calls are a queue: only replies take calls off, from the front, whatever connections fail |
| `SessionModel.ReconnectSendsAll` | eval/httperf-0.9.0/src/gen/session.c:246-268 | after a failure the next connection is given all pending calls in their original order, at once if it is ready at once, or else when it is |
| `SessionOutcome.FailsExactlyWhen` | eval/httperf-0.9.0/src/gen/session.c:246-268 | over all runs and stated over the events: when a connection fails the session fails exactly if the next connect is refused, or if failures are not retried and no reply has come on the slot's connection since it was made |
| `SessionOutcome.OutcomesAreKnown` | eval/httperf-0.9.0/src/gen/session.c:246-330 | over all runs, what an event makes of the session (goes on, fails, exits) follows from the events before it alone: calls pending, connections made, calls sent, replies since |
| `SessionOutcome.EventsArePossible` | eval/httperf-0.9.0/src/gen/session.c:125-283 | and so does what can happen next on a connection: it becomes ready once, calls are sent when it is ready, replies come for calls that have been sent |
| `SessionModel.StrandsExactlyWhen` | eval/httperf-0.9.0/src/gen/session.c:318-330 | every pending call has a connection in all runs, unless HTTP/1.0 is combined with piping or with retries: then some run leaves a call without one |
| `SessionModel.StrandedForever` | eval/httperf-0.9.0/src/gen/session.c:417-425 | and a full slot without a connection is never served again |
| `SessionEngine.ConnInfo.CreateConn` | eval/httperf-0.9.0/src/gen/session.c:125-160 | a new connection starts with no call handed over |
| `SessionEngine.ConnInfo.SendPending` | eval/httperf-0.9.0/src/gen/session.c:178-185 | the loop over the ring hands over exactly the calls not yet sent, in order |
| `SessionEngine.ConnInfo.SendCalls` | eval/httperf-0.9.0/src/gen/session.c:162-186 | creates a connection, waits, or sends |
| `SessionEngine.ConnInfo.Append` | eval/httperf-0.9.0/src/gen/session.c:420-423 | the ring gets one call at its end |
| `SessionEngine.ConnInfo.TakeReply` | eval/httperf-0.9.0/src/gen/session.c:299-308 | the first call leaves the ring and the receive queue, and the connection counts as successful; the assertion holds |
| `SessionEngine.Sess.SendDone` | eval/httperf-0.9.0/src/core.c:479-503 | a call that has been sent waits for its reply: the step of the model, which keeps its invariant |
| `SessionEngine.Sess.constructor` | eval/httperf-0.9.0/src/gen/session.c:332-378 | a session starts with empty slots |
| `SessionEngine.Sess.ConnConnected` | eval/httperf-0.9.0/src/gen/session.c:216-244 | the handler takes the step of the model |
| `SessionEngine.Sess.ConnFailed` | eval/httperf-0.9.0/src/gen/session.c:246-268 | the handler takes the step of the model: reconnect, or fail the session |
| `SessionEngine.Sess.ConnTimeout` | eval/httperf-0.9.0/src/gen/session.c:270-283 | the handler takes the step of the model |
| `SessionEngine.Sess.IssueCall` | eval/httperf-0.9.0/src/gen/session.c:402-432 | the search for the first slot with room, and what is done with it |
| `SessionEngine.Sess.SessionIssueCall` | eval/httperf-0.9.0/src/gen/session.c:402-432 | issuing takes the step of the model, and keeps its invariant |
| `SessionEngine.Sess.CallDone` | eval/httperf-0.9.0/src/gen/session.c:285-330 | ring, retry, failure and the closing of old connections, in the order of the source |
| `SessionEngine.Sess.ReplyDone` | eval/httperf-0.9.0/src/core.c:522-539 | the end of a reply takes the step of the model |
| `SessionEngine.Sess.CurrentQlen` | eval/httperf-0.9.0/src/gen/session.c:387-400 | the sum over the slots is the number of pending calls |
| `RequestWriter.Request.Prepare` | eval/httperf-0.9.0/src/core.c:1067-1068 | a request is ready to be sent as a whole |
| `RequestWriter.Request.Advance` | eval/httperf-0.9.0/src/core.c:450-471 | after a partial writev the bytes left are exactly those not sent, and finished fragments are restored; it is done exactly when all was sent |
| `RequestWriter.Request.Restored` | eval/httperf-0.9.0/src/core.c:466-468 | when all has been sent, every fragment has its original base and length |
| `RequestWriter.Request.Send` | eval/httperf-0.9.0/src/core.c:402-476 | for every sequence of writev results the wire has a prefix of the request, of the expected length, and on completion all of it with all fragments restored |
| `HostTable.HashClearsTop` | eval/httperf-0.9.0/src/core.c:185-193 | the ELF hash, in 64 bits, leaves the sign bit of the int result clear |
| `HostTable.FoldMovesTop` | eval/httperf-0.9.0/src/core.c:187-192 | the top nibble is folded into the nibble above the lowest |
| `HostTable.HashOneMore` | eval/httperf-0.9.0/src/core.c:185-193 | the hash takes the characters of the name in their order |
| `HostTable.PortIsExtended` | eval/httperf-0.9.0/src/core.c:179 | it starts with the port, an int, sign-extended to an unsigned long |
| `HostTable.IndexIsValid` | eval/httperf-0.9.0/src/core.c:175-202 | the hash modulo 1024 is an index into the table for every port that is not negative, and for every non-empty name |
| `HostTable.HashTable.Enter` | eval/httperf-0.9.0/src/core.c:197-216 | probing ends while a slot is free, and adds one binding |
| `HostTable.HashTable.Lookup` | eval/httperf-0.9.0/src/core.c:218-237 | lookup returns the earliest binding of server and port, or nothing if there is none, also in a full table |
| `PortPool.LffsIsLowest` | eval/httperf-0.9.0/src/core.c:239-259 | two calls of ffs on int halves find the lowest bit of a 64-bit word |
| `PortPool.PortsAreDistinct` | eval/httperf-0.9.0/src/core.c:307 | word and bit determine the port, in 1024 to 65535, and the other way round |
| `PortPool.Pool.constructor` | eval/httperf-0.9.0/src/core.c:698 | at first all ports are free |
| `PortPool.Pool.Put` | eval/httperf-0.9.0/src/core.c:261-270 | exactly this port becomes free |
| `PortPool.Pool.TakeBit` | eval/httperf-0.9.0/src/core.c:299-308 | exactly this port becomes held, and the cursor is behind it |
| `PortPool.Pool.Get` | eval/httperf-0.9.0/src/core.c:272-309 | the next free port by next fit, free before and held after; -1 exactly when no other word has a free port and the current one has none from the cursor on |
| `PortPool.Pool.OutOfPortsExactlyWhen` | eval/httperf-0.9.0/src/core.c:279-296 | that is: exactly when all free ports are in the current word before the cursor, so -1 does not mean that none is free |
| `PortPool.RunDry` | eval/httperf-0.9.0/src/core.c:261-309 | and that happens: ports are taken until there are none, one of the last word is put back, and the answer is -1 although it is free |
| `RefCounts.StepKeepsInv` | eval/httperf-0.9.0/src/core.c:1091-1152 | every step keeps counts equal to holders, free lists exact, and closed connections empty |
| `RefCounts.CountsAreHolders` | eval/httperf-0.9.0/src/object.c:43-95 | in every run a call's count is the number of its holders, and it is on the free list, once, exactly when it has none and the handlers of its destruction are done |
| `RefCounts.ConnsAreFreedInTime` | eval/httperf-0.9.0/src/conn.c:88-95 | a connection is freed exactly when core_close is done with it and core_loop has let go, and then conn_deinit's assertions hold |
| `RefCounts.BusyIsThere` | eval/httperf-0.9.0/src/core.c:1219-1252 | the connection that core_loop works on is not freed under it |
| `Holdings.StepMoves` | eval/httperf-0.9.0/src/core.c:1070-1152 | every step of core_send, do_send, recv_done, core_close and core_loop moves calls and connections between those who have them just as it should, stated without counts: queues are first in first out, new objects are such as nobody has |
| `CoreLoop.Core.CoreClose` | eval/httperf-0.9.0/src/core.c:1091-1152 | from the first step to the last, with handlers running between: as many drops as calls were queued, then the connection's own reference, and its destruction unless core_loop holds it; no call or connection is left half destroyed, and the events signalled are the destructions of calls, the close and that of the connection, in this order; on a connection that is closing or freed it does nothing |
| `CoreLoop.Core.ConnFailure` | eval/httperf-0.9.0/src/core.c:311-320 | handlers, and then core_close of whatever is in the connection's place: the connection that was meant, if core_loop holds it or no handler has closed it |
| `CoreLoop.Core.ConnTimeout` | eval/httperf-0.9.0/src/core.c:322-358 | the same, after the watchdog has been forgotten |
| `CoreLoop.StaysTheSame` | eval/httperf-0.9.0/src/object.c:167-174 | whatever handlers do, a connection that is held, or that they do not close, is neither freed nor replaced |
| `CoreLoop.LateCloseCanHitAnother` | eval/httperf-0.9.0/src/object.c:111-127 | a connection that is not held can be closed and its place given to another, live one, by handlers: the run |
| `CoreLoop.MeantExactlyWhenHeld` | eval/httperf-0.9.0/src/core.c:317-319 | so the connection that is closed after the handlers is sure to be the one that was meant exactly when core_loop holds it |
| `CoreLoop.Core.DropSends` | eval/httperf-0.9.0/src/core.c:1112-1117 | the loop drops each call of the send queue once, destroys those that nobody else has, and leaves it empty, whatever the handlers do |
| `CoreLoop.Core.DropRecvs` | eval/httperf-0.9.0/src/core.c:1119-1124 | the same for the receive queue |
| `CoreLoop.Core.DropFirst` | eval/httperf-0.9.0/src/core.c:1112-1124 | a turn of either loop: the first call is dropped, and its destruction runs to its end exactly if nobody else has it |
| `CoreLoop.EndClose` | eval/httperf-0.9.0/src/core.c:1131 | core_close's assertion on the state holds |
| `CoreLoop.Core.FinishSend` | eval/httperf-0.9.0/src/core.c:479-503 | the end of do_send: off the queue, handlers, and then the reference is passed on, or dropped when the connection was closed meanwhile; the call is destroyed exactly if it has no holder then, and the events signalled are just these two |
| `CoreLoop.Core.RecvDone` | eval/httperf-0.9.0/src/core.c:522-539 | recv_done: off the queue, handlers, and then the queue's reference is dropped; the call is destroyed exactly if it has no other holder then, and the events signalled are just these two |
| `CoreLoop.Core.DestroyCall` | eval/httperf-0.9.0/src/object.c:43-95 | at the last reference the handlers of destruction run, and only then the call goes to the free list; otherwise nothing happens |
| `CoreLoop.Core.Process` | eval/httperf-0.9.0/src/core.c:1219-1252 | core_loop holds the connection from before it processes it until after; then it is destroyed exactly if it has been closed meanwhile |
| `MemCacheModel.StepKeepsInv` | test-cases/apache-21287/mod_mem_cache.c:205-835 | every critical section of every function keeps the reference protocol |
| `MemCacheModel.CacheIsSafe` | test-cases/apache-21287/mod_mem_cache.c:324-411 | in every interleaving: allocated exactly while in the table or held; the count is the number of handles; marked for cleanup implies out of the table; created objects are there or freed, once |
| `MemCacheModel.NoUseAfterFree` | test-cases/apache-21287/mod_mem_cache.c:324-411 | in every interleaving no step touches a freed object |
| `MemCacheModel.NothingLeaks` | test-cases/apache-21287/mod_mem_cache.c:412-451 | with all handles released and the table empty everything created has been freed once |
| `MemCacheModel.IncompleteIsHeld` | test-cases/apache-21287/mod_mem_cache.c:332-355 | an object whose caching failed goes with its last holder and does not block its key |
| `CacheDirectory.CacheIsDirectory` | test-cases/apache-21287/mod_mem_cache.c:475-835 | in every interleaving the cache looks like a plain directory, without counts and without the freeing of memory: which object each key and each handle has, and which objects are complete |
| `CacheDirectory.OpenHits` | test-cases/apache-21287/mod_mem_cache.c:613-692 | in every interleaving, once a key has an entry that is complete and as long as no event removes or evicts that, opening the key gives a handle on this object, which has one more holder |
| `CacheDirectory.CachedIsFound` | test-cases/apache-21287/mod_mem_cache.c:475-692 | so over every run: an object that is created under a key without an entry, and completed, is what opening the key gives, if no event removes or evicts it meanwhile |
| `MemCache.Cache.MemcacheCacheFree` | test-cases/apache-21287/mod_mem_cache.c:205-231 | frees an object that the table gives up, or marks it if it is held |
| `MemCache.Cache.CacheInsert` | test-cases/apache-21287/mod_mem_cache.c:578-585 | evictions, then the new entry |
| `MemCache.Cache.CreateEntity` | test-cases/apache-21287/mod_mem_cache.c:475-611 | takes the step of the model; the loser of a collision frees its own object |
| `MemCache.Cache.WriteBodyDone` | test-cases/apache-21287/mod_mem_cache.c:1021-1087 | takes the step of the model: the object is complete |
| `MemCache.Cache.OpenEntity` | test-cases/apache-21287/mod_mem_cache.c:613-692 | it succeeds if and only if the key has an entry and its object is complete; then there is one more holder, the new handle, and otherwise nothing changes |
| `MemCache.Cache.RemoveEntity` | test-cases/apache-21287/mod_mem_cache.c:694-721 | takes the step of the model |
| `MemCache.Cache.RemoveUrl` | test-cases/apache-21287/mod_mem_cache.c:781-835 | takes the step of the model |
| `MemCache.Cache.BeginRelease` | test-cases/apache-21287/mod_mem_cache.c:324-335 | the unlocked test of complete |
| `MemCache.Cache.Drop` | test-cases/apache-21287/mod_mem_cache.c:335-355 | takes the step of the model; the object is removed from a table that still exists |
| `MemCache.Cache.Release` | test-cases/apache-21287/mod_mem_cache.c:396-410 | takes the step of the model; frees at zero when marked |
| `MemCache.Cache.CleanupCacheMem` | test-cases/apache-21287/mod_mem_cache.c:413-451 | pops and frees or marks everything, in any order |
| `HeaderTable.CountBytes` | test-cases/apache-21287/mod_mem_cache.c:741-745 | the first pass counts the bytes that the second one writes |
| `HeaderTable.CopyHeader` | test-cases/apache-21287/mod_mem_cache.c:754-764 | writes key and value, each with its NUL, in bounds |
| `HeaderTable.SerializeTable` | test-cases/apache-21287/mod_mem_cache.c:722-767 | the block is the image of the table and the cells are its pointers; when an allocation fails nothing is stored but the count is |
| `HeaderTable.CellsAreDisjoint` | test-cases/apache-21287/mod_mem_cache.c:754-764 | cells do not overlap |
| `HeaderTable.CellsHoldTheirStrings` | test-cases/apache-21287/mod_mem_cache.c:768-779 | each pointer leads to its string, for all NUL-free strings |
| `HeaderTable.UnserializeTable` | test-cases/apache-21287/mod_mem_cache.c:768-779 | gives back the table that was serialized, in order |
| `CloneProxy.StepKeepsInv` | modules/proxy/proxyClone/proxy.c:474-591 | every step of any process keeps the invariants of the pipe |
| `HandleClient.ProcessesRunAsInCloneProxy` | modules/proxy/proxyClone/proxy.c:334-382 | whatever becomes of a client, its processes do what CloneProxy says they can do from their start |
| `HandleClient.ProcessesRunOnceForked` | modules/proxy/proxyClone/proxy.c:334-382 | and they can do it as soon as they have been forked, in the order T1 to T4, whoever else has not been |
| `HandleClient.ClientsSeeThePlainProxy` | modules/proxy/proxyClone/proxy.c:288-404 | from its acceptance on, what the asynchronous proxy does to a client and a server the plain one could have done, unless it has given up |
| `HandleClient.ClientsAreServed` | modules/proxy/proxyClone/proxy.c:288-404 | if the duplicate accepts the connection and the pipe can be made, every continuation of the plain proxy is possible from every state that keeps the invariants, even if the duplicate's processes never move |
| `HandleClient.ServedFromEveryState` | modules/proxy/proxyClone/proxy.c:288-404 | so wherever a run from a client's acceptance on has come to |
| `HandleClient.LooksPlainExactlyWhen` | modules/proxy/proxyClone/proxy.c:302-311 | a run looks like one of the plain proxy exactly when neither the connect to the duplicate nor the making of the pipe has failed |
| `HandleClient.NothingIsServed` | modules/proxy/proxyClone/proxy.c:305-311 | while the duplicate has not accepted the connection, or if it refuses it, nothing is forwarded between client and server |
| `HandleClient.ServesAsPlainExactlyWhen` | modules/proxy/proxyClone/proxy.c:288-404 | clients can see exactly what the plain proxy can show them if and only if the duplicate accepts the connection and the pipe can be made |
| `HandleClient.DuplicateRefuses` | modules/proxy/proxyClone/proxy.c:307-311 | a client that is dropped although its server is there, because the duplicate refuses the connection |
| `CloneProxy.PipeNeverFails` | modules/proxy/proxyClone/proxy.c:562-569 | a write to the pipe neither waits nor kills T1, since T1 keeps a read end open; and T3 never sees the pipe's end |
| `CloneProxy.EndsAreTheLiving` | modules/proxy/proxyClone/proxy.c:313-382 | in every run the processes that have the pipe open, at either end, are just those that have not ended |
| `CloneProxy.DuplicateGetsTheStream` | modules/proxy/proxyClone/proxy.c:580-591 | what the duplicate was sent, T3's buffer and the pipe are the accepted chunks: the production stream without refused chunks, and all of it if none was refused |
| `CloneProxy.BigPipeRefusesNone` | modules/proxy/proxyClone/proxy.c:313-325 | a pipe that has room for the whole request stream before it can be full refuses nothing |
| `ForwardLoops.System.Recv` | modules/proxy/proxyClone/proxy.c:559 | recv fills the reused buffer with the next chunk |
| `ForwardLoops.System.WritePipe` | modules/proxy/proxyClone/proxy.c:562 | the non-blocking write: all of the chunk or nothing |
| `ForwardLoops.SendAndCopy` | modules/proxy/proxyClone/proxy.c:560-569 | the loop body sends first and copies after |
| `ForwardLoops.System.ReadPipe` | modules/proxy/proxyClone/proxy.c:586 | a read takes some of what is in the pipe, or still waits; it never sees the end |
| `ForwardLoops.ForwardData` | modules/proxy/proxyClone/proxy.c:473-489 | with the other processes running in between, all the server's chunks go to the client, or T2 is killed by a send with a prefix sent |
| `ForwardLoops.ForwardDataPipe` | modules/proxy/proxyClone/proxy.c:579-596 | the duplicate is sent the bytes read from the pipe, in order; a killed T3 loses those of its last read |
| `ForwardLoops.ForwardDataAsynch` | modules/proxy/proxyClone/proxy.c:554-577 | with the other processes running in between, all the client's chunks go to the server, or T1 is killed by a send with a prefix sent |
| `StartBarrier.StepKeepsLocks` | test-cases/mysql-644/sqlreplay/runtran.cc:376-394 | each mutex is held by whoever the code says |
| `StartBarrier.StepKeepsWorkers` | test-cases/mysql-644/sqlreplay/runtran.cc:376-394 | once main has seen the count at zero every worker has cond_m or is past it |
| `StartBarrier.NoLostWakeup` | test-cases/mysql-644/sqlreplay/runtran.cc:749-779 | if main left its loop with the count at zero, all workers are in or past the wait when it broadcasts, and none waits afterwards, for any number of workers |
| `StartBarrier.NobodyIsLeftWaiting` | test-cases/mysql-644/sqlreplay/runtran.cc:749-757 | so nobody is left waiting: without wakeups other than by the broadcast, or with one worker |
| `StartBarrier.WakeUpCanStrand` | test-cases/mysql-644/sqlreplay/runtran.cc:389-393 | with two workers or more, one spurious wakeup is enough to leave a worker waiting |
| `StartBarrier.SafeExactlyForOne` | test-cases/mysql-644/sqlreplay/runtran.cc:376-394 | over all runs: the barrier is sure to leave nobody waiting exactly when there is one worker at most |
| `StartBarrier.StrandedForever` | test-cases/mysql-644/sqlreplay/runtran.cc:392 | and it waits for ever |
| `StartBarrier.NoDeadlock` | test-cases/mysql-644/sqlreplay/runtran.cc:389-393 | taking cond_m before giving sync_m back never blocks everybody |
| `StartBarrier.EverybodyCanStart` | test-cases/mysql-644/sqlreplay/runtran.cc:376-394 | nobody is locked out: without spurious wakeups main and all workers can get past the barrier from wherever a run has come to |
| `TraceDispenser.StepKeepsInv` | test-cases/mysql-644/sqlreplay/runtran.cc:154-159 | each number is given out once, and each worker has executed whole transactions and a part of its current one |
| `TraceDispenser.ExactlyOnce` | test-cases/mysql-644/sqlreplay/runtran.cc:213-252 | when all workers have stopped, every statement was executed exactly once, each worker's log is whole transactions in order, and the counter is transactions plus workers |
| `TraceDispenser.BrokenExactlyWhenLate` | test-cases/mysql-644/sqlreplay/runtran.cc:213-218 | no generator indexes past the trace exactly when all are made before the trace runs out |
| `TraceDispenser.InTimeExactlyWhen` | test-cases/mysql-644/sqlreplay/runtran.cc:213-218 | that is certain in all runs exactly for one worker and a trace that is not empty; as many transactions as workers is not enough |
| `TraceReplay.SQLGenerator.GetNext` | test-cases/mysql-644/sqlreplay/runtran.cc:224-240 | advances the iterator or takes a new transaction, and says which |
| `TraceReplay.Perform` | test-cases/mysql-644/sqlreplay/runtran.cc:415-434 | the worker's operations grow by the next statement, with a rollback before it exactly when it is the first of another transaction and the one before has left something pending |
| `TraceReplay.OperationsAreWhole` | test-cases/mysql-644/sqlreplay/runtran.cc:402-541 | the statements among a worker's operations are its transactions, each whole and in its order |
| `TraceReplay.ApartExactlyWhen` | test-cases/mysql-644/sqlreplay/runtran.cc:418-426 | a worker starts no transaction, and ends, with one open in the database, exactly when none of those it takes ends with BEGIN |
| `TraceReplay.BeginStaysOpen` | test-cases/mysql-644/sqlreplay/runtran.cc:422-426 | the failing run, for every trace with such a transaction: the first worker takes the whole trace |
| `TraceReplay.SeparateExactlyWhen` | test-cases/mysql-644/sqlreplay/runtran.cc:402-541 | over all runs of all workers on a trace: transactions are kept apart in the database exactly when no transaction of the trace ends with BEGIN |
| `TraceReplay.Replay` | test-cases/mysql-644/sqlreplay/runtran.cc:402-541 | the loop executes the operations of the transactions that its generator takes, first the one that it holds, and keeps them apart exactly when none of them ends with BEGIN |
| `Schrage.NoOverflow` | scripts/queue_sim.c:182-189 | for every 32-bit state nothing on the way leaves the 32-bit range, and the new state is in 1 to 2^31 - 1 |
| `Schrage.StepIsMultiplication` | scripts/queue_sim.c:170-189 | Schrage's form is multiplication by 16807 modulo 2^31 - 1, for every 32-bit state, negative ones included |
| `Schrage.StepIsInjective` | scripts/queue_sim.c:182-189 | different states have different successors, modulo 2^31 - 1 |
| `Schrage.StuckExactlyWhen` | scripts/queue_sim.c:182-189 | the random number is 1 exactly from multiples of 2^31 - 1 |
| `Schrage.GeneratesPowers` | scripts/queue_sim.c:162-189 | from any other state the n-th number is the n-th power of 7^5 times the seed, and in 1 to 2^31 - 2 |
| `Schrage.StuckForever` | scripts/queue_sim.c:207-211 | from a multiple the generator is stuck, and the loop of exponential never ends |
| `Schrage.NthNumber` | scripts/queue_sim.c:162-189 | seeded with 1 the n-th number is the n-th power of 7^5, computed by squaring |
| `Schrage.TenThousandth` | scripts/queue_sim.c:165 | the check value that the source documents: seeded with 1 the 10000th number is 1043618065 |
| `Schrage.Generator.RandVal` | scripts/queue_sim.c:170-195 | seeds if asked to, steps, and returns a number in (0, 1] |
| `Schrage.Generator.Draw` | scripts/queue_sim.c:202-214 | the loop's body runs exactly once, unless the generator is stuck |

## Left out

- Sockets, select, fork, SSL, bind and connect options, signals, MySQL and Apache calls, printing and option parsing: their results are parameters or nondeterministic choices.
- ReplyReceiver.Conn.BeginReply: whether a body follows a status line that sscanf cannot scan is not stated, because the source then branches on a variable that was never set.
- ReplyReceiver.Conn.DoRecv: nothing is stated for streams that have a line of more than 1023 bytes with its LF or a NUL in a line, or chunks of more than SIZE_MAX bytes together; for lines that are too long LongLines shows why.
- ReplyReceiver.Conn.GetLine: for a line that is only a LF the source looks at the byte before its line buffer; the model takes that byte not to be a CR.
- WireReplies.FeedChunks: sizes with a minus sign, which strtoul wraps around, and extensions that would go on with the number; Numerals.ReadBack covers both.
- WireReplies.PipelineInAnyFragments: replies with status 100 are not among the well-formed ones (WireReplies.InterimSwallowsFinal).
- Replies: the counts of header and footer bytes (a partial status line is not counted), timeouts, and event handlers that close the connection in mid-parse.
- TimerWheel.Wheel.Schedule: a callback may not ask for a multiple of the wheel size, because that is the spoke being drained, whose head can lead to a record on the free list; times are integer ticks, floating-point clocks are not modelled.
- TimerWheel.Wheel.Take: allocation does not fail.
- SessionEngine.Sess.ConnFailed: a connect that fails at once fails the session; the source may make further attempts inside the failing one before it comes to the same end.
- SessionEngine.Sess.SessionIssueCall: a call that is pending may not be issued again, because the queues are linked through the calls; queues are sequences here.
- Sessions after they have failed, sess_destroyed, SSL session reuse, and stale events of a connection that has been replaced.
- RequestWriter.Request.Prepare: a request that is abandoned in mid-send and sent again starts with a shortened fragment in the source; the model prepares whole ones. The read one past the last fragment is not modelled.
- HostTable.HashTable.Enter: it needs a free slot, because the source probes for ever in a full table.
- PortPool.Pool.Put: only ports that are held are put back.
- CoreLoop.Core.CoreClose: handlers do not send on a connection that is being closed; the source would lose such a call.
- CoreLoop.Core.FinishSend: the start of the next request in the queue, with its event. The events that handlers signal in their turn are not recorded in the event list; what they do is in the log of steps.
- RefCounts: reference counts of sessions, and the use of the last call's connection pointer at the end of do_recv.
- MemCacheModel: the build with atomics, the branch of write_body that removes and reinserts an object, object_cnt and cache_size (for which no conservation law holds), and use of the table after it has been freed by create_entity, open_entity or remove_url. What cache_insert evicts is arbitrary; cache_cache is not part of this model. Objects have names of their own; that the allocator can use an address again is not modelled.
- MemCache.Cache.CreateEntity: failing allocations and the checks before the lock.
- HeaderTable.SerializeTable: blocks are character sequences; alignment of allocations is not modelled.
- HandleClient: failures of fork, and of making the pipe non-blocking or setting its size; the calls of handle_client are steps on values, because they may block for ever.
- CloneProxy.BigPipeRefusesNone: how much of a pipe's capacity its pages can cost is a parameter; the pages themselves are not modelled.
- CloneProxy: synchronous mode, and the descriptors that the parent process keeps (they only make the pipe's ends live longer). A send transmits all its bytes or kills its process; writes of at most 1024 bytes to the pipe are all or nothing.
- ForwardLoops.ForwardDataPipe: a bounded number of reads, since the loop of the source has no end (CloneProxy.PipeNeverFails); the loop of T4, which throws away what it receives, is one step in CloneProxy.
- StartBarrier: delayed start and stops by signal.
- TraceReplay.Perform: a WRITE counts as executed also when writes are not allowed; then the source skips it and has nothing to roll back.
- TraceDispenser: repeated traces and early stops; execution of statements, think times and results.
- Schrage.Generator.Draw: returns the number before the logarithm is taken.
- The event loop of queue_sim, proxyAgg, ntools statistics, the other proxies, test clients and servers, and scripts, which would add only easy members.
