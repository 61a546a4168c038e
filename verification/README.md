# hulatang-io: a verified model

hulatang-io is a network library built on event loops, with a proactor on Windows
and a reactor elsewhere. This project models its data path and its scheduling, and
proves what they keep over whole runs. Components whose code changes fields in
place are classes over arrays, linked nodes or sequences; each of their methods is
proved against a function or a state machine on values, and the theorems are about
those. Protocols between threads are state machines over their steps.

| file | what it models |
|---|---|
| `Buffer.dfy`, `BufferRuns.dfy` | `BufferEndian`, the growable byte queue: the class over an array, and every run of it as a plain sequence |
| `Endian.dfy` | the integer codec of the buffer, on bit vectors |
| `HttpText.dfy`, `HttpParser.dfy` | the restartable response parser: text primitives, the function `Parse`, and the builder class proved against it |
| `HttpTheorems.dfy` | restarting, round trips for `Content-Length` and the chunked coding (section 7.1 of RFC 9112), and exactly where the chunk loop goes wrong |
| `CompletionList.dfy` | the intrusive lists of pending and completed operations, with re-posting and re-entrant `update` |
| `WriteProtocol.dfy`, `ReadProtocol.dfy` | one outstanding write and one outstanding read of `WSProactor` |
| `UnixReactor.dfy` | scatter reads and partial writes |
| `CycleQueue.dfy` | the counted multi-producer task queue |
| `Timers.dfy`, `EventLoop.dfy` | the timer set whose handlers add timers to it, and turns of the loop in virtual time |
| `FdTable.dfy`, `ServerLifecycle.dfy` | the channel table with epoll's interest set, and a server's connections across loops |
| `Url.dfy` | `URL::split` |

## How the code is read

- **Text and bytes.** The buffer is generic in its element: characters for text, `bv8`
  for the codec. The machine is little-endian, and an `intN_t` is its two's
  complement pattern. `size_t` and `unsigned long` have 64 bits; where the parser
  adds a length from the network to an offset, the sum wraps as in the code.
- **Leaving the parser without a code.** `std::stoi` and `std::stoul` may throw, and
  the parser builds a line from a null line end when the header section is cut off
  (`hulatang/http/HttpResponse.cpp:48`, `:70-71`). Both are outcomes of the model,
  `Thrown` and `NullLine`; for the second `NullLineExactly` says when. A third is
  `TooLong`: a length whose sum with the offset wraps passes the guard, and then it is
  beyond every string, so `std::length_error` is thrown (`Guard`). With
  `Content-Length` that happens after the head was taken off the buffer; every other
  outcome but success leaves the buffer as it was (`UntouchedExactly`).
- **Chunks.** The loop goes on from the first line end inside the chunk data, so a
  chunk after plain ones comes through exactly when it contains none
  (`ChunkedExactly`), and a list of chunks comes through at every length exactly when
  none of them does (`StreamExactly`); and after the last chunk it waits for one more
  line end beyond the message (`ChunkedRoundTrip`).
- **Timers.** The set compares deadlines only: of two timers with one deadline the
  later is lost (`KeptExactly`). A repeating timer goes back under its old deadline
  and changes it in place, which keeps the order only under the condition of
  `RequeueKeepsOrderExactly`. A timer added by an I/O callback counts its delay from
  before the wait. It is more than a millisecond late exactly when the wait was
  longer than its delay and a millisecond (`LateExactly`, `RunTimely`); in
  `IoTimerFiresLate` that makes ten seconds. A handler's timer due
  at once fires in the same pass only under the condition of `ExtraExactly`. The pass,
  the turn and the run are
  functions (`PassOver`, `AfterTurn`, `After`, `Log`); the methods are proved equal to
  them, and the theorems are about them.
- **Writes.** An empty send on an idle connection sets the writing flag without posting
  a write, and nothing is written from then on (`HealthyStep`, `EmptySendStalls`). An
  update of the channel during a write posts a second one exactly when the first no
  longer starts where the buffered data is, as after growth (`UpdateOutside`).
- **Reads.** The posted read fits the buffer as long as the user takes bytes out only
  inside the message callback; `ConsumeOutside` gives the exact condition otherwise.
- **Reactor errors.** After a read or write error other than EAGAIN the handlers go on
  with the error value as a length. A read ends there in the model (`Overrun`); a write
  aborts in the buffer's assertion, or drops everything buffered when there are none.
- **Connections.** A loop may run the oldest task of any producer between any two steps
  of the others, also while the base loop is in the middle of an accept. The system hands out only
  descriptors that are not open, a connection is closed only after it was
  established, and no readiness event comes before that. The code itself does not
  guard against a second close: over every run, once the base loop has run its tasks,
  an assertion has failed if and only if some connection was closed more than once
  (`FailsExactly`).

## Model

| member | source | states |
|---|---|---|
| ByteBuffer.BufferEndian.constructor | hulatang/base/Buffer.hpp:45-53 | a fresh buffer has no content, eight bytes to prepend and the initial size to write |
| ByteBuffer.BufferEndian.Append | hulatang/base/Buffer.hpp:220-236 | the content is the old content followed by the data, whether storage grew, moved or stayed |
| ByteBuffer.BufferEndian.EnsureWritableBytes | hulatang/base/Buffer.hpp:238-245 | the requested room is there afterwards and the content is unchanged |
| ByteBuffer.BufferEndian.MakeSpace | hulatang/base/Buffer.hpp:435-451 | growth and the overlapping move both keep the content and give the room asked for; the reader is beyond the prepend area whenever bytes are moved |
| ByteBuffer.BufferEndian.Retrieve | hulatang/base/Buffer.hpp:152-163 | drops exactly the first bytes, and resets both indices when nothing is left |
| ByteBuffer.BufferEndian.RetrieveAsString | hulatang/base/Buffer.hpp:203-209 | returns the first bytes and leaves the others |
| ByteBuffer.BufferEndian.HasWritten | hulatang/base/Buffer.hpp:257-261 | the bytes someone wrote at the write position become the end of the content |
| ByteBuffer.BufferEndian.Unwrite | hulatang/base/Buffer.hpp:263-267 | takes the last bytes back |
| ByteBuffer.BufferEndian.Prepend | hulatang/base/Buffer.hpp:402-408 | the data comes before the old content, given that it fits the prepend area |
| ByteBuffer.BufferEndian.Shrink | hulatang/base/Buffer.hpp:410-417 | same content in new storage with the reserve still writable |
| BufferRuns.Apply | hulatang/base/Buffer.hpp:152-417 | every operation of the class is one step of the machine over layout and plain byte sequence |
| BufferRuns.ApplyAll | hulatang/base/Buffer.hpp:152-417 | executing any sequence of operations on the class is the machine's run |
| BufferRuns.ViewLaws | hulatang/base/Buffer.hpp:152-417 | taking back undoes appending, taking out undoes prepending, bytes written in place count as appended, room and shrinking change nothing |
| BufferRuns.RunAppends | hulatang/base/Buffer.hpp:152-417 | runs compose |
| BufferRuns.StreamConserved | hulatang/base/Buffer.hpp:152-245 | over any run of appends and retrieves, what came out followed by what is left is what went in |
| BufferRuns.StorageBound | hulatang/base/Buffer.hpp:225-451 | a fresh buffer that never holds more than M bytes never needs more storage than the larger of the first allocation and 2M + 7 |
| BufferRuns.GrowsExactly | hulatang/base/Buffer.hpp:435-451 | storage grows if and only if the room is not there even after moving the content to the front, and by no more than asked |
| BufferRuns.ShrinkSize | hulatang/base/Buffer.hpp:410-417 | after a shrink there is the storage of a new buffer or just that of content, reserve and prepend area |
| BufferRuns.AlwaysEnabled | hulatang/base/Buffer.hpp:152-267 | appending, making room and shrinking are always possible; taking out and taking back exactly up to the content |
| Endian.SwapInvolution | hulatang/base/Buffer.hpp:14-35 | `bit_endian` undoes itself at every width, for all bit patterns |
| Endian.SwapReversesBytes | hulatang/base/Buffer.hpp:14-35 | for the other byte order `bit_endian` is byte reversal in memory |
| Endian.NativeUnchanged | hulatang/base/Buffer.hpp:14-35 | in the machine's own order, the one of `Buffer`, the encoding is the memory image |
| Endian.RoundTrip | hulatang/base/Buffer.hpp:272-371 | decoding an encoded integer gives it back in either order |
| Endian.DecodeFaithful | hulatang/base/Buffer.hpp:338-371 | every byte image is the encoding of the integer read from it |
| Endian.AppendInt | hulatang/base/Buffer.hpp:272-296 | the encoding of the integer is appended to the content |
| Endian.PeekInt | hulatang/base/Buffer.hpp:338-371 | the integer whose encoding is the front of the content |
| Endian.ReadInt | hulatang/base/Buffer.hpp:302-332 | the same, and exactly those bytes are gone afterwards |
| Endian.PrependInt | hulatang/base/Buffer.hpp:376-400 | the encoding of the integer comes before the old content |
| Endian.PrependThenRead | hulatang/base/Buffer.hpp:302-400 | a read after a prepend gives the value and restores the content |
| Endian.MixedRoundTrip | hulatang/base/Buffer.hpp:272-332 | any mixture of widths is read back value for value, leaving what follows |
| Endian.Exchange | hulatang/base/Buffer.hpp:272-451 | appends and reads in any interleaving on the real buffer: as many values come out as the steps ask for, as they went in, and the content is the encoding of those still to be read |
| HttpText.FindCRLFInBuffer | hulatang/base/Buffer.hpp:121-133 | the first line end at or after the start, or nothing |
| HttpText.StoulReadsNumeral | hulatang/http/HttpResponse.cpp:100-124 | every printed decimal or hexadecimal number within the width is read as meant |
| HttpText.NumeralForms | hulatang/http/HttpResponse.cpp:100-124 | leading spaces, a plus sign and anything after the digits are accepted, and a minus sign negates modulo the width |
| HttpText.HexPrefixRead | hulatang/http/HttpResponse.cpp:124-124 | a hexadecimal size may carry the prefix |
| HttpText.NotANumeral | hulatang/http/HttpResponse.cpp:59-100 | no digits, or a number beyond the width, is an exception |
| HttpParser.HttpResponseBuilder.NextLine | hulatang/http/HttpResponse.cpp:37-42 | the running count stays the offset of the line, and the search starts within the buffer |
| HttpParser.HttpResponseBuilder.StatusLineStep | hulatang/http/HttpResponse.cpp:44-62 | version and status of the status line, or the exception |
| HttpParser.HttpResponseBuilder.MessageLines | hulatang/http/HttpResponse.cpp:64-86 | collects the headers up to the empty line, the first of a name winning; terminates for every text |
| HttpParser.Guard | hulatang/http/HttpResponse.cpp:137-156 | the 64-bit guard of both codings is the comparison meant unless the sum wraps; then it lets pass a length beyond every string |
| HttpParser.UntouchedExactly | hulatang/http/HttpResponse.cpp:149-162 | a parse that fails leaves the buffer as it was if and only if no body was announced whose length wraps |
| HttpParser.HttpResponseBuilder.TransferEncoding | hulatang/http/HttpResponse.cpp:106-147 | the chunk loop ends for every text, keeps count and offset in step, and takes the message off the buffer only on success |
| HttpParser.HttpResponseBuilder.ContentLength | hulatang/http/HttpResponse.cpp:149-162 | the body of that length with exactly the message consumed, or waiting with the buffer untouched, or the exception with the head gone |
| HttpParser.HttpResponseBuilder.BodyLine | hulatang/http/HttpResponse.cpp:88-104 | which of the codings applies, chunked first |
| HttpParser.HttpResponseBuilder.Run | hulatang/http/HttpResponse.cpp:164-179 | the builder computes `Parse`, and the buffer holds exactly what `Remaining` says |
| HttpParser.BuildFromBuffer | hulatang/http/HttpResponse.cpp:225-237 | the reply or the code of `Parse`, with the message consumed on success and what `Remaining` says in the buffer otherwise |
| HttpTheorems.SettledOutcome | hulatang/http/HttpResponse.cpp:88-162 | once the header section is there, any outcome but waiting is final: more bytes change nothing |
| HttpTheorems.PrefixStable | hulatang/http/HttpResponse.cpp:106-179 | a text that parses goes on to parse the same with anything after it, which stays in the buffer |
| HttpTheorems.LeavesRest | hulatang/http/HttpResponse.cpp:134-159 | a parse that succeeds takes the message off the buffer and leaves all that came after it |
| HttpTheorems.FeedEqualsWhole | hulatang/http/HttpResponse.cpp:106-237 | retrying after every delivery gives the same reply and leaves the same bytes as parsing all at once, however the stream was cut |
| HttpTheorems.FeedExactly | hulatang/http/HttpResponse.cpp:48-237 | arriving in pieces a stream is parsed if and only if it parses as a whole and the first piece holds the header section |
| HttpTheorems.NullLineExactly | hulatang/http/HttpResponse.cpp:44-71 | the parser builds a line from a null line end exactly when the status line is cut off, or is fine but no empty line has arrived |
| HttpTheorems.HeadRoundTrip | hulatang/http/HttpResponse.cpp:44-86 | any accepted status line and any headers are read back, and the cursor stops at the empty line |
| HttpTheorems.StatusRoundTrip | hulatang/http/HttpResponse.cpp:44-62 | a printed status line gives its version and number back |
| HttpTheorems.VersionMeans | hulatang/http/HttpConstant.cpp:7-21 | the two versions are known by exactly their names |
| HttpTheorems.NoSpaceInStatus | hulatang/http/HttpResponse.cpp:50-59 | a status line without a space is taken whole as version and as number |
| HttpTheorems.HeadersMean | hulatang/http/HttpResponse.cpp:83-83 | the first header of a name counts, and no name appears that was not sent |
| HttpTheorems.UnusualHeaders | hulatang/http/HttpResponse.cpp:76-83 | a header line without a space after the colon, and one without a colon |
| HttpTheorems.ChunkedMeans | hulatang/http/HttpResponse.cpp:92-93 | the chunked coding applies if and only if the first header of that name says exactly so |
| HttpTheorems.BadStatusThrows | hulatang/http/HttpResponse.cpp:59-59 | a status that is no number is an exception, and the buffer is left alone |
| HttpTheorems.BadLengthThrows | hulatang/http/HttpResponse.cpp:98-101 | so is a declared length that is no number |
| HttpTheorems.BadSizeThrows | hulatang/http/HttpResponse.cpp:117-124 | so is a chunk size that is no number, once the line after it is there |
| HttpTheorems.NoCodingFails | hulatang/http/HttpResponse.cpp:88-104 | with neither coding the parse fails with the body code and the buffer is left alone |
| HttpTheorems.ContentLengthRoundTrip | hulatang/http/HttpResponse.cpp:88-162 | an arbitrary body of declared length, line ends included, is returned and exactly the message is consumed, unless the message is longer than `size_t` can count |
| HttpTheorems.ContentLengthLeaves | hulatang/http/HttpResponse.cpp:158-159 | what follows a body of declared length stays in the buffer |
| HttpTheorems.WrappedLengthLeaves | hulatang/http/HttpResponse.cpp:153-159 | with a length that wraps the outcome is the exception, and what followed the head is left |
| HttpTheorems.ContentLengthWaits | hulatang/http/HttpResponse.cpp:149-157 | the parser waits if and only if bytes of the body are missing and the announced length does not wrap |
| HttpTheorems.ChunkedRoundTrip | hulatang/http/HttpResponse.cpp:106-147 | chunks without line ends are returned joined and the bytes behind the message stay; with no line end among those the parser waits |
| HttpTheorems.ChunkedLeaves | hulatang/http/HttpResponse.cpp:128-135 | what follows a chunked message stays in the buffer, and so does everything while the parser waits |
| HttpTheorems.HexSizes | hulatang/http/HttpResponse.cpp:124 | hexadecimal sizes as a sender prints them satisfy what the round trip asks of size lines |
| HttpTheorems.ChunkedExactly | hulatang/http/HttpResponse.cpp:39-144 | after plain chunks a last one comes through if and only if it holds no line end |
| HttpTheorems.TornGoesOn | hulatang/http/HttpResponse.cpp:39-144 | after a chunk with a line end inside, taken whole, the next size line is what follows that line end |
| HttpTheorems.StreamExactly | hulatang/http/HttpResponse.cpp:39-147 | a list of chunks comes through at every length of it if and only if none holds a line end |
| HttpTheorems.TornExample | hulatang/http/HttpResponse.cpp:39-147 | a complete message whose one chunk is a line end does not come through |
| CompletionList.Channel.AddOver | hulatang/io/Proactor.cpp:63-76 | the node becomes the last of the pending list and the links stay a single acyclic chain |
| CompletionList.Channel.Complete | hulatang/io/async/IOCPFdEventManager.cpp:91-119 | exactly that node leaves the pending list, the others keep their order, and it heads the completed list; `abort` if and only if it was not pending |
| CompletionList.Channel.HandleEvent | hulatang/io/Proactor.cpp:7-61 | every completed node goes to its handler exactly once, in order and with a null link, whatever the handlers post or re-enter; the pending list grows by what each of them posts, in order, and nothing else |
| CompletionList.Channel.Deliver | hulatang/io/Proactor.cpp:45-60 | one delivery keeps the nodes still to come linked and in nobody else's hands |
| CompletionList.Channel.Update | hulatang/io/async/IOCPFdEventManager.cpp:199-205 | the temporary node is delivered and gone, its handler's posts are pending, and the nodes an outer delivery holds keep their links |
| CompletionList.Channel.Process | hulatang/io/async/IOCPFdEventManager.cpp:88-119 | a completion of a posted operation never aborts and removes it alone; node by node, what was pending or was posted is delivered or pending |
| CompletionList.Channel.ProcessAll | hulatang/io/async/IOCPFdEventManager.cpp:49-205 | over any run of completions, updates and outside posts: the nodes that were pending and those posted meanwhile are exactly those delivered meanwhile and those pending, and the kinds follow event by event from what the handlers do |
| CompletionList.SeenNext | hulatang/io/Proactor.cpp:50-60 | a further delivery extends the delivered part of the list by its next node |
| CompletionList.PostsCounted | hulatang/io/Proactor.cpp:63-76 | for each kind, a handler leaves as many new pending operations as it posts at any depth of re-entry |
| CompletionList.PostsInOrder | hulatang/io/Proactor.cpp:63-76 | the posts of an act come before those of the acts after it |
| CompletionList.EnteredMeans | hulatang/io/async/IOCPFdEventManager.cpp:199-205 | during a handler only temporary nodes are delivered, one for each re-entry |
| CompletionList.EventMeans | hulatang/io/async/IOCPFdEventManager.cpp:88-119 | an event takes out and delivers the node chosen and no other, and adds exactly the posts, at the end |
| CompletionList.EventAfterEvent | hulatang/io/async/IOCPFdEventManager.cpp:49-120 | a run takes its events one after another, all of them |
| CompletionList.UsualHandlers | hulatang/io/proactor/WSProactor.cpp:50-138 | what the read, write and update handlers do is among the handlers considered |
| CompletionList.SendFromCallback | hulatang/io/proactor/WSProactor.cpp:86-138 | a read whose callback sends leaves the write pending and then the read |
| WriteProtocol.HealthyStep | hulatang/io/TCPConnection.cpp:23-40 | a step leaves the writing flag telling the truth if and only if it is not an empty send on an idle connection |
| WriteProtocol.ProtocolHolds | hulatang/io/proactor/WSProactor.cpp:92-189 | with non-empty sends, in every state: one write is in flight exactly while the flag is set, it lies within the buffer, and completed bytes followed by the buffer are the bytes sent |
| WriteProtocol.RunAppends | hulatang/io/proactor/WSProactor.cpp:92-138 | runs compose |
| WriteProtocol.SentHistory | hulatang/io/TCPConnection.cpp:23-40 | what was sent in a run is the data of its sends, and completed bytes with the buffer are just that |
| WriteProtocol.WholeWrites | hulatang/io/proactor/WSProactor.cpp:92-116 | a completion brings out exactly what was posted and posts all that gathered; the first send posts all its data |
| WriteProtocol.InFlightUntouched | hulatang/io/proactor/WSProactor.cpp:92-188 | sends during a write leave its bytes at the front: its completion takes off what was posted |
| WriteProtocol.TwoCompletionsDrain | hulatang/io/proactor/WSProactor.cpp:92-116 | two completions without a send bring everything out and end idle |
| WriteProtocol.EmptySendStalls | hulatang/io/proactor/WSProactor.cpp:118-125 | after an empty send on an idle connection nothing is ever written again |
| WriteProtocol.WSConnection.Send | hulatang/io/TCPConnection.cpp:23-40 | the class takes the protocol's send step |
| WriteProtocol.WSConnection.UpdatePost | hulatang/io/proactor/WSProactor.cpp:118-138 | a write for all that is buffered is posted exactly when the flag is set, something is buffered and no pending write starts at its address |
| WriteProtocol.WSConnection.UpdateOutside | hulatang/io/proactor/WSProactor.cpp:118-138 | an update between steps keeps the one-write rule exactly when the write in flight still starts where the buffered data is |
| WriteProtocol.WSConnection.HandleWrite | hulatang/io/proactor/WSProactor.cpp:92-116 | the class takes the protocol's completion step |
| ReadProtocol.WSReader.PostRecv | hulatang/io/proactor/WSProactor.cpp:140-164 | a read the system accepts covers exactly the writable part, at least 1024 bytes; the content is kept, and after a refusal nothing is posted and an entry without a kind stays on the list |
| ReadProtocol.WSReader.HandleRead | hulatang/io/proactor/WSProactor.cpp:50-90 | the bytes of the completion and of the extra read arrive in order; until an end of stream or an error one read is always posted again |
| ReadProtocol.WSReader.ConsumeOutside | hulatang/base/Buffer.hpp:152-196 | taking bytes out while a read is posted keeps it in its place exactly when something is left or the buffer was at its start |
| UnixReactor.Reactor.HandleRead | hulatang/io/reactor/UnixReactor.cpp:22-67 | however the bytes split between the tail and the 64 KiB block, they are appended in order, and consumed bytes followed by the buffer are the bytes received |
| UnixReactor.Reactor.HandleWrite | hulatang/io/reactor/UnixReactor.cpp:69-95 | any partial write or EAGAIN keeps written bytes followed by the buffer equal to the bytes sent; after a fatal error the handler aborts, or without assertions drops what is buffered |
| UnixReactor.Reactor.Send | hulatang/io/TCPConnection.cpp:23-40 | the data joins the end of the send stream |
| CycleQueue.StepInv | hulatang/io/CycleEventManager.cpp:10-43 | counter plus announcements under way equals queued tasks plus the one in hand, through every step |
| CycleQueue.CounterSafe | hulatang/io/CycleEventManager.cpp:10-43 | in every interleaving the counter is never negative and a spinning dequeue finds an element |
| CycleQueue.ExactlyOnceInOrder | hulatang/io/CycleEventManager.cpp:10-43 | what a producer submitted is what ran, followed by what is queued, in order |
| CycleQueue.FirstInFirstOut | hulatang/io/CycleEventManager.cpp:10-43 | measured by the actions themselves: the tasks of a producer that ran are the first it enqueued, as many as the loop took |
| CycleQueue.StepCounts | hulatang/io/CycleEventManager.cpp:18-42 | the counter changes by one at exactly the steps that touch it |
| CycleQueue.CanEnqueue | hulatang/io/CycleEventManager.cpp:27-43 | when a producer can post: always between two posts, the loop thread while a task runs or between passes |
| CycleQueue.EverythingRuns | hulatang/io/CycleEventManager.cpp:10-20 | from every state, without further posts, the loop can run all that was submitted and be idle |
| CycleQueue.ProcessRunsSnapshot | hulatang/io/CycleEventManager.cpp:10-20 | one `process` runs exactly as many tasks as the counter said at its start, whatever is queued meanwhile |
| CycleQueue.IdleMeansAllRan | hulatang/io/CycleEventManager.cpp:22-25 | with no producer between its two steps an idle queue means every task has run |
| Timers.InsertSorted | hulatang/io/TimerEventManager.cpp:47-51 | adding keeps the set ordered with distinct deadlines and drops no entry that was there |
| Timers.KeptExactly | hulatang/io/TimerEventManager.hpp:33-41 | an added timer is in the set if and only if no entry has its deadline |
| Timers.TimerEventManager.Process | hulatang/io/TimerEventManager.cpp:14-31 | the loop ends although handlers keep adding timers, and leaves exactly the set and the firings of `PassOver` |
| Timers.PassMeans | hulatang/io/TimerEventManager.cpp:14-31 | a pass fires all that was due at entry, in strictly increasing order of deadline, none early, at most one more; nothing comes from nowhere, and what a handler adds fires after it or stays unless another timer with its deadline does |
| Timers.ExtraExactly | hulatang/io/TimerEventManager.cpp:18-30 | one timer more than were due at entry fires if and only if a handler other than the last added one due just now and none was there with that deadline |
| Timers.InsertAllExactly | hulatang/io/TimerEventManager.hpp:33-41 | of several timers added, the first of each deadline nobody had is there, and no other |
| Timers.AddAllInserts | hulatang/io/TimerEventManager.cpp:47-51 | what a handler adds goes into the set in that sense |
| Timers.FireHolds | hulatang/io/TimerEventManager.cpp:18-30 | one firing and its handler keep all that holds between rounds, and there are at most as many firings as timers due at entry, and one |
| Timers.PassFires | hulatang/io/TimerEventManager.cpp:18-30 | a firing takes the next timer that was due at entry, or the one extra |
| Timers.PassAdds | hulatang/io/TimerEventManager.cpp:18-51 | a timer added by a handler stays behind those still to fire, on either side of the iterator |
| Timers.FiredInOrder | hulatang/io/TimerEventManager.cpp:14-31 | the firings are strictly ordered by deadline and at most one more than were due |
| Timers.TimerEventManager.NextTriggerTime | hulatang/io/TimerEventManager.cpp:38-45 | the time to the least deadline of all |
| Timers.RequeueKeepsOrderExactly | hulatang/io/TimerEventWatcher.cpp:78-93 | a repeating timer is lost when its old deadline is taken; otherwise it leaves the set in order if and only if its new deadline lies between those around the old one |
| Timers.RequeueExample | hulatang/io/TimerEventWatcher.cpp:78-93 | a set of one entry that a repeating timer leaves out of order |
| EventLoop.BlockMeans | hulatang/io/EventLoop.cpp:125-151 | the wait is zero exactly when tasks are waiting, else one millisecond to ten seconds, and beyond no deadline by more than a millisecond |
| EventLoop.BlockLongest | hulatang/io/EventLoop.cpp:141-150 | the wait is the longest that is allowed and passes no deadline |
| EventLoop.TurnAccounts | hulatang/io/EventLoop.cpp:153-172 | the clock advances by what passes of the wait, and the tasks there were and those queued before the cycle all run |
| EventLoop.AskedInMeans | hulatang/io/EventLoop.cpp:77-81 | callbacks count a delay from before the wait, handlers and tasks from after it |
| EventLoop.EventLoop.CalculationBlocktime | hulatang/io/EventLoop.cpp:125-151 | the wait that `Block` says, after a pass over the timers exactly when one is overdue |
| EventLoop.TurnMeans | hulatang/io/EventLoop.cpp:153-172 | a turn fires exactly those of the timers offered whose deadline its wait has reached, none early; what fires or stays was there or was asked for, and what was there or was asked for is not lost unless its deadline is taken |
| EventLoop.LateExactly | hulatang/io/EventLoop.cpp:77-162 | a firing is more than a millisecond late if and only if an I/O callback of this turn asked for it with a delay more than a millisecond shorter than the wait |
| EventLoop.EventLoop.RunOnce | hulatang/io/EventLoop.cpp:153-172 | clock, tasks, timer set and firings after a turn are those of `AfterTurn` |
| EventLoop.EventLoop.Run | hulatang/io/EventLoop.cpp:42-56 | the state after any number of turns is that of `After`, and the firings are those of `Log` |
| EventLoop.RunTimely | hulatang/io/EventLoop.cpp:42-56 | over any run no timer fires early, and one is late exactly under the condition of its own turn |
| EventLoop.RunAccounts | hulatang/io/EventLoop.cpp:42-56 | over a run each turn adds what passes of its own wait, and runs the tasks left to it and those queued in it |
| EventLoop.LogComplete | hulatang/io/EventLoop.cpp:42-56 | every firing of every turn is in the log, in order and once |
| EventLoop.RunSources | hulatang/io/EventLoop.cpp:42-81 | over any run what fires or is in the set was there or was asked for |
| EventLoop.RunAnswers | hulatang/io/EventLoop.cpp:42-81 | over any run every timer that was there fires or stays, and so does every one asked for or another with its deadline |
| EventLoop.OwnDeadline | hulatang/io/TimerEventManager.hpp:33-41 | a timer with a deadline of its own itself fires or stays, and has fired once the clock is past it |
| EventLoop.IoTimerFiresLate | hulatang/io/EventLoop.cpp:77-162 | a turn in which a timer of no delay fires ten seconds late |
| EventLoop.EventLoop.RunAfter | hulatang/io/EventLoop.cpp:77-81 | deadlines count from the loop's own time |
| FdTable.EPollFdEventManager.Add | hulatang/io/FdEventManager.cpp:17-26 | growing to twice the descriptor is enough, other slots keep their channels, and the kernel knows exactly the occupied slots |
| FdTable.EPollFdEventManager.Update | hulatang/io/async/EPollFdEventManager.cpp:115-119 | the descriptor is known to the kernel, so the change cannot be refused |
| FdTable.EPollFdEventManager.Cancel | hulatang/io/async/EPollFdEventManager.cpp:121-127 | the slot is free, the kernel forgot it, the others stay |
| ServerLifecycle.StepInv | hulatang/io/TCPServer.cpp:40-69 | every step of any loop keeps queues, map, table and connection states in agreement |
| ServerLifecycle.OneConnection | hulatang/io/TCPServer.cpp:40-69 | a step about one connection cannot disturb another |
| ServerLifecycle.FrontPhase | hulatang/io/accept/PosixAcceptor.cpp:68-77 | a task that is due finds its connection just one phase before: registration precedes establishment, removal precedes destruction |
| ServerLifecycle.AcceptWorks | hulatang/io/accept/PosixAcceptor.cpp:68-77 | an accept brings one connection, connecting, with its registration posted or done |
| ServerLifecycle.NewConnectionWorks | hulatang/io/TCPServer.cpp:40-55 | the map gets the entry, and establishment is posted or done |
| ServerLifecycle.TaskWorks | hulatang/io/TCPConnection.cpp:51-93 | a task that runs leaves the queue and registers, establishes, removes or destroys its connection, with the callback counted |
| ServerLifecycle.CloseWorks | hulatang/io/TCPServer.cpp:57-69 | a first close is possible for every connection that is up and posts its removal, or ends it at once; a destroyed connection can be released |
| ServerLifecycle.EverythingComesThrough | hulatang/io/TCPServer.cpp:40-69 | from every state the loops can drain their queues, and then each connection not closed is up and each closed one is gone |
| ServerLifecycle.FullLife | hulatang/io/TCPServer.cpp:40-69 | on any loop a connection can be accepted, come up once, go down once and be released without a failure |
| ServerLifecycle.Lifecycle | hulatang/io/TCPConnection.cpp:51-93 | over every interleaving in which nothing is closed twice no assertion fails, and the connection callback runs once up and once down |
| ServerLifecycle.Drained | hulatang/io/TCPServer.cpp:57-69 | when the queues are empty every connection is up, mapped and registered, or gone from map and table |
| ServerLifecycle.OnlyForward | hulatang/io/TCPConnection.cpp:51-93 | a connection only moves forward through its phases |
| ServerLifecycle.DoomedStep | hulatang/io/TCPServer.cpp:57-69 | once more removals wait than the map has entries, no step of anyone averts the failure |
| ServerLifecycle.SecondCloseFails | hulatang/io/TCPConnection.cpp:42-65 | after a further close of a closed connection, on any loop and whatever happens then, the erase has failed by the time its removals have run |
| ServerLifecycle.FailsExactly | hulatang/io/TCPServer.cpp:57-69 | over every run at whose end the base loop has run its tasks, an assertion failed if and only if some connection was closed more than once |
| ServerLifecycle.DoubleCloseExample | hulatang/io/TCPServer.cpp:57-69 | accepting one connection and closing it twice is such a run |
| Url.PrintSplitExactly | hulatang/http/URL.cpp:65-121 | splitting an assembled URL recovers all its parts if and only if they are well formed |
| Url.Reassembled | hulatang/http/URL.cpp:65-121 | for any input with a colon that takes no early return, parts and delimiters give the input back |
| Url.TailPrinted | hulatang/http/URL.cpp:106-120 | path, query and reference, joined again, are the tail they were cut from |
| Url.HostsAndPorts | hulatang/http/URL.cpp:14-49 | ports are the non-empty digit strings, host names the strings of the allowed characters |
| Url.Brackets | hulatang/http/URL.cpp:29-42 | an address in brackets passes, one with a bracket missing or the two swapped does not |
| Url.BracketedHost | hulatang/http/URL.cpp:65-121 | a URL with a bracketed address and a port gives just these parts |
| Url.NoProtocol | hulatang/http/URL.cpp:68-75 | host and port alone give nothing; without a colon everything is the protocol and the rest is cut from the whole |
| Url.URL.constructor | hulatang/http/URL.cpp:59-63 | the fields hold the parts; on an early return nothing, or the protocol alone, is set |
| Url.URL.CutHost | hulatang/http/URL.cpp:76-105 | host and port end at the first delimiter, and a port that does not read as one stops the split |
| Url.URL.FirstDelimiter | hulatang/http/URL.cpp:80-94 | the least of the three searches is the first delimiter |

## Left out

- `append(const BufferEndian &)`: it copies from the start of the storage rather than from the readable bytes; moved-from buffers, `findEOL` and `internalCapacity` are not modelled either.
- Endian.PeekInt: models the intended copy of N bytes from `peek()`; the arguments given to `std::copy` have another shape.
- Endian.ReadInt: rests on that intended copy.
- HttpParser.HttpResponseBuilder.TransferEncoding: a body so long that appending a chunk exceeds what a string holds, without any one length doing so, is not modelled.
- HttpParser.HttpResponseBuilder.StatusLineStep: the reason phrase is parsed but, as in the original, not part of the reply.
- HTTP requests and the client, `HttpResponse` accessors, and the order of the header table.
- HttpTheorems.ChunkedRoundTrip: about messages whose length `size_t` can count, like the other theorems on chunks; `BuildFromBuffer` is about buffers of at most 2^63 - 1 bytes, the most a container holds.
- CompletionList.Channel.HandleEvent: a handler is an arbitrary finite list of posts and re-entries; it posts the delivered node at most once. The window in which a posted node still has type NONE, failing posts, and freeing nodes are not modelled.
- CompletionList.Channel.ProcessAll: only posted operations complete; wake-ups, time-outs and unknown channels end or skip a round without touching the lists.
- WriteProtocol.WSConnection.HandleWrite: a write completes in full; failing sends and the storage that an outstanding write refers to when the buffer grows are not modelled.
- ReadProtocol.WSReader.HandleRead: bytes in flight are values that arrive with the completion.
- UnixReactor.Reactor.HandleRead: after an error the original goes on with the error value as a length; the model ends there. `Reactor::handleEvent`, which picks the handlers from the event flags, is left out.
- `TCPConnection::send` from another thread: it queues the same step, which `CycleQueue` covers.
- CycleQueue.CounterSafe: the concurrent queue is assumed to keep each producer's order and to lose nothing, and the counter does not wrap.
- Timers.TimerEventManager.Process: handlers add timers that are not overdue; cancellation and the repeat count of repeating timers are left out.
- EventLoop.EventLoop.RunOnce: time passes only inside the wait, wake-ups are waits that end early, and delays are not negative; idle handlers are left out.
- FdTable.EPollFdEventManager.Add: the kernel refuses only a descriptor that is already or not yet registered; the event vector and its dispatch are left out.
- ServerLifecycle.Lifecycle: connections are keyed by identity where the original uses the address of the peer's socket address; the choice of the worker loop is arbitrary, and messages, the listening socket and its spare descriptor are left out.
- Channel flags appear in their users; thread pools, connectors, address handling, logging, files and small accessors add no further property.
