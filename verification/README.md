# Concurrent programs and a chat protocol: models and proofs

This project models the concurrent core of the repository's programs and proves what they are for. Each program
is a state with a step relation: one step is one stay inside a lock, one channel operation, or one read or write of
a shared variable, and a run takes any enabled step next. Theorems about whole runs hold for any numbers of threads,
jobs and items; the constants in the source are instances. Beside each step relation stands a class with the program's
variables, whose methods carry out the steps imperatively, each proved to have exactly the effect of its step and, field
by field, exactly the effect of the code. The `Run` methods put them under an arbitrary scheduler and are proved to terminate in the promised state.

- `Runs.dfy`, `Tallies.dfy`: runs, invariants and measures in general; multisets and sums collected from sequences.
- `SharedCondition.dfy`: producers and consumers of a bounded buffer that wait on ONE condition variable, where
  `Signal` may wake a thread of the wrong kind. Every run is finite. `SharedConditionDeadlock.dfy` says exactly when a
  deadlock is reachable, for all numbers of producers P, consumers C, places K and products T. Let D = P + C - 2 * K be
  the threads beyond two for each place, and X = max(0, C - K). A deadlock is reachable if and only if D > 0 and the
  buffer can be filled often enough before the last product: n = (T - 1) / K is at least 1, and X + (n - 1) * D >= K, or
  n >= 2 and P + X + (n - 2) * D >= 2 * K (quotient rounded down). So no T brings a deadlock if and only if P + C <=
  2 * K (the program has 5 + 2 and 20). With the program's own T = P * K there is none either for a single producer, and
  for P + C = 2 * K + 1 none if P <= K + 1.
- `WorkerPool.dfy`: the worker-pool dispatcher, a channel of channels. Ownership of the channels, conservation of the
  jobs, termination, completion.
- `MonitorQueue.dfy`: the terminating queue. No wake-up is lost, items stay in order, and the drain is graceful exactly
  if no producer's values include zero, which would make a consumer leave early.
- `CancellableChannel.dfy`: a producer and a consumer on a bounded channel under a context. Nothing sent is lost, the
  channel is closed once, and little happens after the cancellation.
- `ParallelSum.dfy`, `PsumMutex.dfy`, `PsumCells.dfy`: three parallel sums, their arithmetic and every interleaving of
  their reads and writes.
- `ChatProtocol.dfy`, `ChatServer.dfy`, `ChatClients.dfy`: the printer and the parser of the line protocol, the
  framing of broadcasts from end to end, and the client list that is cut in place while it is ranged over.
- `ClientPool.dfy`: the slot array, the descriptor set and the countdown of the select() echo server, and exactly what
  any number of rounds does, up to the round that `Close(-1)` ends.

Conventions and assumptions:

- A thread that `Signal` woke competes for the lock like one that has just called `Lock`; there are no spurious
  wake-ups (documentation of Go's `sync.Cond`). `Signal` wakes any one waiter, which includes the order of Go's
  implementation. That a deadlock is reachable beyond the bound is a statement about this free choice.
- A select takes any ready case and `default` only when none is ready (Go language specification, section
  "Select statements"). Sleeps and tickers do nothing; the timeout is a step that may come at any moment.
- `job` in the goroutine of `dispatch` is taken to be a variable of its own in each iteration (Go 1.22); no go.mod
  comes with that program.
- A character stands for a byte; a connection is a sequence of bytes and each write appends to it in one piece.
- Descriptors that `Accept` returns are positive, below FD_SETSIZE and not in use; select reports those of the watched
  descriptors that have something to read. `Close(-1)` ends the run.
- C's `long` is an unbounded integer, with the bounds proved where the program checks its arguments.

Where the code and what is written about it differ, the model follows the code:

- csapp/echo/echo4.c:103-108 says that the `else` handles EOF. It belongs to the readiness test, so that a client that
  is not ready is closed when a ready one follows it, and a client at EOF stays. `DF_CLR` (line 106) is read as
  `FD_CLR`, and `check_clients` (line 42) as `check_client`.
- chatserver/README.md says that a user name can not contain a space. The reader accepts one, and `ChatServer.EndToEnd`
  covers it. What the server relays under such a name reads back with the boundary between name and message moved, and
  with the same text.

## Model

| member | source | states |
|---|---|---|
| SharedCondition.SafeKept | produce_consume/model1/main3.go:28-78 | every step keeps the counters within bounds, made = buffered + taken, done exactly at the total, nobody parked once done, nobody returned before; and the counters are frozen once done |
| SharedCondition.ProducerMakes | produce_consume/model1/main3.go:29-50 | a producer makes exactly one product if it finds room and done unset, else it waits or returns, and it takes none |
| SharedCondition.ConsumerTakes | produce_consume/model1/main3.go:59-75 | a consumer takes exactly one product if it finds one and done unset, else it waits or returns, and it makes none |
| SharedCondition.LiveKept | produce_consume/model1/main3.go:28-75 | every step keeps the counting invariant: whatever Signal chooses, the waiters of either kind cannot exceed, when the buffer is next full or empty, the level that belongs to the products made or taken so far |
| SharedCondition.StuckExactly | produce_consume/model1/main3.go:28-75 | with more than two threads for each place these levels rise by the surplus each time, and cover all threads of a kind exactly by the stated formula |
| SharedCondition.NoDeadlock | produce_consume/model1/main3.go:28-75 | unless there are both more than two threads for each place and products enough to fill the buffer often enough, no reachable state before done has every thread parked, although Signal may wake either kind |
| SharedCondition.ProgramNeverDeadlocks | produce_consume/model1/main3.go:9-14 | in particular the program, with its own constants, never deadlocks |
| SharedCondition.MeasureDrops | produce_consume/model1/main3.go:28-78 | every critical section lowers 4 * products to make + 2 * products buffered + awake threads + threads the final broadcast may wake |
| SharedCondition.EveryRunEnds | produce_consume/model1/main3.go:84-91 | every run, whatever the sizes, has at most 4 * total + 2 * threads critical sections and is safe all along |
| SharedCondition.FinishedAtTheEnd | produce_consume/model1/main3.go:84-92 | under the same condition a run that cannot go on has made exactly the total and returned from every thread, so that wg.Wait returns |
| SharedCondition.StepsExactlyWhenAwake | produce_consume/model1/main3.go:29-32 | some step is possible exactly when some thread is awake, since a signal always has a legal choice |
| SharedCondition.Monitor.Signal | produce_consume/model1/main3.go:47 | wakes one parked goroutine, of either kind, or nobody if nobody is parked |
| SharedCondition.Monitor.Broadcast | produce_consume/model1/main3.go:45 | wakes all parked goroutines and changes nothing else |
| SharedCondition.Monitor.Produce | produce_consume/model1/main3.go:29-50 | one stay of a producer in the lock is exactly one producer step |
| SharedCondition.Monitor.Consume | produce_consume/model1/main3.go:59-75 | one stay of a consumer in the lock is exactly one consumer step |
| SharedCondition.Monitor.Run | produce_consume/model1/main3.go:81-92 | under the same condition and any scheduler the program terminates with all products made and all goroutines returned |
| SharedConditionDeadlock.Swing | produce_consume/model1/main3.go:28-75 | a schedule of real steps from empty to full and back parks everybody or reaches the next level exactly |
| SharedConditionDeadlock.DeadlockReachableExactly | produce_consume/model1/main3.go:9-14 | for any numbers of producers, consumers, places and products, a deadlock is reachable if and only if the stated condition on these numbers holds |
| SharedConditionDeadlock.DeadlockFreeExactlyWhenRoomy | produce_consume/model1/main3.go:9-14 | no number of products makes a deadlock reachable if and only if producers + consumers <= 2 * capacity |
| SharedConditionDeadlock.OwnTotalExactly | produce_consume/model1/main3.go:13 | with producers * capacity products, as in the program, a deadlock is reachable if and only if there are two producers or more, more than two threads for each place, and, if only one too many, at least capacity + 2 producers |
| WorkerPool.ChannelsKept | handleMillionRequest/main.go:34-48 | every step keeps that pool and job goroutines own, each once, exactly the channels on which a worker waits |
| WorkerPool.ChannelInOnePlace | handleMillionRequest/main.go:37-39 | a worker's channel is in one place if the worker is waiting and in none if it is registering or running |
| WorkerPool.RegisterNeverBlocks | handleMillionRequest/main.go:37 | a worker's send to the pool always finds room |
| WorkerPool.DeliverNeverBlocks | handleMillionRequest/main.go:89-91 | a job goroutine that has a channel always finds its worker waiting on it |
| WorkerPool.PoolAndJobsBounded | handleMillionRequest/main.go:62-68 | pooled channels and running jobs together never exceed maxWorkers |
| WorkerPool.JobsKept | handleMillionRequest/main.go:38-42 | every step keeps submitted = pending + queued + fetching or held + running + completed, as multisets |
| WorkerPool.JobsInOrderKept | handleMillionRequest/main.go:86-119 | every step keeps that the jobs whose goroutines have been started, followed by the queue, are the jobs sent, in the order of sending |
| WorkerPool.ChannelsInOrderKept | handleMillionRequest/main.go:37-89 | every step keeps that the channels taken from the pool, followed by the pool, are those put in, in that order |
| WorkerPool.SentOrPendingKept | handleMillionRequest/main.go:118-119 | every step keeps that each submitted job is either sent or pending |
| WorkerPool.BlockedExactlyWhenFull | handleMillionRequest/main.go:119 | the handlers with jobs to send are all blocked if and only if the queue is full and not empty, and then the dispatcher can go on |
| WorkerPool.AlwaysOwned | handleMillionRequest/main.go:76-93 | in every reachable state the channels are owned once, no job is lost or run twice, and jobs and channels keep their order |
| WorkerPool.MeasureDrops | handleMillionRequest/main.go:34-93 | each channel operation uses up exactly one of the operations to come, two for a hand-over on an empty queue |
| WorkerPool.EveryRunEnds | handleMillionRequest/main.go:76-93 | every run has at most 6 * jobs + maxWorkers channel operations |
| WorkerPool.CompletedExactlyWhenStuck | handleMillionRequest/main.go:34-93 | with at least one worker, no step is possible exactly when every job is completed and every worker waits |
| WorkerPool.FinishedAtTheEnd | handleMillionRequest/main.go:76-93 | a run of at least one worker that cannot go on has completed exactly the submitted jobs, which were started in the order of sending |
| WorkerPool.NoWorkerNoCompletion | handleMillionRequest/main.go:77-80 | without workers no job is ever completed |
| WorkerPool.Dispatcher.constructor | handleMillionRequest/main.go:67-83 | starts with empty channels and all workers about to register |
| WorkerPool.Dispatcher.SendJob | handleMillionRequest/main.go:118-119 | a handler's send appends the job to a queue with room |
| WorkerPool.Dispatcher.HandJobOver | handleMillionRequest/main.go:86-119 | a handler's send on an empty queue meets the dispatcher's receive, which is how an unbuffered queue works |
| WorkerPool.Dispatcher.Dispatch | handleMillionRequest/main.go:86-87 | takes the first queued job, starts its goroutine, and leaves the rest of the queue in order |
| WorkerPool.Dispatcher.FetchChan | handleMillionRequest/main.go:89 | a job's goroutine takes the first channel of the pool |
| WorkerPool.Dispatcher.DeliverJob | handleMillionRequest/main.go:39-91 | a job passes to the worker of the held channel, which runs it, and its goroutine ends |
| WorkerPool.Dispatcher.RegisterWorker | handleMillionRequest/main.go:37 | a worker puts its own channel at the end of the pool and waits |
| WorkerPool.Dispatcher.CompleteJob | handleMillionRequest/main.go:40-42 | a worker's job is completed and the worker registers again |
| WorkerPool.Dispatcher.Run | handleMillionRequest/main.go:76-93 | under any scheduler all submitted jobs are completed in the end, and were started in the order of sending |
| MonitorQueue.NoLostWakeupKept | produce_consume/model1/main2.go:26-61 | every step keeps: while a consumer is parked, there are at least as many unparked consumers inside Consume as buffered items, even if one that was not signalled takes the item; after Terminated nobody is parked |
| MonitorQueue.ProduceAppends | produce_consume/model1/main2.go:26-34 | a Produce puts its item at the end of the buffer, and nobody is given or consumes anything by it |
| MonitorQueue.OnlyConsumersTake | produce_consume/model1/main2.go:44-48 | an item leaves the buffer only from the front and only into the hands of the consumer that has the mutex, and only then is it consumed |
| MonitorQueue.HandedOutKept | produce_consume/model1/main2.go:44-48 | every step keeps that each consumer was given, in the order of the queue, the items that it took, and that all together were given exactly the items consumed |
| MonitorQueue.InOrderKept | produce_consume/model1/main2.go:30-47 | every step keeps consumed ++ buffer = produced |
| MonitorQueue.FromScriptsKept | produce_consume/model1/main2.go:70-74 | every step keeps that a producer's items are, in order, the part of its values it has gone through |
| MonitorQueue.LeftForAReasonKept | produce_consume/model1/main2.go:40-84 | every step keeps that a consumer has left exactly for a zero item, or after termination with everything produced before it consumed |
| MonitorQueue.AlwaysSound | produce_consume/model1/main2.go:63-93 | all of these hold in every reachable state |
| MonitorQueue.EveryRunEnds | produce_consume/model1/main2.go:63-93 | every run has at most 4 * items + 3 * consumers + 1 steps |
| MonitorQueue.FinishedExactlyWhenStuck | produce_consume/model1/main2.go:54-88 | no step is possible exactly when all producers are through, the queue is terminated and all consumers have left |
| MonitorQueue.ConsumedInOrder | produce_consume/model1/main2.go:30-48 | the consumed log is a prefix of the produced one and keeps each producer's own order |
| MonitorQueue.AllGivenToConsumers | produce_consume/model1/main2.go:78-87 | in every reachable state what the consumers were given is, as a multiset, what was consumed, and each was given its share in order |
| MonitorQueue.CountedAtTermination | produce_consume/model1/main2.go:54-61 | the number that the drain is measured by is what had been produced when Terminated first ran, in every later state |
| MonitorQueue.GracefulDrain | produce_consume/model1/main2.go:40-51 | if no value is zero, once any consumer has left, everything produced before Terminated has been consumed, and all of it if nothing was produced later |
| MonitorQueue.EarlyLeaveExactlyOnZero | produce_consume/model1/main2.go:81-84 | before the termination some consumer has left if and only if a zero was consumed |
| MonitorQueue.ZeroEndsConsumer | produce_consume/model1/main2.go:82-84 | a run in which one zero item makes the only consumer leave before the termination |
| MonitorQueue.GracefulExactlyWithoutZeros | produce_consume/model1/main2.go:40-84 | for any producers' values and at least one consumer, no consumer ever leaves before the termination, and none before what was produced by then is consumed, if and only if none of the values is zero |
| MonitorQueue.TerminatedAgain | produce_consume/model1/main2.go:54-61 | a call of Terminated after the first changes nothing |
| MonitorQueue.Queue.constructor | produce_consume/model1/main2.go:20-24 | starts empty, not terminated, with no consumer inside |
| MonitorQueue.Queue.Produce | produce_consume/model1/main2.go:26-34 | appends the producer's next item and wakes one parked consumer, if there is one |
| MonitorQueue.Queue.Consume | produce_consume/model1/main2.go:36-52 | parks on an empty queue, else returns the first item's value and removes it, else, terminated, the zero value, on which the consumer leaves |
| MonitorQueue.Queue.Terminated | produce_consume/model1/main2.go:54-61 | sets the flag, at first or again, and wakes all parked consumers |
| MonitorQueue.Queue.Run | produce_consume/model1/main2.go:63-93 | under any scheduler and any moment of termination all goroutines finish, every script is produced in order, and what was produced before the termination is consumed unless a zero was |
| CancellableChannel.OrderlyKept | produce_consume/timeout/main3.go:38-80 | every step keeps received ++ queue = [1..sent], the counter at sent or one ahead, one close and no send after it, at most one send after the cancellation, and that a consumer leaves an empty closed channel |
| CancellableChannel.NeverStuck | produce_consume/timeout/main3.go:42-78 | the two goroutines are both blocked or gone exactly when both are gone, even if the timeout never comes |
| CancellableChannel.OnlyThroughTheChannel | produce_consume/timeout/main3.go:47-74 | a value enters the channel only by a send, at its end, and leaves it only by a receive of the consumer, at its front; nothing else changes what was sent, received or closed |
| CancellableChannel.SelectsTakeAnyReadyCase | produce_consume/timeout/main3.go:48-77 | each select can take a case if and only if that case is ready |
| CancellableChannel.TakenAsSent | produce_consume/timeout/main3.go:46-76 | in every run, what the consumer's receives took, followed by the channel, is what the producer's sends offered, 1, 2, 3, ... in order |
| CancellableChannel.RemainingDrops | produce_consume/timeout/main3.go:42-78 | after the cancellation each step lowers a measure of queue length and control points |
| CancellableChannel.ShortAfterCancel | produce_consume/timeout/main3.go:73-77 | at most capacity + 6 steps follow the cancellation |
| CancellableChannel.AlwaysOrderly | produce_consume/timeout/main3.go:83-97 | the invariant holds in every reachable state |
| CancellableChannel.AllReceivedAtTheEnd | produce_consume/timeout/main3.go:40-80 | a run that cannot go on has closed the channel once, without a panic, and the consumer has received exactly [1..sent] in order, by whichever exit it left |
| CancellableChannel.Program.Produce | produce_consume/timeout/main3.go:39-57 | a step of the producer takes either ready case of its select and has exactly that step's effect |
| CancellableChannel.Program.Consume | produce_consume/timeout/main3.go:61-79 | a step of the consumer takes either ready case of its select and returns the first value of the channel exactly if it receives |
| CancellableChannel.Program.Run | produce_consume/timeout/main3.go:83-97 | after any number of steps, the timeout, and any schedule, both goroutines are gone and the consumer's own steps have returned every value sent, in order |
| ParallelSum.BlockSumsTogether | csapp/echo/psum-mutex.c:54-56 | the blocks of all threads add up to one range from zero |
| ParallelSum.RangeSumExpected | csapp/echo/psum-mutex.c:42 | 0 + ... + (m-1) is the m(m-1)/2 of the final check |
| ParallelSum.AcceptedExactly | csapp/echo/psum-array.c:28-32 | the guard accepts exactly the powers of two up to the number of elements, for at most 2^31 elements |
| ParallelSum.FitsInLong | csapp/echo/psum-array.c:49 | for at most 2^31 elements the square of their number is at most 2^62 |
| ParallelSum.CheckPassesExactly | csapp/echo/psum-mutex.c:25-42 | without a guard the check passes if and only if the threads divide the elements, or there is one element |
| PsumMutex.MutualExclusion | csapp/echo/psum-mutex.c:60-62 | two threads are never both between P and V |
| PsumMutex.ConsistentKept | csapp/echo/psum-mutex.c:59-63 | every step keeps gsum = the sum over the threads of the indices passed, and that a thread about to write holds the current value |
| PsumMutex.JoinedExactlyWhenStuck | csapp/echo/psum-mutex.c:32-39 | no thread can move exactly when all have returned |
| PsumMutex.EveryRunEnds | csapp/echo/psum-mutex.c:59-63 | every interleaving ends within four steps for each element and three more for each thread |
| PsumMutex.SumAtTheEnd | csapp/echo/psum-mutex.c:32-42 | every finished interleaving has gsum = m(m-1)/2 for m the elements in all blocks |
| PsumMutex.Program.Step | csapp/echo/psum-mutex.c:59-63 | P, read, write and V of a thread, each with exactly its own effect |
| PsumMutex.Program.Run | csapp/echo/psum-mutex.c:32-39 | under any scheduler the threads end with the closed-form sum |
| PsumMutex.PsumMutex | csapp/echo/psum-mutex.c:22-45 | the error is printed if and only if the threads do not divide the elements and there is more than one element |
| PsumCells.ConsistentKept | csapp/echo/psum-array.c:58-69 | every step of either variant keeps that each thread's cell, value in hand or local sum is the sum of the indices it has passed, and in the local variant that a cell is zero until its thread stores the sum |
| PsumCells.JoinedExactlyWhenStuck | csapp/echo/psum-array.c:36-42 | no thread can move exactly when all have returned |
| PsumCells.SumAtTheEnd | csapp/echo/psum-local.c:35-50 | every finished interleaving of either variant fills the cells with the block sums, which add up to m(m-1)/2 |
| PsumCells.NoOverflow | csapp/echo/psum-array.c:28-49 | for accepted arguments the start, end and indices of every block, every cell and value in hand in every reachable state, all partial results of the reduction after the joins, and the product of the check fit a signed 64-bit long |
| PsumCells.ReductionBounded | csapp/echo/psum-array.c:44-46 | the partial results of the reduction never exceed the final sum |
| PsumCells.Program.Step | csapp/echo/psum-local.c:55-66 | a read, write, local addition or return of a thread, each with exactly its own effect |
| PsumCells.Program.Run | csapp/echo/psum-array.c:36-42 | under any scheduler each cell ends with the sum of its thread's block |
| PsumCells.Program.Reduce | csapp/echo/psum-local.c:44-46 | adds up the cells |
| PsumCells.Psum | csapp/echo/psum-local.c:24-53 | the arguments are rejected exactly as the guard promises, and otherwise the final check never fails |
| ChatProtocol.Parse | chatserver/protocol/reader.go:19-58 | on any input a Read consumes a byte or reports EOF with nothing left, gives a command exactly when it gives no error, and no payload it returns contains a newline, no message name a space |
| ChatProtocol.RoundTripExactly | chatserver/protocol/writer.go:21-35 | a written command reads back as itself, and leaves what follows, if and only if it is well formed |
| ChatProtocol.RoundTripAllExactly | chatserver/protocol/reader.go:60-75 | ReadAll gives back a written list, with nil error, if and only if every command is well formed |
| ChatProtocol.ReadExactly | chatserver/protocol/reader.go:19-58 | on any input, Read returns a command and leaves a rest if and only if the command is well formed and the input is what Write prints for it, followed by that rest |
| ChatProtocol.UnknownExactly | chatserver/protocol/reader.go:54-57 | a Read reports an unknown command, and leaves a rest, if and only if the input is a word that is none of the three names, a space, and that rest |
| ChatProtocol.EndExactly | chatserver/protocol/reader.go:21-51 | a Read reports EOF if and only if the input has no space or is a proper prefix of what Write prints for a well-formed command |
| ChatProtocol.LinesRead | chatserver/protocol/reader.go:26-53 | what the three kinds of lines read as, letter by letter |
| ChatProtocol.ReadAllExactly | chatserver/protocol/reader.go:60-75 | on any input, ReadAll returns a list and an error if and only if the list is well formed and the input is what Write prints for it, followed by a rest on which Read reports EOF, for a nil error, or an unknown command |
| ChatProtocol.ParseCutShort | chatserver/protocol/reader.go:21-51 | a command cut short reads as EOF, never as an unknown command |
| ChatProtocol.ParseTruncated | chatserver/protocol/reader.go:60-75 | on any byte prefix of a well-formed stream ReadAll returns, with nil error, exactly the commands that fit |
| ChatProtocol.FittingIsLongest | chatserver/protocol/reader.go:60-75 | these are the longest prefix of the commands whose encodings fit |
| ChatProtocol.CommandReader.ReadString | chatserver/protocol/reader.go:21 | takes the input up to and with the first delimiter, or all of it at EOF |
| ChatProtocol.CommandReader.Read | chatserver/protocol/reader.go:19-58 | returns the command, the error and the rest of the input that the grammar gives |
| ChatProtocol.CommandReader.ReadAll | chatserver/protocol/reader.go:60-75 | collects the commands up to the end of the input, or up to the first unknown one with its error, and leaves what that Read leaves |
| ChatProtocol.CommandWriter.Write | chatserver/protocol/writer.go:21-35 | appends one whole line for a command, and nothing but an error for any other value |
| ChatServer.ParseFrame | chatserver/protocol/writer.go:27-28 | a frame without newlines reads as one message with the same name, space and text, wherever the first space is |
| ChatServer.FramedByServe | chatserver/server/tcp_server.go:107-128 | a Read of a serve loop keeps that all frames relay a SEND under the last NAME before it |
| ChatServer.FramedByWrite | chatserver/server/tcp_server.go:55-60 | the write of any frame to any client keeps that every output is a sequence of whole frames |
| ChatServer.WriteAppendsLine | chatserver/server/tcp_server.go:57 | a write appends exactly the line of its frame to the output of one client, and changes nothing else |
| ChatServer.ServeReads | chatserver/server/tcp_server.go:107-128 | a Read of a serve loop sends nothing, changes only its own client, and starts a broadcast if and only if it reads a SEND, under the client's name |
| ChatServer.StepsExactlyWhile | chatserver/server/tcp_server.go:55-128 | a serve loop can read if and only if it has not seen the end of its input, and a started broadcast can write to any client |
| ChatServer.LastNameExactly | chatserver/server/tcp_server.go:120-121 | the name a SEND is relayed under is that of the NAME after which no other comes, or empty if there is none |
| ChatServer.ReadByServeExactly | chatserver/server/tcp_server.go:107-128 | a serve loop reads each written command, passes over each unknown one, and ends at the end of the input or a command cut short |
| ChatServer.EverySendIsBroadcast | chatserver/server/tcp_server.go:113-122 | in every reachable state the broadcasts that a serve loop has started are, in order, exactly those that the SENDs it has read call for, and those of its whole input once it has ended |
| ChatServer.DeliveredOverRun | chatserver/server/tcp_server.go:55-60 | in every run a client's output is, in order, the line of each frame that a step of the run wrote to it |
| ChatServer.EndToEnd | chatserver/server/tcp_server.go:55-129 | for any client bytes and any interleaving, a client's output reads without error as one message for each frame written to it, with the text of a SEND that some serve loop reads under the last NAME it reads before |
| ChatServer.EndToEndOverRun | chatserver/server/tcp_server.go:55-129 | the same, with one message for each step of the run that wrote a frame to the client |
| ChatClients.RelayIsRelayed | chatserver/server/tcp_server.go:107-122 | a serve loop broadcasts, in order, each SEND of its whole input under the last NAME before it |
| ChatClients.MembersOverCalls | chatserver/server/tcp_server.go:75-98 | over any calls of accept and remove the list holds exactly the clients accepted and not removed since |
| ChatClients.DistinctOverCalls | chatserver/server/tcp_server.go:75-98 | and holds each once, if each accepted client is new |
| ChatClients.OrderOverCalls | chatserver/server/tcp_server.go:75-98 | and in the order in which they were accepted |
| ChatClients.StaleTail | chatserver/server/tcp_server.go:92-94 | after the shift the rest of the range loop does not meet the removed client again |
| ChatClients.TcpChatServer.Accept | chatserver/server/tcp_server.go:75-86 | appends a new client, in place or in a larger array |
| ChatClients.TcpChatServer.ShiftLeft | chatserver/server/tcp_server.go:94 | moves the elements after an index one down and leaves those from the last on as they were |
| ChatClients.TcpChatServer.Remove | chatserver/server/tcp_server.go:88-96 | deletes exactly the given client in place, keeps the others in order, and slices within bounds |
| ChatClients.TcpChatServer.Broadcast | chatserver/server/tcp_server.go:55-60 | appends the frame once to each client's output |
| ChatClients.TcpChatServer.Serve | chatserver/server/tcp_server.go:101-129 | reads to the end of the input and starts exactly the broadcasts it calls for, from the client's name so far |
| ClientPool.FreeSlot | csapp/echo/echo4.c:64-81 | by pigeonhole a slot is free if descriptors are below the number of slots and one is not a client's |
| ClientPool.CountedDownNext | csapp/echo/echo4.c:90-96 | if the countdown equals the number of ready clients from a slot on, it does so at the next slot |
| ClientPool.ScanDone | csapp/echo/echo4.c:90 | at either end of the loop the countdown is zero and no ready client is left |
| ClientPool.ReadyClients | csapp/echo/echo4.c:31-39 | the reported descriptors are the ready clients and perhaps the listening one |
| ClientPool.Pool.constructor | csapp/echo/echo4.c:46-58 | starts with all slots empty and only the listening descriptor watched |
| ClientPool.Pool.AddClient | csapp/echo/echo4.c:60-82 | fills the first free slot, raises the two marks, keeps the pool valid, and never finds too many clients |
| ClientPool.Pool.CheckSlot | csapp/echo/echo4.c:91-108 | serves a ready client, closes another one, and reports an empty slot |
| ClientPool.Pool.CheckClients | csapp/echo/echo4.c:84-110 | serves each ready client once and counts down to zero, leaves exactly the slots the scan promises, and ends the run exactly if an empty slot comes before a ready client |
| ClientPool.Pool.Poll | csapp/echo/echo4.c:29-39 | the countdown starts at the number of ready clients, also after a new client has taken the first free slot |
| ClientPool.Pool.Round | csapp/echo/echo4.c:29-43 | a round keeps the pool valid and ends the run exactly if an empty slot comes before a ready client; otherwise it handles each ready client once, leaves exactly the promised slots, and drops no ready descriptor; a round that ends the run has done so up to that slot |
| ClientPool.Pool.Serve | csapp/echo/echo4.c:29-43 | over any events, each round handles exactly the clients that are ready, each once, in the slots that the rounds before have left, and the run ends exactly at the first round in which an empty slot comes before a ready client |
| ClientPool.ExitsOnlyAfterClosing | csapp/echo/echo4.c:95-107 | from slots without a gap, Close(-1) ends a run only after a round that closed a client because it was not ready |
| ClientPool.CloseMinusOneReached | csapp/echo/echo4.c:104-107 | a run from the empty pool in which it does: two clients connect, the second sends something, and sends something again |

## Left out

- Sockets, HTTP, TLS, DNS, the terminal UI, logging and printing: input and output only.
- Times: sleeps, tickers and the order in which a real scheduler would take the steps.
- The lock itself in main2.go and main3.go: a stay inside the mutex is one step, so that contention for it is the choice
  of the next step.
- Signal order: Go's implementation wakes waiters in the order of their waits; the model allows any.
- The products left in the buffer of main3.go when it is done: every consumer prints the same remainder, and none of it
  is taken.
- `Worker.stop` and `quit`, request validation and status codes in handleMillionRequest/main.go: `run` never calls the
  former, and the latter come before the send.
- An unbuffered channel in timeout/main3.go: the program's channel has ten places, the model any number from one on.
- Broadcast fairness and order: `Broadcast` reads the client slice without the lock in a goroutine of its own, so that
  `ChatServer.EndToEnd` lets any frame reach any client at any time; `ChatClients.TcpChatServer.Broadcast` is one call of
  it that nothing interrupts.
- `TcpChatServer.Send` and the client program: a lookup, and the same protocol from the other side.
- Connection errors other than the end of the input: the reader returns them unchanged.
- Resynchronisation after a malformed line: the reader looks for a space, not for the end of the line, and what it then
  reads is whatever follows.
- The Rio buffers of echo4.c, byte counts and echoed text: the Rio package is not part of this model.
- Descriptor 0 as a client of echo4.c: the test `connfd > 0` never serves it; the model takes it to be in use as
  standard input.
- Shifts by 63 or more and zero threads in the argument handling of the sums: undefined in C.
- More than MAXTHREADS (32) threads: all three sums have arrays of 32 thread identifiers and do not check for more, which
  is undefined in C. The theorems about psum-mutex.c hold for any number of threads, as if the arrays were long enough;
  the class for the other two has the array of 32 cells and takes no more.
- A connection that `Accept` of echo4.c can not give a descriptor below FD_SETSIZE: the assumption above excludes it.
- csapp/charpter11, socket_program, the other echo programs, timeout/main1.go and main2.go, model1/main1.go and
  leetcode_concurrency: plumbing or small finite cases.
