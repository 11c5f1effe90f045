# slurm-tracer: a verified model

slurm-tracer is a node daemon. Kernel events arrive over ring buffers, are attributed to Slurm jobs through a table
of cgroups, are enriched and batched by a pipeline, and are fanned out to sinks, each with a bounded queue and a worker
thread of its own. On SIGHUP the daemon adds and removes probes and sinks while it runs. This project models those state
machines in Dafny and proves what they promise over whole runs. `dafny verify dfyconfig.toml` checks all of it.

| module | what it models |
|---|---|
| `SinkQueue`, `Flush` | the bounded queue of a sink: write, take, settle, complete, notify, stop, with every accepted batch's fate tracked; flush, wakeups and shutdown over every interleaving |
| `Framing`, `HttpDelivery` | reading a response off a kept connection from an arbitrary split into receives; connecting, posting, one retry, run together with the queue, and the accounting of losses |
| `CgroupPath`, `Resolver`, `AttributionSoundness` | cgroup paths to jobs; the resolver's table as a function of the calls it saw; its answers against the kernel's own history |
| `Pipeline`, `EndToEnd` | enriching, batching, fan-out; pipeline and sink worker running together, with every record accounted for |
| `EventLoop`, `Loader`, `Config` | the shared ring buffer and its rebuild; plugin handles and open counts; the reload diff |
| `DaemonSteps`, `Reload`, `Startup`, `Watcher` | adding and removing components one state per step; what any sequence of reloads keeps and reaches; bringing the daemon up; when the cgroup watcher falls out of the loop |
| `DaemonObject` | the daemon object, whose methods pass through exactly those states, from construction to the last reload |
| `Settings`, `Text` | the endpoint and duration parsers; strings, digits and numbers |

What the source does step by step on fields and buffers is a class or a method with loops (`QueueingSink`, `HttpSink`,
`CgroupResolver`, `Pipeline`, `Events`, `PluginLoader`, `Daemon`, the parsers and receive loops), proved equal to a
function of the old state; the laws are lemmas about those functions. Threads are interleaved at lock boundaries. What the
system asks of the world (addresses, sends and receives, opening plugins, arming buffers, clocks, the user database) is a
parameter, so each law holds for every answer.

Three promises hold only under conditions, which are proved to be exact:

- A recycled cgroup id must not inherit the previous job's identity (docs/DESIGN.md, section 4). Three inputs break this.
  An event whose cgroup's creation still waits in the watcher's own ring is given the job that had the id before
  (`UndeliveredCreationInherits`; the same section promises that there is no such race). An event of an id no job has,
  because it is free again or went to a cgroup that is not job work, names the last job that had it until the grace period
  ends (`FreeIdStillNamesJob`, `RecycledIntoNonJob`). `RightExactly` is the condition for every history and every order of
  delivery; `RightWhenDelivered` what it comes to once everything up to the event has been delivered: right whenever some job
  has the id.
- `Sink::flush` blocks until the queued batches have been written out (src/core/sink/sink.h). It does over every
  interleaving with as many writes as the queue can hold, or when the worker has no second batch ahead of it. Otherwise one
  write more is enough for it to return while a batch accepted before it is still held, whatever the capacity:
  `FlushExactly`, with `EarlyReturn` as a concrete run. The daemon's single thread never writes during a flush.
- Draining the response body keeps what follows on an open connection intact, exactly when the response is chunked, asks to
  close, has no more body than the length waited for, or has a header block too long ever to be read: `ReadsAllExactly`.

A removal promises to detach and forget every probe that its rebuild of the loop drops (src/core/daemon.cpp:293-297). The
cgroup watcher, which has no slot, is skipped: `RemovalLosesExactly` says when it is lost, `WatcherIsLost` that this happens
from a fresh start, and `LostWatcherStaysLost` that no reload repairs it.

Losing the watcher is said not to stop the daemon (src/core/daemon.cpp:56-61, docs/DESIGN.md, section 4). That holds for a
daemon that runs. One that is starting returns false (src/core/daemon.cpp:112-113), and the model follows the code:
`StartNeedsWatcher`.

## Model

| member | source | states |
|---|---|---|
| `SinkQueue.QueueingSink.Stdout` | src/sinks/stdout_json/sink.cpp:9-13 | a capacity of zero is taken as one; the empty queue satisfies the queue invariant |
| `SinkQueue.QueueingSink.Http` | src/sinks/http/sink.cpp:69-72 | the http sink takes its capacity as given, and the queue invariant holds exactly when it is not zero |
| `SinkQueue.QueueingSink.Write` | src/sinks/stdout_json/sink.cpp:25-41 | the drop loop and the push, on the fields, are the write step of the protocol; an empty batch changes nothing; the invariant is kept; the loop comes to pop an empty queue exactly on a nonempty batch at capacity zero |
| `SinkQueue.QueueingSink.TakeOrLeave` | src/sinks/stdout_json/sink.cpp:53-63 | the worker takes the front, or leaves exactly when it is stopped with nothing queued, and keeps the invariant |
| `SinkQueue.QueueingSink.SettleBatch` | src/sinks/stdout_json/sink.cpp:65-73 | the held batch ends up at the end of the output or counted as dropped, nowhere else |
| `SinkQueue.QueueingSink.CountBatch` | src/sinks/stdout_json/sink.cpp:75-78 | counting a settled batch as written keeps queued = written + waiting + in the worker |
| `SinkQueue.QueueingSink.BeginStop` | src/sinks/stdout_json/sink.cpp:15-19 | stopping touches nothing but the stop flag |
| `SinkQueue.QueueingSink.NotifyFlushers` | src/sinks/stdout_json/sink.cpp:79 | after counting a batch the worker notifies and is back at its wait |
| `SinkQueue.QueueingSink.Exit` | src/sinks/stdout_json/sink.cpp:82 | after the loop the worker notifies once more and is gone |
| `SinkQueue.StoppedExactly` | src/sinks/stdout_json/sink.cpp:15-19 | a sink is stopping iff a stop has happened |
| `SinkQueue.DroppedCounts` | src/sinks/stdout_json/sink.cpp:25-41 | over every run the dropped counter is the writes that found the queue full plus the batches settled as failed, and nothing else |
| `SinkQueue.WriteDropsAtMostOne` | src/sinks/stdout_json/sink.cpp:29-39 | a write drops nothing unless the queue is full, and then exactly one batch, the oldest queued |
| `SinkQueue.StepKeepsInv` | src/sinks/stdout_json/sink.cpp:25-83 | every step of writers, worker and destructor keeps the invariant |
| `SinkQueue.ReachableInv` | src/sinks/stdout_json/sink.cpp:25-83 | in every state any interleaving reaches: each accepted batch has exactly one fate; the queue is the contiguous tail of what was accepted, no longer than the capacity; the output is what was delivered, in order; written + queue + in worker = queued; dropped counts overflowed and failed batches |
| `SinkQueue.DeliveryIsOrdered` | src/sinks/stdout_json/sink.cpp:50-71 | the output is the subsequence of accepted batches with fate delivered, in increasing order, none missing, none doubled |
| `Flush.QuietFlushDrains` | src/sinks/stdout_json/sink.cpp:43-48 | if nothing is written while a flush waits and the sink is not stopping, on return the queue is empty, the worker holds nothing and every accepted batch is handled |
| `Flush.BusyFlushLeavesOnlyHeld` | src/sinks/stdout_json/sink.cpp:43-48 | with writes interleaved, the only batch accepted before the flush that can be unhandled on return is the one the worker holds |
| `Flush.FewWritesDrain` | src/sinks/stdout_json/sink.cpp:29-48 | with at most a queue of writes interleaved, every batch accepted before the flush is handled on return |
| `Flush.FlushExactly` | src/core/sink/sink.h:27-28 | flush keeps its promise over every interleaving with up to n writes if and only if the queue can hold n batches, or the worker has no second batch ahead of it when the flush begins |
| `Flush.Overtaken` | src/sinks/stdout_json/sink.cpp:29-48 | for every capacity, and every state with another batch left to take: an interleaving with capacity + 1 writes in which the flush, woken and overtaken, returns with a batch still held |
| `Flush.EarlyReturn` | src/core/sink/sink.h:27-28 | a concrete run, woken by a notification and overtaken by overflowing writes, in which flush returns while a batch accepted before it is still held: the exception is real |
| `Flush.EventKeepsSystemInv` | src/sinks/stdout_json/sink.cpp:43-82 | no lost wakeup, step by step: while a flush sleeps the worker has a notification still ahead of it, even after drops moved the written counter silently |
| `Flush.RunKeepsSystemInv` | src/sinks/stdout_json/sink.cpp:43-82 | the same over every run of writers, worker and flushing thread |
| `Flush.BlockedFlushIsServed` | src/sinks/stdout_json/sink.cpp:46-82 | a sleeping flush always leaves the worker a step to take, and once the worker is done no flush is left waiting |
| `Flush.WorkerStep` | src/sinks/stdout_json/sink.cpp:50-83 | unless asleep for good reason or gone, the worker has an enabled step, whatever a post returns |
| `Flush.WorkerRunsOut` | src/sinks/stdout_json/sink.cpp:50-83 | left alone the worker takes at most a rank of steps fixed by queue length and position |
| `Flush.FlushReturns` | src/sinks/stdout_json/sink.cpp:43-83 | with no new writes a sleeping flush is woken within that many worker steps and returns |
| `Flush.CompletionsDrain` | src/sinks/stdout_json/sink.cpp:46-76 | without writes completions and what is still queued or held add up to what was, so the wait is over after exactly &#124;queue&#124; + held completions |
| `Flush.CompletionsSuffice` | src/sinks/stdout_json/sink.cpp:25-76 | however many writes come in between, a flush waits for no more completions than batches were queued and held when it began |
| `Flush.DrainedAddsUp` | src/sinks/stdout_json/sink.cpp:25-83 | with nothing queued or held every accepted batch is handled and output + dropped = accepted |
| `Flush.JoinMeansHandled` | src/sinks/stdout_json/sink.cpp:15-23 | the destructor joins only after every accepted batch was output or dropped |
| `Flush.StoppedWorkerExits` | src/sinks/stdout_json/sink.cpp:50-83 | a stopped worker left to itself does exit, so the join returns |
| `Framing.StatusLineIsFirstLine` | src/sinks/http/sink.cpp:199-200 | the status line cut from the whole buffer is the first line of the header block, wherever the receive stopped |
| `Framing.ReceiveHead` | src/sinks/http/sink.cpp:177-197 | the header loop returns the buffer cut at its first blank line, or gives up at end of stream or past 64 KiB |
| `Framing.ReceiveBody` | src/sinks/http/sink.cpp:215-225 | the body loop reads until the announced length or the end of the stream |
| `Framing.ReadStatus` | src/sinks/http/sink.cpp:199-201 | the verdict is that of the header block |
| `Framing.VerdictIs` | src/sinks/http/sink.cpp:45-52 | a first line of a version without blanks, a blank and a number, and then its end or a blank, is a success iff that number is from 200 to 299 |
| `Framing.NoStatusNoSuccess` | src/sinks/http/sink.cpp:45-48 | a first line without a blank is no success |
| `Framing.VerdictIsStatus` | src/sinks/http/sink.cpp:177-234 | on every split post is true iff the status line of the header block names a number from 200 to 299 |
| `Framing.OnlyAnswersSucceed` | src/sinks/http/sink.cpp:183-201 | on every split post is true only for a whole header block of such a status, and a stream without one costs the connection |
| `Framing.WantIs` | src/sinks/http/sink.cpp:56-65 | the length waited for is the number the first Content-Length gives: blanks, digits, then the end of the line or the block; at most what 64 bits hold |
| `Framing.NumbersRead` | src/sinks/http/sink.cpp:51 | the number readers skip white space, read digits as far as they run, and a minus sign negates, modulo 2^64 for the length |
| `Framing.MentionsExactly` | src/sinks/http/sink.cpp:203-213 | chunked and close are exactly the phrases anywhere in the block in any case; without the length field none is waited for |
| `Framing.LowerIs` | src/sinks/http/sink.cpp:37-41 | A to Z become a to z and nothing else changes |
| `Framing.AnswerIs` | src/sinks/http/sink.cpp:177-234 | the whole answer off the text: for a header block with a status line, not chunked, announcing the body length or announcing none with no body, every split gives true iff the status is from 200 to 299, everything consumed, closed iff the block asks for it |
| `Framing.ReadBody` | src/sinks/http/sink.cpp:203-234 | chunked closes, a length is read off, no length means no body |
| `Framing.ReadResponse` | src/sinks/http/sink.cpp:177-234 | the receive loops compute the outcome function the laws below are about |
| `Framing.CutPrefix` | src/sinks/http/sink.cpp:189-190 | bytes received later never move a header terminator already found |
| `Framing.SplitIndependent` | src/sinks/http/sink.cpp:177-234 | section 6.3 of RFC 9112: for a header block within the limit, not chunked, whose first content-length match is the body length, every split into receives gives the same outcome: true iff 2xx, everything consumed, closed iff the response asks for it |
| `Framing.ShortBodyCloses` | src/sinks/http/sink.cpp:218-224 | a body shorter than announced costs the connection, not the verdict, on every split |
| `Framing.ChunkedCloses` | src/sinks/http/sink.cpp:209-213 | a chunked response is never drained and its connection is closed |
| `Framing.HeadReadExactly` | src/sinks/http/sink.cpp:183-197 | every split gets the header read if and only if it fits the limit checked between receives |
| `Framing.ReadsAllExactly` | src/sinks/http/sink.cpp:183-232 | no split leaves bytes of a response on a connection that stays open, if and only if the header block exceeds the limit by more than one receive can bridge, or the response is chunked, asks to close, or has no more body than the length waited for |
| `Framing.SomeSplitReads` | src/sinks/http/sink.cpp:183-197 | some split gets the header block read if and only if one receive can bridge what is past the limit |
| `Framing.NoContentKeepsAlive` | src/sinks/http/sink.cpp:199-232 | a 204 answer without fields is a response that can be framed and keeps the connection |
| `Framing.EachReadsItsOwn` | src/sinks/http/sink.cpp:153-235 | section 9.3 of RFC 9112: over any number of posts on one kept connection each reads its own response and only that, however each is split, and is true iff its status line names a number from 200 to 299 |
| `HttpDelivery.HttpSink.EnsureConnected` | src/sinks/http/sink.cpp:109-144 | a kept connection is reused; otherwise the first address that connects is, and every socket that failed is closed again |
| `HttpDelivery.HttpSink.CloseConnection` | src/sinks/http/sink.cpp:146-151 | afterwards no socket is open and fd is -1 |
| `HttpDelivery.HttpSink.Post` | src/sinks/http/sink.cpp:153-235 | verdict and remaining connection of one post; one socket is open if and only if fd says so |
| `HttpDelivery.HttpSink.DeliverBatch` | src/sinks/http/sink.cpp:258-265 | one retry, on a fresh connection, exactly when the first post fails |
| `HttpDelivery.HttpSink.constructor` | src/sinks/http/sink.cpp:69-72 | no connection, an empty queue of the given capacity |
| `HttpDelivery.HttpSink.TakeOrLeave` | src/sinks/http/sink.cpp:240-250 | the worker takes the front, or leaves exactly when stopped with nothing queued |
| `HttpDelivery.HttpSink.PostHeld` | src/sinks/http/sink.cpp:252-265 | without the lock: the batch held is posted, once or twice, on the connection the one before left, and settled by what the posts returned |
| `HttpDelivery.HttpSink.Count` | src/sinks/http/sink.cpp:267-270 | the second critical section counts the settled batch |
| `HttpDelivery.HttpSink.NotifyFlushers` | src/sinks/http/sink.cpp:271 | then the flushers are notified |
| `HttpDelivery.HttpSink.Exit` | src/sinks/http/sink.cpp:274-275 | after the loop the connection is closed before the last notification |
| `HttpDelivery.HttpSink.Write` | src/sinks/http/sink.cpp:84-101 | a writer between any two steps of the worker; at capacity zero, which is accepted unchecked, its first nonempty batch pops an empty queue |
| `HttpDelivery.HttpSink.BeginStop` | src/sinks/http/sink.cpp:74-79 | the destructor between any two steps of the worker |
| `HttpDelivery.HttpSink.Others` | src/sinks/http/sink.cpp:84-101 | all that other threads do comes about, until one of them begins to destroy the sink, and leaves the worker where it is |
| `HttpDelivery.HttpSink.Run` | src/sinks/http/sink.cpp:237-276 | the worker loop, other threads acting at every point where it does not hold the lock: all they do comes about, the object is always where its recorded moves lead, and it ends with every batch taken and the worker waiting, or stopped and exited with no socket open |
| `HttpDelivery.RunIsLogged` | src/sinks/http/sink.cpp:84-276 | over every run of queue and connection together: each settled batch is logged once, in order, with the verdict of its posts, each on the connection the one before left; after the worker exits there is none |
| `HttpDelivery.DeliverExactly` | src/sinks/http/sink.cpp:153-235 | a post succeeds iff a connection is left or an address connects, the request gets out and the answer is a success; the second is made iff the first fails and dials afresh; what connection remains |
| `HttpDelivery.SeenExactly` | src/sinks/http/sink.cpp:109-197 | what a post depends on is what the network does: the first address that connects, whether the request gets out, the answer received |
| `HttpDelivery.OnceOrTwice` | src/sinks/http/sink.cpp:258-265 | in every run the posts logged are the posts made, in order, and from what the network did alone: each settled batch was posted once, or twice iff its first post failed; delivered iff a post succeeded, failed iff none did; and the connection left |
| `HttpDelivery.NothingSent` | src/sinks/http/sink.cpp:172-175 | a run in which no request gets out delivers nothing and counts every batch it settles as dropped |
| `HttpDelivery.HttpAccounting` | src/sinks/http/sink.cpp:84-276 | in every run dropped() equals the writes that found the queue full plus the batches whose two posts both failed |
| `HttpDelivery.ExitedMeansPosted` | src/sinks/http/sink.cpp:237-276 | once the worker has exited there is no connection, and every accepted batch was posted or overwritten in the queue |
| `Resolver.CgroupResolver.OnCreated` | src/core/attribution/attribution.cpp:251-263 | the table stays the replay of the calls; a path naming no job changes nothing |
| `Resolver.CgroupResolver.OnRemoved` | src/core/attribution/attribution.cpp:265-271 | only the first removal of an entry starts its grace period |
| `Resolver.CgroupResolver.Tick` | src/core/attribution/attribution.cpp:273-283 | one walk erases exactly the entries past their grace period |
| `Resolver.CgroupResolver.Resolve` | src/core/attribution/attribution.cpp:285-302 | hit, stale or miss, each counted once, so hits + misses + stale is the number of resolves |
| `Resolver.ReplayIsAnswer` | src/core/attribution/attribution.cpp:251-302 | after any sequence of calls the entry of any id is what the history calls for: its latest job creation, that creation's first later removal, unless a later tick found it past grace |
| `AttributionSoundness.ResolveIsSound` | src/core/attribution/attribution.cpp:285-302 | over every interleaving of the watcher ring with events and ticks, for an event whose lifecycle events up to its stamp are delivered: if some job has the id at that moment it resolves to that job or to none, and to it iff no later incarnation was delivered and grace is not over; if none has, it resolves under the same condition to the last job that had it |
| `AttributionSoundness.OwnerIsOccupant` | src/core/attribution/attribution.cpp:251-271 | the owner at a moment is the cgroup created by then and neither removed nor followed, if that is job work |
| `AttributionSoundness.OwnerOccupies` | src/core/attribution/attribution.cpp:251-271 | and there is an owner only while such a cgroup has the id |
| `AttributionSoundness.ZeroStampTakesNewest` | src/core/attribution/attribution.cpp:295-298 | a zero stamp bypasses the reuse guard: the newest incarnation answers |
| `AttributionSoundness.RightExactly` | docs/DESIGN.md:100-112 | for every history and however much of it is still undelivered, the answer names the job that had the id or nothing, if and only if no job creation was delivered by the event's stamp, or a later one was, or grace is over, or a job had the id and it names the same as the last one delivered |
| `AttributionSoundness.ResolveAnswers` | src/core/attribution/attribution.cpp:285-302 | whatever is undelivered, the answer is the last job creation delivered by the stamp, as long as no later one was delivered and grace is not over |
| `AttributionSoundness.RightWhenDelivered` | docs/DESIGN.md:110-112 | once everything up to the stamp is delivered: right if and only if a job had the id, or no earlier job ever did, or a later incarnation shadows it, or grace is over |
| `AttributionSoundness.UndeliveredCreationInherits` | docs/DESIGN.md:100-104 | the concrete history in which a job's event overtakes the creation of its cgroup, which waits in the watcher's own ring, and is given the job that had the id before |
| `AttributionSoundness.FreeIdStillNamesJob` | src/core/attribution/attribution.cpp:265-271 | the concrete history in which an event of an id nobody has still names the job that was removed |
| `AttributionSoundness.RecycledIntoNonJob` | src/core/attribution/attribution.cpp:252-254 | the concrete history in which a cgroup that is not job work inherits the previous job's identity |
| `AttributionSoundness.GraceExact` | src/core/attribution/attribution.cpp:276 | with the removal not ahead of the clock the wrapping test is elapsed time > grace, for entries with a nonzero removal stamp |
| `AttributionSoundness.GraceSkewed` | src/core/attribution/attribution.cpp:276 | with the removal ahead of the clock the subtraction wraps, and the entry goes at once unless grace is within the skew of 2^64 |
| `AttributionSoundness.GraceOverRuns` | src/core/attribution/attribution.cpp:265-281 | over every run on a sane clock an entry is there iff its cgroup is live or every tick since its removal came within the grace period |
| `CgroupPath.SplitPath` | src/core/attribution/attribution.cpp:21-32 | the loop yields the nonempty runs between slashes |
| `CgroupPath.SplitAfterIsSplit` | src/core/attribution/attribution.cpp:21-32 | splitting by index and splitting by suffix agree |
| `CgroupPath.SplitRender` | src/core/attribution/attribution.cpp:21-32 | segments spaced with any numbers of slashes come back exactly |
| `CgroupPath.SplitIsComplete` | src/core/attribution/attribution.cpp:21-32 | every path is some spacing of its segments: nothing but slashes is lost |
| `CgroupPath.ParseNumericSuffix` | src/core/attribution/attribution.cpp:36-54 | prefix, digits only, at most 32 bits |
| `CgroupPath.NumericSuffixExact` | src/core/attribution/attribution.cpp:34-54 | accepted with value n iff the segment is the prefix and digits denoting n within 32 bits |
| `CgroupPath.ParseCgroupPath` | src/core/attribution/attribution.cpp:87-115 | the segment loop computes the attribution function |
| `CgroupPath.ClassifyExactly` | src/core/attribution/attribution.cpp:91-110 | on the text of a segment: job iff job_ and digits for a 32-bit number, step iff step_ and more, task iff task_ and such digits, skipped iff none of these |
| `CgroupPath.ParseExact` | src/core/attribution/attribution.cpp:87-115 | the parse is the reading off the text of the segments and nothing else: last job segment, last step segment after it, last task segment after both |
| `CgroupPath.AttributeMeets` | src/core/attribution/attribution.cpp:91-111 | the accumulated attribution meets the reading by positions |
| `CgroupPath.MeetsOnce` | src/core/attribution/attribution.cpp:91-111 | the reading by positions admits one answer |
| `CgroupPath.NoneIffNoJob` | src/core/attribution/attribution.cpp:112-114 | none iff no segment is job_ and digits for a 32-bit number |
| `CgroupPath.ParseInvertsLayout` | src/core/attribution/attribution.cpp:87-115 | any 32-bit job, any step, any optional 32-bit task comes back from its path, under any parents, with segments of no recognised shape between and any numbers of slashes |
| `CgroupPath.SlurmTask` | docs/DESIGN.md:84-89 | JOB/STEP/user/TASK under any parents gives that job, step and task |
| `CgroupPath.SlurmStep` | docs/DESIGN.md:84-91 | JOB/STEP/slurm and JOB/STEP/user/task_special give that job and step and no task |
| `CgroupPath.SlurmSystem` | docs/DESIGN.md:84-86 | slurmstepd's own cgroup is nobody's |
| `Settings.ParseHttpEndpoint` | src/sinks/http/endpoint.cpp:10-48 | the early returns compute the endpoint function |
| `Settings.EndpointExact` | src/sinks/http/endpoint.cpp:10-48 | a text is accepted as an endpoint iff it is scheme, host, optional port in 1..65535, optional path, defaults filled in |
| `Settings.EndpointRoundTrip` | src/sinks/http/endpoint.cpp:10-48 | section 4.2.1 of RFC 9110: every endpoint prints to a text that parses back to it |
| `Settings.ParseDurationMs` | src/core/config/config.cpp:10-37 | digits then a unit, nothing else; beyond 64 bits rejected |
| `Settings.DurationExact` | src/core/config/config.cpp:10-37 | a text is a number of milliseconds iff it is digits and a unit, none, ms, s, m or h, whose product with what the unit is worth is that number and fits a signed 64-bit count |
| `Settings.DurationRoundTrip` | src/core/config/config.cpp:20-36 | a count and a unit parse to exactly count times scale iff that fits a signed 64-bit number of milliseconds |
| `Pipeline.Pipeline.constructor` | src/core/pipeline/pipeline.cpp:12-20 | starts with nothing pending, the given sinks and the clock at construction |
| `Pipeline.Pipeline.LookupUser` | src/core/pipeline/pipeline.cpp:22-38 | first answer cached, negative ones too |
| `Pipeline.Pipeline.EnrichRecord` | src/core/pipeline/pipeline.cpp:40-65 | resolved by the monotonic stamp taken before the conversion to wall clock, which wraps; unattributed counted iff the lookup is no hit |
| `Pipeline.Pipeline.EmitRecord` | src/core/pipeline/pipeline.cpp:67-74 | enriched, appended, shipped when the batch is full |
| `Pipeline.Pipeline.ShipPending` | src/core/pipeline/pipeline.cpp:76-87 | a nonempty batch goes to each wired sink in order and pending is empty |
| `Pipeline.Pipeline.TickAt` | src/core/pipeline/pipeline.cpp:89-94 | ships once the interval has passed, and only then moves the flush clock |
| `Pipeline.Pipeline.RewireSinks` | src/core/pipeline/pipeline.h:53 | takes the new sink list without touching the pending batch |
| `Pipeline.Pipeline.FlushAt` | src/core/pipeline/pipeline.cpp:96-101 | ships, then flushes every wired sink in order |
| `Pipeline.StepConserves` | src/core/pipeline/pipeline.cpp:67-101 | every operation conserves records |
| `Pipeline.EveryEmissionIsTold` | src/core/pipeline/pipeline.cpp:40-74 | over any run, from the operations alone: one record per emission, in order, whether a job was found or not, with the emission's id, uid and payload, its stamp plus boot offset modulo 2^64, the configured node and cluster, the name the uid was first found to have, and the job the lookup gave; the counters count them |
| `Pipeline.PipelineConserves` | src/core/pipeline/pipeline.cpp:67-101 | over any interleaving: shipped batches and the pending one concatenate to those records, one per emission in order; pending stays below max(1, batch_size); each sink was handed exactly the batches shipped while it was wired |
| `Pipeline.OnlyFullBatches` | src/core/pipeline/pipeline.cpp:67-94 | while nothing is flushed and no tick is due only batches of max(1, batch_size) records go out |
| `Pipeline.IntervalStartsAnew` | src/core/pipeline/pipeline.cpp:89-101 | a due tick and a flush ship what is pending, and until the interval has passed again only full batches go out |
| `Pipeline.FlushAsksEach` | src/core/pipeline/pipeline.cpp:96-101 | a flush asks every wired sink once, after everything pending was written; nothing else asks |
| `Pipeline.PendingIsFresh` | src/core/pipeline/pipeline.cpp:89-94 | after any tick of any run on a monotone clock the pending records are the last emissions, each emitted less than the flush interval ago |
| `Pipeline.FirstAnswerSticks` | src/core/pipeline/pipeline.cpp:22-38 | a uid keeps its first answer over any run |
| `EndToEnd.ShippedIsReceived` | src/core/pipeline/pipeline.cpp:76-87 | each pipeline step hands a sink exactly the batches it ships while that sink is wired, whether it is wired or not |
| `EndToEnd.AdvanceStaysSound` | src/core/pipeline/pipeline.cpp:67-101 | what the tracked sink accepted is what the pipeline shipped while it was wired, kept by every step of either side and every rewiring |
| `EndToEnd.RecordsSplit` | src/sinks/stdout_json/sink.cpp:25-83 | delivered and undelivered batches together hold every record once |
| `EndToEnd.FlushSettles` | src/core/pipeline/pipeline.cpp:96-101 | the wait a flush of the pipeline is in is always ended by the worker's own steps, whatever its writes return |
| `EndToEnd.SinkFlushAccounts` | src/sinks/stdout_json/sink.cpp:43-48 | a flush of the sink ends, and every way it can end leaves nothing queued or held: the batches shipped while it was wired split exactly into those delivered, in order, and those counted by dropped() |
| `EndToEnd.PipelineFlushes` | src/core/pipeline/pipeline.cpp:96-101 | after the pipeline flushed nothing is pending, and if the sink was wired all along what it accepted is every enriched emission in order |
| `EndToEnd.EveryRecordIsAccountedFor` | src/core/pipeline/pipeline.cpp:67-101 | end to end: after any run of pipeline, rewirings and sink from the start a flush does end, and every way it can end leaves accounted for every record shipped to the sink, which is, if it was wired all along, one record for every emission of the run, telling all of it |
| `EndToEnd.RemovedSinkIsAccountedFor` | src/core/daemon.cpp:244-252 | a sink a reload removes, unwired and then flushed: every record shipped to it is accounted for, and the pending batch stays for the others |
| `EndToEnd.EmittedJob` | src/core/pipeline/pipeline.cpp:40-65 | for every history and however much of it is undelivered, a record names the last job creation delivered by its event's monotonic stamp under the conditions of the table, and names the job that had the id or none if and only if those fail or such a job shows the same |
| `EndToEnd.EmittedJobIsOwner` | src/core/pipeline/pipeline.cpp:40-65 | once everything up to the stamp is delivered: a record of an id some job had leaves naming that job, its step and task, or none, and that job exactly under the conditions of the table; a record of an id no job had leaves unattributed exactly when no earlier job's entry is still standing |
| `EventLoop.Events.Add` | src/core/event_loop.cpp:19-44 | without a ring buffer accepted and not bound; refused iff it cannot be armed, and then the loop is as it was |
| `EventLoop.Events.Remove` | src/core/event_loop.cpp:58-112 | the others, in order, split into those that re-arm and exactly the returned ones |
| `EventLoop.Events.Rebuild` | src/core/event_loop.cpp:71-111 | one fresh arming of every remaining binding, partial failure included |
| `EventLoop.RunAgrees` | src/core/event_loop.cpp:19-112 | through any adds and removes with any arming failures: ring buffer null iff no bindings, armed contexts equal bindings in order |
| `EventLoop.PickIsOrdered` | src/core/event_loop.cpp:90-108 | survivors, and likewise the dropped, are exactly the positions with that outcome, in order |
| `EventLoop.RemovePartitions` | src/core/event_loop.cpp:58-112 | no other binding is lost or doubled by a removal |
| `EventLoop.RemovalKeepsOrder` | src/core/event_loop.cpp:90-109 | what is bound after a removal are the others that re-armed, all of them, in their order |
| `Config.DiffComponents` | src/core/config/config.cpp:100-116 | both loops compute the ids missing on the other side or named with another plugin |
| `Config.DiffFiles` | src/core/config/config.cpp:120-131 | rejected on any change outside the components, else both diffs |
| `Config.PluginOfExactly` | src/core/config/config.cpp:92-94 | a component is of the plugin its settings name, and of its own id's otherwise |
| `Config.PluginForExactly` | src/core/config/config.cpp:92-94 | what a configured id is of, entry by entry |
| `Config.MissingExactly` | src/core/config/config.cpp:100-116 | an id is in the diff iff it is configured here and not there with the same plugin |
| `Config.MissingDistinct` | src/core/config/config.cpp:100-116 | the diff names no id twice |
| `Config.DiffReachesTarget` | src/core/config/config.cpp:100-116 | removing and then adding the diff turns the one id-to-plugin map into the other and touches no other id |
| `Config.AcceptedExactly` | src/core/config/config.cpp:120-124 | a file can be applied live iff it is the current one with other components |
| `Loader.PluginLoader.OpenPlugin` | src/core/plugin_loader.cpp:26-85 | every failure path gives the reference back; a success keeps one |
| `Loader.PluginLoader.LoadProbe` | src/core/plugin_loader.cpp:100-109 | a handle is kept under the id iff the probe was built |
| `Loader.PluginLoader.LoadSink` | src/core/plugin_loader.cpp:111-120 | a handle is kept under the id iff the sink was built |
| `Loader.PluginLoader.UnloadProbe` | src/core/plugin_loader.cpp:87-93 | closes the id's handle once, or does nothing |
| `Loader.PluginLoader.UnloadSink` | src/core/plugin_loader.cpp:87-93 | closes the id's handle once, or does nothing |
| `Loader.LoadBalancesExactly` | src/core/plugin_loader.cpp:100-120 | open counts equal handles per file iff loading failed or the id was not loaded yet; a second load of an id leaks the first reference |
| `Loader.PluginPathsDiffer` | src/core/plugin_loader.cpp:18-20 | different plugins are different files |
| `Loader.UnloadBalances` | src/core/plugin_loader.cpp:87-93 | unloading keeps the balance |
| `DaemonSteps.AddSinkKeeps` | src/core/daemon.cpp:261-280 | adding a sink: every intermediate state safe, the daemon consistent at the end, load failure included |
| `DaemonSteps.RemoveSinkKeeps` | src/core/daemon.cpp:244-259 | removing a sink: unwired before it is destroyed, destroyed before its plugin is released, safe at every step |
| `DaemonSteps.AddProbeKeeps` | src/core/daemon.cpp:221-242 | adding a probe, through each of its three failures: safe at every step, consistent at the end |
| `DaemonSteps.RemoveProbeKeeps` | src/core/daemon.cpp:282-309 | removing a probe and every probe its removal knocks out of the loop: safe at every step, consistent at the end |
| `DaemonSteps.ForgetKeeps` | src/core/daemon.cpp:298-308 | the side-effect drops, the watcher among them being skipped |
| `DaemonSteps.ActKeeps` | src/core/daemon.cpp:193-202 | any one add or remove of a reload is safe at every step |
| `DaemonSteps.CoreIsSafe` | src/core/daemon.cpp:244-309 | consistent means: no binding or sink pointer refers to a destroyed object, every living component still holds its own plugin reference, open counts balance |
| `Reload.ActHasEffect` | src/core/daemon.cpp:193-202 | an act changes what runs under its own id and otherwise only takes probes away; without failures it takes away none |
| `Reload.NewRunsExactly` | src/core/daemon.cpp:221-269 | what is added runs iff its plugin gives it and, for a probe, it starts and its buffer, if any, can be armed |
| `Reload.RemovalForgetsExactly` | src/core/daemon.cpp:282-308 | after a removal the slots left are exactly those of neither the probe removed nor one it knocked out of the loop |
| `Reload.PlanOrder` | src/core/daemon.cpp:199-208 | sinks before probes, and of each kind removals before additions |
| `Reload.ReloadKeepsInv` | src/core/daemon.cpp:174-219 | one reload with any failures: every step safe, and afterwards running ids are distinct, configured, built from the plugin now named, handles equal running ids, open counts equal instances, wired sinks equal sinks in order |
| `Reload.ReloadsKeepInv` | src/core/daemon.cpp:174-219 | the same over any sequence of reloads: safe at every step of every one, the invariant at the end |
| `Reload.InvMeans` | src/core/daemon.cpp:174-309 | the invariant read out per component, per id and per plugin file |
| `Reload.ReloadRunsExactly` | src/core/daemon.cpp:174-219 | when nothing fails, what runs afterwards is exactly what the new file configures with another plugin than before, and what it configures with the same plugin and ran already |
| `Reload.ReloadReaches` | src/core/daemon.cpp:174-219 | so if every configured id was running, exactly what the new file configures runs |
| `Reload.ReloadKeepsObjects` | src/core/daemon.cpp:174-219 | when nothing fails an id that ran and has an unchanged plugin keeps the same object |
| `Reload.AllRunMeans` | src/core/daemon.cpp:174-219 | running ids and configured ids then coincide |
| `Reload.RejectedChangesNothing` | src/core/daemon.cpp:189-197 | a reload that cannot be applied live passes through no state and changes nothing |
| `Reload.SamePluginsDoNothing` | src/core/daemon.cpp:193-205 | a reload naming the same plugins only takes over the file: an id that failed to load is not retried |
| `Watcher.RemovalLosesExactly` | src/core/daemon.cpp:282-308 | a removal leaves the bound watcher unbound if and only if the probe has a slot and a binding and the watcher's buffer is the one that does not re-arm; the watcher stays alive |
| `Watcher.ActLosesExactly` | src/core/daemon.cpp:193-202 | no other act of a reload unbinds it |
| `Watcher.ReloadCanLoseWatcher` | src/core/daemon.cpp:282-308 | from a fresh start with any configuration of a single probe: removing it by a reload in which the watcher's buffer does not re-arm keeps the reload invariant and unbinds the watcher |
| `Watcher.WatcherIsLost` | src/core/daemon.cpp:282-308 | one such daemon, concretely |
| `Watcher.LostWatcherStaysLost` | src/core/daemon.cpp:298-303 | once unbound, no sequence of reloads binds the watcher again |
| `Startup.StartEstablishesInv` | src/core/daemon.cpp:76-123 | however starting goes: safe at every step, consistent wherever it stops, and the reload invariant when it succeeds |
| `Startup.ServicesKeep` | src/core/daemon.cpp:53-74 | the pipeline over the sinks already there, then the watcher, destroyed again if it fails to start or to arm: safe at every step |
| `Startup.StartSucceeds` | src/core/daemon.cpp:76-123 | with a sink and a probe configured and nothing failing, starting succeeds with everything configured running and the watcher bound |
| `Startup.StartNeedsWatcher` | src/core/daemon.cpp:112-113 | all else succeeding, starting succeeds if and only if the watcher starts and its buffer, if any, can be armed |
| `Startup.StartedIsUseful` | src/core/daemon.cpp:76-123 | a start that succeeds has a sink and a probe and found all it cannot do without |
| `DaemonObject.Daemon.WireSinks` | src/core/daemon.cpp:271-280 | the pipeline's pointers are the daemon's sinks in order, none while there is no pipeline |
| `DaemonObject.Daemon.StartWatcher` | src/core/daemon.cpp:53-74 | the watcher is bound, or destroyed again on either failure |
| `DaemonObject.Daemon.Start` | src/core/daemon.cpp:76-123 | passes through exactly the states of starting, failure returns included; every one is safe, and on success the reload invariant holds |
| `DaemonObject.Daemon.Serve` | src/core/daemon.cpp:125-151 | passes through exactly the states of the reloads whose file can be read, in order, and ends where they lead; all are safe and the invariant holds |
| `DaemonObject.Live` | src/core/daemon.cpp:76-151 | a whole life from construction: the states of starting and, if it came up, those of every readable reload in order, ending where they lead; every state safe, and if it came up the invariant holds to the end |
| `DaemonObject.Daemon.AddSink` | src/core/daemon.cpp:261-269 | passes through exactly the states of the add, and through none if loading fails |
| `DaemonObject.Daemon.RemoveSink` | src/core/daemon.cpp:244-259 | passes through exactly the states of the removal |
| `DaemonObject.Daemon.AddProbe` | src/core/daemon.cpp:221-242 | passes through exactly the states of the add on each of its four outcomes |
| `DaemonObject.Daemon.RemoveProbe` | src/core/daemon.cpp:282-309 | passes through exactly the states of the removal and of every side-effect drop |
| `DaemonObject.Daemon.ForgetAll` | src/core/daemon.cpp:298-308 | the loop over the also-dropped probes, those without a slot skipped |
| `DaemonObject.Daemon.ReloadConfig` | src/core/daemon.cpp:174-219 | passes through exactly the states of a reload, none if the file is unreadable or rejected; if the invariant held it holds again and every state passed through was safe |

## Left out

- SinkQueue.QueueingSink.Write: what C++ does when the drop loop pops an empty deque is not modelled, only when that happens. It requires that the sink is not being destroyed, since a write racing the destructor is outside the object's lifetime.
- SinkQueue.QueueingSink.SettleBatch: for the stdout sink `ok` is always true; the results of fwrite and fflush are not looked at, as in the source, so "delivered" means handed to the stream.
- Flush.FlushReturns: progress assumes the worker is scheduled and each post returns; spurious wakeups and memory ordering of the dropped counter are not modelled, and the worker's own wait is a step enabled when its predicate holds.
- HttpDelivery.HttpSink.Run: other threads act at the points where the worker does not hold the lock, in the order given; the loop is left waiting when they have nothing more to do.
- Framing.ReadStatus: a status number beyond the range of int is unbounded here, where atoi gives no meaning to it.
- Framing.EachReadsItsOwn: each response arrives after the previous one was read, as it does when the client asks only then.
- Settings.ParseDurationMs: a count the signed 64-bit representation cannot hold is reported as `Unrepresentable`; what C++ computes from it is not modelled.
- AttributionSoundness.ResolveIsSound: the kernel's stamps are assumed ordered per cgroup id, which its history guarantees; clocks that disagree are covered by `GraceSkewed` only for the grace test.
- Resolver.CgroupResolver.OnCreated: the bootstrap directory walk is a series of such calls with the directories' own times; reading directories and converting their times is left out.
- Pipeline.PipelineConserves: the wired sinks are distinct, as the daemon's always are.
- Counters: records, unattributed, queued, written, dropped, hits, misses and stale are unbounded numbers, not 64-bit ones. Stamps, the boot offset and the grace test do wrap.
- Config.DiffFiles: a std::map is a sequence of distinct ids in iteration order; the laws hold for every order.
- DaemonSteps: object addresses are ids with a generation number. Bringing up the resolver is whether its root is found and its scan succeeds.
- DaemonObject.Daemon.RemoveSink: flushing the doomed sink is not a step of its own; it changes nothing the daemon holds. Detaching a probe likewise.
- Reload.ReloadKeepsInv: the contents of a removed sink are not part of the reload states; `RemovedSinkIsAccountedFor` is about them.
- BPF programs, skeletons, libbpf, polling and dispatch of ring buffers, and turning raw events into records.
- Sockets, name resolution, the text of the request, dlopen, getpwuid_r, clocks: parameters, as described above.
- Reading JSON configuration and writing records as JSON; the registry of factories; the null sink; boolean and integer settings.
- Finding the cgroup root, logging, the command line, signals, building and packaging.
