# Verification of the fasthttp client pool, pipeline, header reader and codecs

This project models the parts of `fasthttp` that are hardest to get right and
proves what they promise, for every input and every interleaving.

**Protocols.** Each is a state machine: a `World` value, one step for each critical section,
channel operation or atomic access, and a total `Next` (a step that is not enabled changes
nothing). An invariant is proved to hold after every step, and the theorems are stated over
`Run(Initial(...), steps)` for every sequence of steps.

- `WantConn.dfy`, `HostPool.dfy`, `HostClient.dfy`: the connection pool of `HostClient`. The
  critical sections are functions on values; the class `HostClient` has them as methods that
  update fields and loop, each proved to compute its function. `PoolOrder.dfy`: in which order
  idle connections are used. `PoolProtocol.dfy`, `PoolInvariants.dfy`, `PoolTheorems.dfy`,
  `PoolProgress.dfy`: all goroutines around the pool, and that none is ever stuck.
- `Pipeline.dfy`, `PipelineInvariants.dfy`, `PipelineFlags.dfy`, `PipelineTheorems.dfy`,
  `PipelineProgress.dfy`, `PipelineTrap.dfy`: `pipelineConnClient` with its callers, writer, reader
  and worker over two bounded channels. `ResponseWire.dfy`: the answers on its connection.
- `StreamBody.dfy`: a streamed response body, and who gives its connection back.
  `ExchangeProtocol.dfy` runs such requests over the pool.
- `FsCache.dfy` (sections and class), `FsProtocol.dfy` and `FsLookup.dfy`: the reference-counted file
  cache, and what a lookup finds.
- `DnsCleaner.dfy`: the hand-off of the DNS-cache cleaner.

SkipBody is where the code does not do what its users would expect. `RoundTrip` and the
pipeline's reader set it for HEAD and never lower it, and `do` keeps it across `Reset`, so a
Response used for HEAD and then for GET leaves the body of the GET on the connection. It is not
true, then, that every response goes to its own request. `PipelineTheorems.ResponsesInStep` and
`StreamBody.PooledWithBody` state exactly when it is, `StaysInStep` and `PooledAfterHead` say so
in terms of what a caller controls, and both modules have a witness named `HeadThenGet`.

**Header reading.** `HeaderBlock.dfy` says what a header block means on bytes that never
change. `HeaderScanner.dfy` is the scanner, which joins folded lines inside its buffer, and
`HeaderRead.dfy` the parse and the retry loop; what a field is then used for is a parameter.
`HeaderPrint.dfy` has blocks as they are written, which read back.
`Swar.dfy` has the eight-bytes-at-once tests. `Trailers.dfy` is the trailer section, announced
and received, and `TrailerNames.dfy` the names that may be in it.

Section 5.5 of RFC 9110 excludes whitespace around a field value. The scanner keeps to that for
values on one line; when the last continuation line of a folded value is blank, the joining
space stays. `HeaderBlock.ValueEnds` states exactly when.

**Bodies, paths and queries.** `Chunked.dfy` and `ChunkStream.dfy`: chunked bodies, written and
collected. `RequestStream.dfy`: bodies of every framing, streamed, and what the server does with
the part that was not read. `Octets.dfy`: percent-encoding. `Args.dfy`: query arguments.
`Paths.dfy` and `NormalizePath.dfy`: path normalization. `HostMemo.dfy`: the host memo of
`URI.parse`. `IPv6.dfy` and `IPv6Literal.dfy`: IPv6 literals against the grammar.

Three things about streams are not as one would think. A chunked stream whose connection ends
between two chunks, or in its trailer section, reports a plain end of file, with `strictEOF` too.
`RequestStreams.ReadAll` says that the end is reported exactly for bodies that are whole or cut in
one of these ways (or, without `strictEOF`, a body of known length that did not all arrive), and
`CutBetweenStreams` and `CutInTrailer` which bytes these are. Second, the bytes of a trailer section
that was cut stay in the reader, and the server keeps such a connection in front of them:
`TrailerCutKept`. Third, the server looks at `failed` before the response is written but not after,
so that a response that swallows an error of the request body may leave a connection in the middle
of it: `FailureForgotten`. `RequestStreams.Serve` has the exact condition for a connection that is
kept to stand at the next request.

`Common.dfy` has the shared value types, `ByteForms.dfy` bytes as numbers and as bit-vectors, and
`Characters.dfy` the characters and limits that constants stand for.

## Model

| member | source | states |
|---|---|---|
| `WantConns.ResolvedAtMostOnce` | fasthttp/client.go:2531-2563 | of all deliveries and cancellations of one wantConn, in any order, exactly the first closes `ready`; a cancellation leaves no connection behind, and without one the first delivery is what stays |
| `WantConns.WantConn.TryDeliver` | fasthttp/client.go:2531-2545 | delivers exactly when nothing was delivered or cancelled before |
| `WantConns.WantConn.CancelWait` | fasthttp/client.go:2549-2563 | hands back a connection that was already delivered, so that it returns to the pool |
| `WantConns.WantConnQueue.PushBack` | fasthttp/client.go:2590-2592 | the two-stage queue is a FIFO sequence: an element goes to its end |
| `WantConns.WantConnQueue.PopFront` | fasthttp/client.go:2595-2608 | takes the first element of that sequence, across the exchange of the two stages |
| `WantConns.WantConnQueue.PeekFront` | fasthttp/client.go:2611-2619 | shows the first element and changes nothing |
| `WantConns.WantConnQueue.Len` | fasthttp/client.go:2585-2587 | the length of that sequence |
| `HostPool.ServeWaiterShrinks` | fasthttp/client.go:1868-1876 | skips waiters that no longer wait and takes the first that does; if none does the queue is emptied |
| `HostPool.ClearFrontShrinks` | fasthttp/client.go:2623-2632 | drops from the front exactly the waiters that no longer wait |
| `HostPool.OfferEffect` | fasthttp/client.go:2195-2213 | an offered connection goes to one waiter, or to none and the queue is empty; nobody else changes |
| `HostPool.RacingCancelCommutes` | fasthttp/client.go:2195-2213 | a cancellation that slips between waiting() and tryDeliver has the effect of one before the section |
| `HostClients.HostClient.SetMaxConns` | fasthttp/client.go:1848-1856 | sets the cap and serves waiters while there is room, one dial each |
| `HostClients.HostClient.ServeWaiterLocked` | fasthttp/client.go:1868-1876 | pops up to the first waiter that still waits |
| `HostClients.HostClient.Acquire` | fasthttp/client.go:1878-1911 | an idle connection by the pool's strategy, a slot to dial, or a refusal; when a cleaner is to be started |
| `HostClients.HostClient.QueueForIdle` | fasthttp/client.go:1975-2024 | the same under the lock again, or a place at the end of the queue |
| `HostClients.HostClient.ClearFront` | fasthttp/client.go:2623-2632 | refines the function on sequences |
| `HostClients.HostClient.DecConnsCount` | fasthttp/client.go:2121-2140 | gives the slot to a waiter, if there is one and the cap allows it, or frees it |
| `HostClients.HostClient.ReleaseConn` | fasthttp/client.go:2186-2229 | offers the connection to waiters and puts it on the idle list if none takes it |
| `HostClients.HostClient.DeliverIdle` | fasthttp/client.go:2195-2213 | the loop over the waiters |
| `HostClients.HostClient.TryDeliver` | fasthttp/client.go:2531-2545 | delivery to a waiter in the table |
| `HostClients.HostClient.CloseIdleConnections` | fasthttp/client.go:2045-2057 | takes the whole idle list |
| `HostClients.HostClient.CleanerScan` | fasthttp/client.go:2059-2092 | takes the longest prefix of the idle list that was idle for too long; the sleep ends when the next one will have been |
| `HostClients.HostClient.CleanerCheck` | fasthttp/client.go:2100-2109 | stops, and lowers the flag, exactly when no slot is taken |
| `PoolOrder.FifoOrder` | fasthttp/client.go:1895-1909 | FIFO: over any run of acquisitions, releases and cleaner runs connections leave the idle list in the order in which they came to it |
| `PoolOrder.LifoOrder` | fasthttp/client.go:1895-1909 | LIFO: a connection released to nobody is the one the next acquisition gets, through any nesting of releases and acquisitions |
| `PoolProgress.AcquireGives` | fasthttp/client.go:1878-1911 | an idle connection if there is one, else a free slot if there is one; none is made or lost; when the cleaner is started |
| `PoolProgress.QueueGives` | fasthttp/client.go:1975-2024 | the same as long as that is possible, else the last place in the queue |
| `PoolProgress.ReleaseGives` | fasthttp/client.go:2186-2229 | to a waiter exactly when one waits, else to the end of the idle list; when the cleaner is started |
| `PoolProgress.DecGives` | fasthttp/client.go:2121-2140 | a freed slot goes to a waiter exactly when one waits and the cap allows it, else there is one less |
| `PoolProgress.GrowGives` | fasthttp/client.go:1848-1856 | slots are handed out until there are no more or nobody waits |
| `PoolProgress.SetMaxIs` | fasthttp/client.go:1848-1856 | the protocol's step is that section with the new cap |
| `PoolProgress.CapIs` | fasthttp/client.go:1859-1864 | the configured cap, or 512 |
| `PoolProgress.CloseTakesAll` | fasthttp/client.go:2045-2057 | afterwards no connection is idle, and exactly those that were are being closed |
| `PoolProgress.CleanerStops` | fasthttp/client.go:2100-2109 | a cleaner stops exactly at count zero, with its flag down, and else scans again |
| `PoolProgress.CleanerSplits` | fasthttp/client.go:2070-2092 | the idle list is split, in order, into what is closed and what stays |
| `PoolProgress.EnabledExactly` | fasthttp/client.go:1848-2229 | exactly when each section can run, and its goroutine moves on then |
| `PoolProgress.GoroutinesMove` | fasthttp/client.go:1848-2229 | in every reachable state every goroutine can go on, one that waits once its channel is closed or by timing out |
| `PoolProgress.AcquireLeads` | fasthttp/client.go:1878-1973 | where AcquireConn goes: leased, dialing, queued, or failed |
| `PoolProgress.QueueLeads` | fasthttp/client.go:1975-2024 | where queueForIdle goes, and the dial it starts |
| `PoolProgress.WaitLeads` | fasthttp/client.go:1940-1958 | what a delivery leads to: a lease, or the way back to the pool if it is not wanted any more |
| `PoolProgress.DialLeads` | fasthttp/client.go:2026-2043 | what a dial leads to |
| `PoolInvariants.StepKeeps` | fasthttp/client.go:1848-2229 | every critical section keeps the invariant: places of connections, of waiters, the tally of slots and cleaners, no stranded waiter |
| `PoolInvariants.RunKeeps` | fasthttp/client.go:1848-2229 | it holds in every state of every interleaving |
| `PoolTheorems.SlotsAreConserved` | fasthttp/client.go:1848-2229 | `connsCount` is idle + in somebody's hand + delivered and not taken + slots of dials, in every reachable state, and these groups are disjoint |
| `PoolTheorems.OneOwner` | fasthttp/client.go:1878-2229 | no connection is in two places or twice in one |
| `PoolTheorems.NoStrandedWaiter` | fasthttp/client.go:1848-2229 | a non-empty queue means no idle connection and no free capacity; a waiter that is not queued has a goroutine about to resolve it |
| `PoolTheorems.ResolvedOnce` | fasthttp/client.go:2521-2563 | `ready` is closed exactly when a result is set, once; the delivery whose result queueForIdle ignores never fails |
| `PoolTheorems.OneCleaner` | fasthttp/client.go:2059-2113 | at most one cleaner is started or running, an idle list has one, and a count of zero means an empty idle list |
| `PoolTheorems.CapRespected` | fasthttp/client.go:1848-2140 | no step that raises `connsCount` leaves it above the cap, and above a shrunken cap it only falls |
| `PoolTheorems.GrowIsSection` | fasthttp/client.go:1848-1856 | the protocol's step is the section that the method computes, with one dialing goroutine for each waiter served |
| `PipelineInvariants.StepKeeps` | fasthttp/client.go:3118-3436 | every step of callers, worker, writer and reader keeps the places of works, signals, channels, users, waiters and the order of responses |
| `PipelineInvariants.RunKeeps` | fasthttp/client.go:3118-3436 | for every run |
| `PipelineInvariants.AcquireFifo` | fasthttp/client.go:2935-2955 | a work that is owed a response is not acquired for another request |
| `PipelineTheorems.OnePlace` | fasthttp/client.go:2865-3042 | every work is in exactly one place: pool, caller, outgoing queue, writer, in flight, reader, signalled; and once in a queue |
| `PipelineTheorems.SendNeverBlocks` | fasthttp/client.go:3258-3436 | at most one send on `done` for each acquisition, into an empty buffer |
| `PipelineTheorems.WorkerLeavesNothing` | fasthttp/client.go:3185-3231 | when worker has returned, no work is in a hand or in flight |
| `PipelineTheorems.ResponsesInOrder` | fasthttp/client.go:3375-3436 | on one connection the k-th response read is handed to the k-th request written, and the one being read to the first request that has none |
| `PipelineTheorems.ResponsesInStep` | fasthttp/client.go:3375-3436 | these responses are the answers to these requests exactly as long as no request other than HEAD that began with SkipBody set was answered with a body |
| `PipelineTheorems.StaysInStep` | fasthttp/client.go:3007-3042 | so a caller who gives Do no Response with SkipBody set, other than for HEAD, stays in step whatever the server answers |
| `PipelineTheorems.SkipIsTheCallers` | fasthttp/client.go:2935-2967 | only a Response of the caller, given to Do, brings SkipBody into a request |
| `PipelineTrap.TrapSprings` | fasthttp/client.go:3411-3430 | from every quiet state in step, a Do other than HEAD whose Response has SkipBody set and whose answer has a body puts the connection out of step |
| `PipelineTrap.HeadThenGet` | fasthttp/client.go:3007-3042 | a run in which HEAD and GET share a Response and a third response is parsed out of the body of the second |
| `PipelineFlags.StepFlags` | fasthttp/client.go:2935-2967 | every step keeps the copies that DoDeadline reads into free of SkipBody when a request begins |
| `PipelineFlags.RunFlags` | fasthttp/client.go:2935-2967 | for every run |
| `ResponseWire.ReadKeeps` | fasthttp/http.go:1797-1834 | reading one response, in step or not, keeps what is known of the wire |
| `ResponseWire.InStepExactly` | fasthttp/http.go:1797-1834 | responses come from their own requests exactly when no skipped answer but those to HEAD had a body |
| `PipelineTheorems.WaiterIsServed` | fasthttp/client.go:2865-2933 | a waiting caller's work is under way in channels that are not retired, and nobody else waits on it |
| `PipelineTheorems.DiscardsAbandoned` | fasthttp/client.go:3165-3182 | retired channels have no users, and nobody waits on what they still hold |
| `PipelineTheorems.NoLatePush` | fasthttp/client.go:3118-3182 | in every continuation retired channels stay retired and only lose works |
| `PipelineProgress.EnabledExactly` | fasthttp/client.go:2865-3436 | exactly when each step of callers, worker, writer and reader can be taken |
| `PipelineProgress.FifoChannels` | fasthttp/client.go:3258-3436 | over any run works leave a channel in the order in which they came, whoever takes them |
| `PipelineProgress.RetiresExactly` | fasthttp/client.go:3165-3182 | a worker between connections retires its channels exactly when no caller uses them and nothing is in flight, whatever is queued |
| `PipelineProgress.DiscardsGiveBack` | fasthttp/client.go:3173-3181 | retired channels give exactly their works back to the pool, in order, and nothing else changes |
| `PipelineProgress.DiscardsAll` | fasthttp/client.go:3173-3181 | then they are empty and the worker is gone |
| `PipelineProgress.ReceiveHands` | fasthttp/client.go:2917-2932 | a caller that receives gives its work back; DoDeadline hands SkipBody over as the answer left it |
| `PipelineProgress.AcquireAsks` | fasthttp/client.go:2935-2955 | which Response a call reads into and hands over to, and whose SkipBody it has |
| `PipelineProgress.ConnectStarts` | fasthttp/client.go:3185-3212 | a new connection starts with nothing written and nothing owed |
| `PipelineProgress.ReaderGoesOn` | fasthttp/client.go:3401-3436 | SkipBody is raised for HEAD before the read, also if it fails; the reader goes on only after an answer |
| `PipelineProgress.EvictGoesOn` | fasthttp/client.go:3019-3034 | Do takes the oldest work out of a full queue |
| `PipelineProgress.SignalGoesOn` | fasthttp/client.go:3019-3034 | which is signalled, and nobody evicts twice |
| `PipelineInvariants.StepEffect` | fasthttp/client.go:3118-3436 | a step changes the channels it works on only, and fills `done` only by a send |
| `StreamBody.StepKeeps` | fasthttp/client.go:3480-3529 | reads, locks and the close keep the invariant |
| `StreamBody.ReleasedOnce` | fasthttp/client.go:3512-3529 | release is called at most once, once when a close has returned, never with a Read in flight; the connection is kept exactly if nothing interrupted the body, and then its end was reported |
| `StreamBody.InterruptedBeforeWaiting` | fasthttp/client.go:3512-3529 | a close that waits for a Read has interrupted it |
| `StreamBody.InterruptsExactly` | fasthttp/client.go:3512-3521 | a close interrupts exactly when it has an error, finds a Read, or the end was not reported |
| `StreamBody.EndSticks` | fasthttp/client.go:3491-3510 | the end of the body stays known once a Read has reported it |
| `StreamBody.EnabledExactly` | fasthttp/client.go:3491-3529 | exactly when each operation can run |
| `StreamBody.QuietCloseKeeps` | fasthttp/client.go:3512-3529 | a body read to its end and closed without an error keeps its connection |
| `StreamBody.PooledExactly` | fasthttp/client.go:3531-3663 | exactly when RoundTrip and when its stream give the connection to the pool, fail, stream, or ask for a retry |
| `StreamBody.GivenBackOnce` | fasthttp/client.go:3531-3663 | on every path RoundTrip and its stream give the connection back at most once, and exactly once when no stream is left open |
| `StreamBody.PooledWithBody` | fasthttp/client.go:3600-3663 | a connection that goes to the pool has bytes of a body unread exactly when the request began with SkipBody set and its answer has a body |
| `StreamBody.SkipSticks` | fasthttp/client.go:1776-1780 | over any requests that share a Response, SkipBody is set once it was set at first or a HEAD has got as far as its answer |
| `StreamBody.PooledAfterHead` | fasthttp/client.go:1776-1780 | of such requests, exactly which give a connection with unread bytes to the pool |
| `StreamBody.HeadThenGet` | fasthttp/client.go:3531-3663 | HEAD and then GET with one Response: the GET leaves its body on a pooled connection |
| `ExchangeProtocol.StepKeeps` | fasthttp/client.go:3512-3663 | pool sections, RoundTrips, Reads and closes of all requests, interleaved, keep leases and streams together |
| `ExchangeProtocol.RunKeeps` | fasthttp/client.go:3512-3663 | in every interleaving |
| `ExchangeProtocol.ReadHasTheConnection` | fasthttp/client.go:3479-3529 | while a Read is in flight its connection is not given back and nobody else can have it |
| `ExchangeProtocol.GivesBackItsOwn` | fasthttp/client.go:3512-3529 | the close that gives a connection back finds it still leased to its request, which never leases or gives one back again |
| `ExchangeProtocol.ClosedHasGivenBack` | fasthttp/client.go:3512-3529 | a request whose stream was closed has given its connection back, once |
| `ExchangeProtocol.HandsBackAs` | fasthttp/client.go:2115-2229 | a connection given to the pool is released there, one that is closed is closed |
| `ExchangeProtocol.FinishHands` | fasthttp/client.go:3600-3663 | RoundTrip hands its connection over, or leaves it to a stream |
| `ExchangeProtocol.ReleaseHands` | fasthttp/client.go:3630-3650 | a stream closes its connection exactly if it was to be discarded or somebody has asked for it |
| `ExchangeProtocol.PoolRuns` | fasthttp/client.go:1848-2229 | the pool's goroutines run as they do by themselves |
| `FsCache.CacheManager.GetFileFromCache` | fasthttp/fs.go:1136-1150 | a reader is added to the cached file, unless the cache is closed |
| `FsCache.CacheManager.SetFileToCache` | fasthttp/fs.go:1152-1179 | stores the file, or uses the one already there and dooms the new one |
| `FsCache.CacheManager.DecReadersCount` | fasthttp/fs.go:1102-1120 | the last reader of a closed cache's file takes it out for release |
| `FsCache.CacheManager.RemovePendingFile` | fasthttp/fs.go:1285-1294 | removes the file from the pending list and keeps the order |
| `FsCache.CacheManager.AddFileToRelease` | fasthttp/fs.go:1275-1283 | a file with readers is kept pending |
| `FsCache.CacheManager.EvictKeys` | fasthttp/fs.go:1242-1273 | the deleting loop over the cache maps |
| `FsCache.CacheManager.RecheckPending` | fasthttp/fs.go:1219-1230 | splits the pending files by their readers |
| `FsCache.CacheManager.CleanCache` | fasthttp/fs.go:1211-1240 | one run of the cleaner |
| `FsCache.CacheManager.Close` | fasthttp/fs.go:1084-1100 | closes and collects everything that nobody reads |
| `FsProtocol.StepKeeps` | fasthttp/fs.go:1077-1294 | every file is in one place, readersCount counts the references, a closed cache keeps only files being read |
| `FsProtocol.ReleasedOnceAndUnread` | fasthttp/fs.go:1102-1179 | a file is collected and released at most once in all, never while readersCount is positive, and readersCount never falls below zero |
| `FsProtocol.EverythingReleased` | fasthttp/fs.go:1253-1294 | once the cache is closed and all references are back, every file ever stored has been released exactly once |
| `FsLookup.LookupIsShelf` | fasthttp/fs.go:1136-1294 | over any run a lookup finds, for each kind and path, the first file stored there since that key was last swept |
| `FsLookup.GetFinds` | fasthttp/fs.go:1136-1150 | the file under the key, with one reader more; nothing in a closed cache |
| `FsLookup.StoreThenGet` | fasthttp/fs.go:1152-1179 | what was stored first is found and used; a second file is to be released; other keys are not touched |
| `FsLookup.StoreInClosed` | fasthttp/fs.go:1152-1179 | nothing gets into a closed cache |
| `FsLookup.DoneCountsOff` | fasthttp/fs.go:1102-1120 | only the last reader of a closed cache takes the file out |
| `FsLookup.CleanLeaves` | fasthttp/fs.go:1211-1273 | exactly the expired keys leave |
| `FsLookup.CleanCollects` | fasthttp/fs.go:1211-1240 | pending and expired files that nobody reads are collected, the others stay pending |
| `FsLookup.CleanClosed` | fasthttp/fs.go:1211-1217 | the cleaner of a closed cache does nothing |
| `FsLookup.EnabledExactly` | fasthttp/fs.go:1077-1294 | exactly when each section other than the cleaner's changes something |
| `FsLookup.ReleaseMoves` | fasthttp/fs.go:1102-1134 | what was collected is released |
| `DnsCleaner.AtMostOneOwner` | fasthttp/tcpdialer.go:450-486 | at most one cleaner owns the cache, and one does exactly while the flag is up |
| `DnsCleaner.NoOrphanEntry` | fasthttp/tcpdialer.go:434-486 | an entry whose dials have passed their compare-and-swap has an owner once no exiting cleaner is still deciding |
| `DnsCleaner.StepCares` | fasthttp/tcpdialer.go:450-515 | no atomic operation leaves an entry with nobody to see to it |
| `DnsCleaner.EnabledExactly` | fasthttp/tcpdialer.go:434-515 | exactly when each atomic operation changes something |
| `DnsCleaner.CleanerDecides` | fasthttp/tcpdialer.go:450-515 | a scan goes on ticking if an entry is left and gives ownership up otherwise; it takes it back unless somebody has it |
| `Swar.AnyByteIsCTLExact` | fasthttp/swar.go:48-51 | the word test holds exactly when one of the eight bytes is a control byte |
| `Swar.LowercaseWordExact` | fasthttp/swar.go:60-65 | a lowercased word is its bytes lowercased |
| `Swar.LowercaseBytes` | fasthttp/bytesconv.go:467-475 | lowercases every byte of a buffer in place |
| `HeaderBlock.NextStable` | fasthttp/headerscanner.go:41-152 | an outcome of the scanner other than ErrNeedMore is the same whatever bytes follow |
| `HeaderBlock.NextInBlock` | fasthttp/headerscanner.go:57-118 | in a terminated block the scanner never asks for more and never reads past the blank line |
| `HeaderBlock.FoldInBlock` | fasthttp/headerscanner.go:236-293 | joining lines stops at the blank line at the latest |
| `HeaderBlock.FoldTailStable` | fasthttp/headerscanner.go:236-293 | joined lines do not depend on what follows the block |
| `HeaderBlock.ValueEnds` | fasthttp/headerscanner.go:190-213 | a value on one line never ends in a blank; a folded value that is not empty does exactly when its last continuation line is blank |
| `HeaderBlock.BlankFoldLeavesSpace` | fasthttp/headerscanner.go:276-292 | a concrete block whose value keeps a trailing space |
| `HeaderPrint.BlockReads` | fasthttp/headerscanner.go:41-152 | any list of fields, with folded values and bare line feeds, reads back in order and with the length of its block, whatever follows |
| `HeaderPrint.HeaderReadsBack` | fasthttp/header.go:3287-3307 | a whole header with its start line reads back, behind any number of empty lines |
| `HeaderPrint.NextPrinted` | fasthttp/headerscanner.go:41-152 | one printed field is read, the lines of its value joined by single spaces |
| `HeaderPrint.FoldPrinted` | fasthttp/headerscanner.go:272-292 | continuation lines are joined |
| `HeaderPrint.TokenIs` | fasthttp/bytesconv_table.go:11-12 | which bytes names and values may hold |
| `HeaderPrint.BadKeyFails` | fasthttp/headerscanner.go:90-118 | any other byte in a name, or no name, is an error, which says whether there is a colon |
| `HeaderPrint.LeadingBlankFails` | fasthttp/headerscanner.go:41-56 | a block that starts with a blank is refused |
| `HeaderPrint.InnerSpaceIs` | fasthttp/headerscanner.go:90-118 | a key has an inner space exactly when something other than blanks follows one |
| `HeaderPrint.TrimRightIs` | fasthttp/headerscanner.go:344-353 | exactly the trailing blanks go |
| `HeaderScanners.ScanValueLine` | fasthttp/headerscanner.go:359-394 | the word-wise scan finds the same line feed and validity as a scan of every byte |
| `HeaderScanners.ScanKey` | fasthttp/headerscanner.go:90-118 | the end of the key and whether it has an inner space |
| `HeaderScanners.ScanHeaderKey` | fasthttp/headerscanner.go:402-425 | colon, inner space and validity of a line's key, with the error cases |
| `HeaderScanners.AllValid` | fasthttp/headerscanner.go:204-210 | skipping clean words does not change the validity of a value |
| `HeaderScanners.TrimEnd` | fasthttp/headerscanner.go:344-353 | removes trailing spaces and tabs |
| `HeaderScanners.HeaderScanner.BlockComplete` | fasthttp/headerscanner.go:157-167 | the memoized search answers for the bytes as they came |
| `HeaderScanners.HeaderScanner.FailLine` | fasthttp/headerscanner.go:171-187 | the error of a bad line, once it is complete |
| `HeaderScanners.HeaderScanner.ReadLine` | fasthttp/headerscanner.go:218-229 | the next line of the wire, though what is before it may have been rewritten |
| `HeaderScanners.HeaderScanner.SkipSpace` | fasthttp/headerscanner.go:314-328 | the next byte that is neither space nor tab |
| `HeaderScanners.HeaderScanner.SecureRaw` | fasthttp/headerscanner.go:297-311 | what was secured is a prefix of the wire bytes, up to the read position |
| `HeaderScanners.HeaderScanner.AppendText` | fasthttp/headerscanner.go:288-290 | writing inside the buffer appends to the joined line and ends before the read position |
| `HeaderScanners.HeaderScanner.JoinLines` | fasthttp/headerscanner.go:272-292 | the in-place join is the functional join of the trimmed lines |
| `HeaderScanners.HeaderScanner.StartFold` | fasthttp/headerscanner.go:236-275 | nothing is written before the block is known to be complete; the key check of the line reader agrees |
| `HeaderScanners.HeaderScanner.NextFolded` | fasthttp/headerscanner.go:190-213 | a folded field as the wire bytes define it |
| `HeaderScanners.HeaderScanner.LookBack` | fasthttp/headerscanner.go:68-78 | a CRLF right before the blank line, even a rewritten one, means a complete block |
| `HeaderScanners.HeaderScanner.Next` | fasthttp/headerscanner.go:41-152 | what next returns depends only on the wire bytes; a call that returns no field has not changed the buffer |
| `HeaderReads.FieldsStable` | fasthttp/header.go:3723-3892 | the outcome of a block is the same whatever follows it |
| `HeaderReads.ParseHeaders` | fasthttp/header.go:3287-3307 | the outcome is that of the wire bytes, an attempt that needs more has rewritten nothing, no byte behind the block changes, and the secured prefix with the untouched tail is the block exactly as it came |
| `HeaderReads.Undecided` | fasthttp/headerscanner.go:266-270 | once a join has written, no more bytes are ever asked for |
| `HeaderReads.BlockTerminated` | fasthttp/header.go:60-67 | searching only what is new equals a full search |
| `HeaderReads.ParseStable` | fasthttp/header.go:3287-3307 | stability of the whole header, with its start line |
| `HeaderReads.DoneIsTerminated` | fasthttp/header.go:2885-2896 | a header that parses has its terminator, unless its block is empty |
| `HeaderReads.CheckedExactly` | fasthttp/header.go:2897-2906 | what the header check refuses is refused |
| `HeaderReads.LineEnds` | fasthttp/header.go:3723-3892 | a line that fails ends the block with its error, one that is incomplete makes it wait |
| `HeaderReads.TryRead` | fasthttp/header.go:2846-2906 | one attempt: its outcome is that of a parse, and it finds every header that parses |
| `HeaderReads.ReadLoop` | fasthttp/header.go:2830-2844 | for every way the bytes arrive an outcome is that of all bytes together, a header that parses is found with the same fields and length, and the bytes left for the body are the wire's |
| `Trailers.DelAllArgsStable` | fasthttp/args.go:418-431 | the entries under other keys, in order |
| `Trailers.MoveArgs` | fasthttp/header.go:927-934 | moves exactly the values of a key, in order, and conserves the multiset |
| `Trailers.SplitItems` | fasthttp/header.go:826-832 | the items of a comma-separated list |
| `Trailers.ItemsRoundTrip` | fasthttp/header.go:826-832 | a list of names reads back |
| `Trailers.TrailingComma` | fasthttp/header.go:826-832 | a comma at the very end adds no item |
| `Trailers.Header.AddName` | fasthttp/header.go:873-893 | the map-indexed set agrees with the linear scan, and has no duplicates |
| `Trailers.Header.MigrateTrailer` | fasthttp/header.go:684-691 | a value that was set goes to the end of the trailer section; no field is lost |
| `Trailers.Header.RestoreTrailer` | fasthttp/header.go:697-713 | if its storage is free, the first trailer value goes back there unless it is empty, and otherwise nothing happens; no field is lost |
| `Trailers.Header.DropName` | fasthttp/header.go:661-666 | the values of a dropped name join the header section in order, the first of a dedicated one its storage; other names keep theirs in order |
| `Trailers.Header.AddTrailers` | fasthttp/header.go:825-850 | the announced set grows by exactly the valid names listed, fields are conserved, no newly announced name keeps a value in the header section |
| `Trailers.Header.KeepNames` | fasthttp/header.go:639-660 | the names kept are those listed and announced before |
| `Trailers.Header.SetTrailers` | fasthttp/header.go:635-669 | afterwards exactly the valid names listed are announced; fields are conserved, every trailer key is announced, names announced before keep their trailer values, and a dropped dedicated name has its value back in its storage |
| `Trailers.Header.Unannounce` | fasthttp/header.go:673-679 | everything returns to the header section, in order |
| `Trailers.Header.DelTrailer` | fasthttp/header.go:1823-1833 | conserves every field but Trailer itself; a dedicated value is back in its storage |
| `Trailers.Header.ReadTrailer` | fasthttp/header.go:2735-2789 | for every way the bytes arrive the outcome is that of all bytes together, io.EOF exactly when the connection ends inside the section; every field is stored and announced once, a failure leaves no trace, and the bytes left are the wire's |
| `Trailers.Header.TryReadTrailer` | fasthttp/header.go:2749-2789 | one attempt; one that does not store the section leaves header and trailer fields as they were, one that has to wait the buffered bytes too |
| `Trailers.Header.ParseTrailer` | fasthttp/header.go:3309-3340 | what the section in the buffer adds is what its wire bytes say |
| `Trailers.Header.StoreArrived` | fasthttp/header.go:3315-3335 | one field: refused for its name or its value, or stored and announced |
| `Trailers.SectionAccepted` | fasthttp/header.go:3309-3340 | a section is read exactly when it is well formed, no name in it is forbidden and no value malformed; then all its fields are stored in order |
| `Trailers.PrintedSection` | fasthttp/header.go:3309-3340 | a section as it is written is read exactly when no name is forbidden and no value has a control byte, and its fields are stored in order |
| `Trailers.StoredOne` | fasthttp/header.go:3316-3332 | under which name a field is stored |
| `Trailers.NoForbiddenTrailer` | fasthttp/header.go:3323-3326 | no forbidden name, in any letter case, gets into the trailer section |
| `Trailers.SectionStable` | fasthttp/header.go:3309-3340 | the outcome of a section is the same whatever follows it |
| `Trailers.Header.SetTrailerBytes` | fasthttp/header.go:598-669 | afterwards the announced names are exactly the well-formed and permitted ones of the list, fields are conserved, and an error is reported exactly when the list has others |
| `Trailers.Header.AddTrailerBytes` | fasthttp/header.go:803-850 | the same for a list that is added |
| `TrailerNames.IsBadExact` | fasthttp/header.go:3342-3395 | the switch on the first letter refuses exactly the forbidden names, in any letter case |
| `TrailerNames.CanonKeepsForbidden` | fasthttp/header.go:4068-4088 | normalizing a name does not change whether it is forbidden |
| `TrailerNames.CanonFolds` | fasthttp/header.go:4068-4088 | normalizing changes nothing but letter case |
| `TrailerNames.CanonAt` | fasthttp/header.go:4068-4088 | a letter is a capital at the start and behind a dash, and small elsewhere |
| `TrailerNames.Cases` | fasthttp/bytesconv_table.go:7-8 | which bytes have a case |
| `TrailerNames.ListedAre` | fasthttp/header.go:3342-3395 | the forbidden names, one by one |
| `TrailerNames.Normalize` | fasthttp/header.go:4068-4088 | the in-place loop computes the normalized name |
| `TrailerNames.ReadName` | fasthttp/header.go:833-840 | an item becomes a name exactly when it is well formed and not forbidden, and so is the name |
| `Chunked.HexRoundTrip` | fasthttp/bytesconv.go:407-460 | a printed number reads back |
| `Chunked.HexLength` | fasthttp/bytesconv.go:437-460 | a number has at most k digits exactly when it is below 16^k |
| `Chunked.SizeRoundTrip` | fasthttp/http.go:3298-3353 | a size line reads back exactly when the size is below 16^15; otherwise it is refused |
| `Chunked.ExtensionReads` | fasthttp/http.go:3298-3353 | a size with an extension is that size |
| `Chunked.BlanksRead` | fasthttp/http.go:3330-3332 | blanks may stand behind a size |
| `Chunked.OtherwiseFails` | fasthttp/http.go:3333-3346 | nothing else may, and no extension behind blanks |
| `Chunked.DigitIs` | fasthttp/bytesconv.go:435-460 | the digits are lower-case |
| `Chunked.DecodeWritten` | fasthttp/http.go:3106-3133 | decoding what was written gives the chunks back and stops right behind them, whatever follows |
| `Chunked.OversizedChunkFails` | fasthttp/bytesconv.go:427-429 | a chunk of 16^15 bytes or more cannot be read back |
| `ChunkStreams.ReadHexInt` | fasthttp/bytesconv.go:407-433 | the number at the read position, with its errors |
| `ChunkStreams.ParseChunkSize` | fasthttp/http.go:3298-3353 | the size line at the read position, extensions included |
| `ChunkStreams.ReadCrLf` | fasthttp/http.go:3355-3370 | takes exactly a CRLF |
| `ChunkStreams.AppendBodyFixedSize` | fasthttp/http.go:3228-3259 | so many bytes, however they are delivered |
| `ChunkStreams.ReadBodyChunked` | fasthttp/http.go:3266-3296 | the body the bytes mean, or BodyTooLarge exactly when a readable body exceeds the limit |
| `ChunkStreams.WriteHexInt` | fasthttp/bytesconv.go:437-460 | the shortest form, within its sixteen-byte buffer, for every 64-bit int |
| `ChunkStreams.WriteBodyChunked` | fasthttp/http.go:2843-2894 | the chunks written are the non-empty reads and join to the body, which the decoder gives back if no read has 16^15 bytes or more |
| `RequestStreams.RequestStream.ReadFixed` | fasthttp/streaming.go:99-137 | a body of known length or up to the end of the connection: what it returns and what is left is what was left before, never a byte behind the body; if it ends early that is an error exactly under strictEOF |
| `RequestStreams.RequestStream.Read` | fasthttp/streaming.go:43-138 | the same for every framing; the end is reported for a body that is whole or cut as above, an error only for a broken one, and the trailers are stored with the end |
| `RequestStreams.ReadAll` | fasthttp/streaming.go:43-144 | for every sequence of read sizes the bytes are those of the body, and with enough reads the end is reported exactly when it is whole or cut; its trailers are stored once; truncated exactly when a body of known length did not arrive |
| `RequestStreams.RequestStream.Discard` | fasthttp/streaming.go:155-161 | succeeds exactly when the body is whole or cut and no more than the limit is left of it, and stops at its end |
| `RequestStreams.OverflowExact` | fasthttp/streaming.go:151-153 | for a body that has arrived, bodyOverflows is that more than the limit is left |
| `RequestStreams.Serve` | fasthttp/server.go:2793-2862 | whatever handler and response have read, a connection that is kept stands at the next request exactly when the body is whole or was cut with nothing left behind it; a broken body is kept only if the response swallows the error, one that is not broken is kept if it is small |
| `RequestStreams.FailureForgotten` | fasthttp/server.go:2854-2857 | a run of Serve that keeps a connection inside a broken body |
| `RequestStreams.TrailerCutKept` | fasthttp/streaming.go:77-84 | a run of Serve for every trailer section cut in its first line: the connection is kept, and stands at its end only if nothing came of the section |
| `RequestStreams.StreamIsBody` | fasthttp/streaming.go:70-98 | a stream gives the body of the buffered decoder and then looks at the trailer section; where that decoder fails the stream fails too, but for a connection that ends between two chunks |
| `RequestStreams.WrittenStreams` | fasthttp/http.go:3106-3133 | what the writer writes streams back, whatever section follows it |
| `RequestStreams.WrittenOutcome` | fasthttp/streaming.go:70-98 | a whole trailer section ends the body with its fields, a cut one in front of it, a malformed one breaks it |
| `RequestStreams.FixedIs` | fasthttp/streaming.go:99-137 | a body of known length is the first so many bytes, those in memory first |
| `RequestStreams.CutBetweenStreams` | fasthttp/streaming.go:71-75 | whole chunks with nothing behind them stream as a body that ended |
| `RequestStreams.CutInTrailer` | fasthttp/streaming.go:77-84 | so do all chunks with the beginning of a trailer section, which stays unread |
| `RequestStreams.CutTrailers` | fasthttp/header.go:2757-2784 | two such inputs |
| `RequestStreams.RequestStream.ReadTrailerSection` | fasthttp/streaming.go:77-84 | the section behind the last chunk: stored, cut with its bytes left in place, or refused |
| `Chunked.CutBetweenChunks` | fasthttp/bytesconv.go:407-416 | whole chunks with nothing behind them read as the end of the input, not as a broken chunk |
| `Octets.DecodeAppend` | fasthttp/args.go:599-683 | both decoding loops with their fast paths |
| `Octets.QuoteAppend` | fasthttp/bytesconv.go:485-523 | both quoting loops with their fast paths |
| `Octets.DecodeQuote` | fasthttp/bytesconv.go:485-523 | decoding undoes quoting, for all bytes |
| `Octets.QuotePrints` | fasthttp/bytesconv_table.go:9-10 | which bytes are printed as themselves in arguments and in paths, and how the others are |
| `Octets.EscapeDecodes` | fasthttp/args.go:599-683 | an escape with digits of either case is the byte with that number |
| `Octets.DecodeStep` | fasthttp/args.go:599-683 | what decoding does with a percent sign, a plus sign and every other byte |
| `QueryArgs.PrintRoundTrip` | fasthttp/args.go:167-183 | parsing what was printed gives the arguments back, wholly empty ones dropped |
| `QueryArgs.EntrySplits` | fasthttp/args.go:559-597 | the key ends at the first equals sign |
| `QueryArgs.EntryAlone` | fasthttp/args.go:559-597 | without one there is no value |
| `QueryArgs.EntriesSplit` | fasthttp/args.go:559-597 | entries stand between ampersands |
| `QueryArgs.DenseConcat` | fasthttp/args.go:110-124 | entries are kept or dropped one by one, in order |
| `QueryArgs.DenseOne` | fasthttp/args.go:110-124 | dropped exactly without key and value |
| `QueryArgs.PrintLooks` | fasthttp/args.go:167-183 | how arguments are printed |
| `QueryArgs.Scanner.Next` | fasthttp/args.go:559-597 | the next entry, whatever the slot held |
| `QueryArgs.Args.ParseBytes` | fasthttp/args.go:110-124 | the entries of the query string, regardless of stale slots |
| `QueryArgs.Args.AppendBytes` | fasthttp/args.go:167-183 | the printed arguments |
| `QueryArgs.Args.AllocArg` | fasthttp/args.go:509-519 | one more slot, the others unchanged |
| `Paths.PassesAreStack` | fasthttp/uri.go:748-760 | the three passes together are dot-segment removal with a stack |
| `Paths.StackLaws` | fasthttp/uri.go:748-760 | a parent segment takes the ordinary one in front of it along and stops at the root; dots and empty segments go; others stay |
| `Paths.LastSegment` | fasthttp/uri.go:762-776 | a dot segment at the end leaves its slash |
| `Paths.NormalIs` | fasthttp/uri.go:740-800 | the path is decoded first, gets a slash in front, and its segments are resolved |
| `Paths.RenderLooks` | fasthttp/uri.go:740-800 | each segment stands behind a slash |
| `Paths.StarStays` | fasthttp/bytesconv.go:504-508 | a star alone is not quoted |
| `Paths.NormalForm` | fasthttp/uri.go:740-800 | the result starts with a slash and has no empty inner segment and no dot segment |
| `Paths.NormalIsFixed` | fasthttp/bytesconv.go:504-523 | quoting a normalized path and normalizing it again gives it back |
| `NormalizePaths.RemoveSegments` | fasthttp/uri.go:694-709 | the single in-place pass removes exactly the empty, or the ".", segments |
| `NormalizePaths.RemoveParentSegments` | fasthttp/uri.go:719-738 | the single in-place pass removes every ".." with the segment in front of it |
| `NormalizePaths.ResolveLast` | fasthttp/uri.go:762-776 | a last segment ".." or "." is resolved too |
| `NormalizePaths.NormalizePath` | fasthttp/uri.go:740-800 | equals the stack-based reference, for every input |
| `HostMemo.URI.ParseHost` | fasthttp/uri.go:348-370 | the memo gives what parsing the host gives, also when that fails, and stays valid |
| `HostMemo.URI.Parse` | fasthttp/uri.go:295-407 | whatever was parsed before, the result is that of a parse without a memo |
| `HostMemo.URI.CopyTo` | fasthttp/uri.go:78-97 | a copy shows the same and has a valid memo; a copy of a URI to itself clears it |
| `HostMemo.URI.Reset` | fasthttp/uri.go:237-256 | so does a reset |
| `HostMemo.RootParses` | fasthttp/uri.go:298-308 | the shortcut for / skips nothing that could matter |
| `HostMemo.FreshMeans` | fasthttp/uri.go:310-405 | after a successful parse path, query and fragment with their marks are the target, username and password with their colon the userinfo, and host and scheme what they should be |
| `HostMemo.FreshSucceeds` | fasthttp/uri.go:310-370 | exactly when a parse succeeds |
| `HostMemo.PathRebuilt` | fasthttp/uri.go:372-405 | a target is put together again from its parts |
| `HostMemo.UserRebuilt` | fasthttp/uri.go:332-346 | so is the userinfo |
| `HostMemo.PathTargets` | fasthttp/uri.go:314-317 | a target with a single slash in front is a path |
| `HostMemo.SchemeTargets` | fasthttp/uri.go:314-325 | a target with a scheme names its own host |
| `IPv6Grammar.AcceptsIsGrammar` | fasthttp/ipv6.go:14-83 | what is accepted is exactly IPv6address of section 3.2.2 of RFC 3986 |
| `IPv6Grammar.HextetsComplete` | fasthttp/ipv6.go:85-142 | every list of groups with at most one :: is taken, with its number of groups |
| `IPv6Grammar.HextetsSound` | fasthttp/ipv6.go:85-142 | and nothing else is |
| `IPv6Grammar.QuadIs` | fasthttp/ipv6.go:144-195 | a dotted quad is four dec-octets |
| `IPv6Literals.ParseIPv6Hextets` | fasthttp/ipv6.go:85-142 | the loop computes the shape of the list |
| `IPv6Literals.ValidIPv4` | fasthttp/ipv6.go:146-195 | the loop accepts exactly the dotted quads |
| `IPv6Literals.ValidateIPv6Literal` | fasthttp/ipv6.go:14-83 | a bracketed literal is valid exactly when it is an IPv6address behind which a zone may stand |
| `IPv6Literals.InsideIs` | fasthttp/ipv6.go:14-45 | what is looked at is the text between the brackets up to a zone, which must not be empty |
| `Characters.TargetMarks` | fasthttp/uri.go:314-405 | the marks are these characters |
| `Characters.MessageMarks` | fasthttp/http.go:3298-3370 | and so are these |
| `Characters.Limits` | fasthttp/bytesconv.go:407-433 | the limits are these numbers |

## Left out

- Sockets, TLS, dialing, DNS resolution, real time and timers: a dial, a timeout, a write or a read simply succeeds or fails at any moment.
- Liveness: the theorems say what is always true, not that a step is eventually taken.
- HostClients.HostClient.QueueForIdle: the wantConns in reach are a table from identity to fields, not objects; the lock of a single wantConn is one atomic step.
- HostClients.HostClient.ReleaseConn: its section is one step; the set `lost` names the waiters that cancel between waiting() and tryDeliver, and RacingCancelCommutes accounts for them.
- HostClients.HostClient.CleanerScan: a connection's lastUseTime is a parameter, and in the protocol the scan takes any prefix; ConnPoolStrategy changes at run time are not modelled.
- MaxConnWaitTimeout and the pool strategy are fixed for a run; the queue is always allocated.
- PipelineTheorems.ResponsesInStep: what a response holds is not modelled, only which request's answer it was read from and whether a body was left; a Response is used by one call at a time, so that SkipBody does not change between the beginning of a request and the reading of its answer; answers with a 1xx status are not modelled.
- Pipeline writer: flushing and batching are not modelled, and the writer may stop while idle at any time, of which the idle timeout is one case. The channels, hands and pool are values in a state machine, since the source shares them between goroutines.
- StreamBody.GivenBackOnce: the outcome of each call inside RoundTrip and the shape of the answer are inputs, and so is whether a Read reports the end, which RequestStreams.ReadAll characterizes; deadlines are not modelled.
- FsCache: the four cache maps are one map keyed by kind and path, a file's readersCount is an entry of a map, and the order in which a map is ranged over is a parameter. smallFilesInMemory and what Release closes are not modelled.
- DnsCleaner.NoOrphanEntry: entries have no resolve time, so that any entry may be found expired; pending and the address index are not modelled.
- HeaderReads.ParseHeaders: what parseHeaders does with a field is the parameter `add`; it is applied to the field's bytes at once, as the source copies them.
- HeaderReads.ReadLoop: the buffer is large enough, and a stream that ends early is a loop that has not finished. The start line's contents are the parameter `first`. The block is parsed in an array of its own whose bytes are then put back.
- Response headers, cookies and the meaning of Content-Length, Connection and other special fields.
- Trailers.Header.ReadTrailer: the buffer is large enough, and a connection has no other error than its end. The section is parsed in an array of its own.
- Trailers.Header.AddTrailers: how an item becomes a name is the parameter `read`; AddTrailerBytes and SetTrailerBytes have the source's own.
- RequestStreams.RequestStream.Read: errors of the connection other than its end, and a buffer that is too small for the trailer section.
- RequestStreams.Serve: other reasons for closing the connection, hijacking and timeouts.
- ChunkStreams.ReadBodyChunked: growth of the destination buffer; 32-bit builds, where sizes have seven digits.
- NormalizePaths.NormalizePath: the Windows branches. The path is in one array while the passes run; the last step works on values.
- HostMemo.URI.Parse: parseHost with what it leaves in the host field when it fails, splitHostURI, validUserinfo and isValidScheme are parameters.
- IPv6Literals.ValidateIPv6Literal: error values; the contents of a zone.
- Swar: anyByteBelow and anyByteEqual, which nothing modelled here uses.
- Compression, multipart forms, the rest of the server loop, file opening and byte ranges, the load-balancing client and cookies.
