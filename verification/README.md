# MicroTrace, verified

A Dafny model of MicroTrace's collector and of the code around it, with machine-checked
proofs of what it promises over whole runs:

- the **statistics engine** (`Ewma`, `OrderStats`, `Baseline`, `ConnStats`, `Connection`,
  `Processor`, `Engine`, `Trace`): ring buffers, percentiles, the gated spike baseline, the integer estimator of round-trip
  time and deviation, the tables of connections and flows and their expiry, and what
  every publish says, read off the log of events alone;
- the **broadcast path** (`Hub`, `Dashboard`, `Broadcast`, `Replica`, `Locks`): the lossy bounded
  queue and the locked client map as a step system over all interleavings, the dashboard's message
  fold, and exactly when a dashboard shows what the engine holds, late joins and dropped messages
  included; `Witness` is a behaviour in which they differ; `Locks` is the nesting of all mutexes;
- the **batched store** (`Overlap`, `Store`): the buffer whose backing array is reused while a
  batch is read, conservation of rows, range queries and retention;
- the **edges** (`Wire`, `Framing`, `ResourceAgent`, `StaticTable`, `Chart`): protobuf bodies and
  length-prefixed frames, counter deltas, the static host table, chart zoom and pan.

`Machine` holds wrapping arithmetic, `Model` the shared values. `dafny verify dfyconfig.toml`
checks everything.

## How to read the model

Objects that the source updates in place are classes (`ConnStats.ConnStats`,
`Connection.Connection`, `Engine.Engine`, `Overlap.Buffer`, `Store.Store`, `ResourceAgent.ContainerState`), and every method is proved
against a function on values; the theorems are about those functions. Loops over Go maps visit
the keys in an arbitrary order. Unsigned 64- and 32-bit arithmetic wraps, and theorems that need
the absence of wrapping say so by a bound on the inputs. Clocks, the service resolver, UTF-8
validation, IP parsing, write failures and the interleaving of goroutines are parameters.

Runs are sequences of steps (`Processor.Step`, `Hub.Action`, `Broadcast.Action`, `Store.Op`,
ticks of the resource agent); results about runs hold for every such sequence.

Where the code and its comments disagree, the model follows the code:

- The comments promise that a spike cannot move the baseline. The gate opens whenever the
  jitter of the sample's own flow is at most half the median, and the first sample of a flow has
  jitter 0, so a spike that opens a new flow raises the baseline and goes unreported.
  `Processor.PublishedSpikeExactly` gives the exact condition for every publish of every run,
  `Processor.NewFlowHidesSpike` the family of failures, `Processor.SlowFlowGoesUnreported` a run.
- The comment on the pressure score promises 75% from two events on; it takes three
  (`ResourceAgent.TwoEventsFallShort`). At the largest 64-bit delta the denominator wraps to 0 and
  the score is 0.
- A history read between the locked and the unlocked half of a publish contains points that are
  still to be broadcast, so a dashboard that joins then shows them twice
  (`Witness.LateJoinerDisagrees`); `Replica.AgreesExactly` says when that cannot be seen.
- The hub's header says only the Run loop writes to connections; ServeWs writes the history
  message too. Both hold the lock.
- The estimator follows rule 2.3 of section 2 of RFC 6298 but starts the deviation at 0, where
  rule 2.2 starts it at half the first sample. The real-valued reference starts at 0 too.
- `sample_count` is documented as the samples of the last second; it is the fill of the ring.

## Model

| member | source | states |
|---|---|---|
| `Machine.LastOfLast` | collector/stats/stats.go:406-409 | trimming a history before appending to it does not change what a later trim keeps |
| `Ewma.StepFloors` | collector/stats/stats.go:451-453 | below 2^61 nothing wraps and both new estimates are the floors of their weighted means |
| `Ewma.EstimatesStayInRange` | collector/stats/stats.go:440-455 | over every run srtt stays within the samples seen and mdev within their spread |
| `Ewma.WrapsAtTheLimit` | collector/stats/stats.go:453-453 | the bound is sharp: two samples of 2^61 are estimated as 0 |
| `Ewma.StepTracks` | collector/stats/stats.go:430-440 | one step keeps the integer estimates within [0,7) and (-7,10) of the real-valued rule |
| `Ewma.IntegerTracksReal` | collector/stats/stats.go:440-462 | rounding errors never accumulate: the same bounds hold after arbitrarily long runs |
| `Ewma.SettlesOnConstant` | collector/stats/stats.go:451-455 | from any state a constant r is reached within 7 (exactly from above) after an explicit number of samples |
| `OrderStats.SortSorts` | collector/stats/stats.go:183-183 | the sorted copy is ordered and a permutation of the window |
| `OrderStats.RankIsSortedIndex` | collector/stats/stats.go:183-187 | indexing the sorted copy yields the one sample of that rank, rank being defined by counting alone |
| `OrderStats.PercentileAtMost` | collector/stats/stats.go:185-198 | percentile p of n samples is at most b if and only if fewer than n - floor(n*p/100) of them exceed b |
| `OrderStats.PublishedRanks` | collector/stats/stats.go:185-187 | for p50, p95 and p99 in numbers: n - n/2, n - 95n/100 and ceil(n/100) samples |
| `OrderStats.P99AtMost` | collector/stats/stats.go:187-197 | p99 is at most b if and only if fewer than ceil(n/100) samples exceed b |
| `OrderStats.PercentileMonotone` | collector/stats/stats.go:185-187 | p50 <= p95 <= p99 for every window |
| `OrderStats.P99IsMaxOfSmallWindow` | collector/stats/stats.go:192-198 | up to 100 samples p99 is the maximum |
| `OrderStats.AverageIsFlooredMean` | collector/stats/stats.go:173-181 | with samples below 2^64/1000 the average is the floored mean and lies within the samples |
| `Baseline.FeedKeepsWindow` | collector/stats/stats.go:120-126 | after any run a connection holds exactly the last 1000 round-trip times |
| `Baseline.AfterSample` | collector/stats/stats.go:151-161 | a sample replaces the baseline by the p99 of its window if it opens the gate and otherwise leaves it alone |
| `Baseline.FallbackIsDead` | collector/stats/stats.go:205-213 | in every reachable state there is a baseline exactly when there are samples, so the p99 fallback never supplies one |
| `Baseline.NoFalseAlarm` | collector/stats/stats.go:205-216 | a lifetime of round-trip times within [m,3m] never raises an alarm |
| `Baseline.NoMissedSpike` | collector/stats/stats.go:151-216 | if every window so far has fewer than ceil(n/100) samples above b, the baseline is at most b and a latest sample above 3b is reported |
| `Baseline.ReportedExactly` | collector/stats/stats.go:146-161 | exactly when the newest sample is reported, with the gate open and with it closed |
| `Baseline.GateHidesSpike` | collector/stats/stats.go:105-108 | up to 100 samples, any sample that opens the gate goes unreported and raises the baseline to itself |
| `Baseline.Recovers` | collector/stats/stats.go:151-161 | from any state of connection and flow a constant r >= 14 makes the estimates settle, the baseline r and no spike |
| `Baseline.ThirteenNeverRecovers` | collector/stats/stats.go:156-160 | the bound 14 is sharp: after 1 and 29, a constant 13 leaves the baseline at 29 for ever |
| `ConnStats.RingPush` | collector/stats/stats.go:120-135 | writing at head and advancing modulo 1000 drops the oldest sample exactly when the ring is full |
| `ConnStats.ConnStats.constructor` | collector/stats/stats.go:93-117 | a new connection holds no samples and no baseline |
| `ConnStats.ConnStats.AddRtt` | collector/stats/stats.go:120-126 | the ring holds the last 1000 round-trip times, oldest first; nothing else changes |
| `ConnStats.ConnStats.AddJitter` | collector/stats/stats.go:129-135 | the same for the jitter ring |
| `ConnStats.ConnStats.LatestJitter` | collector/stats/stats.go:138-144 | the newest jitter, or 0 |
| `ConnStats.ConnStats.LatestRtt` | collector/stats/stats.go:358-362 | the newest round-trip time, or 0 |
| `ConnStats.ConnStats.CopySamples` | collector/stats/stats.go:173-179 | the copy is the whole window, oldest first, with its wrapped sum |
| `ConnStats.ConnStats.Percentiles` | collector/stats/stats.go:167-189 | the average and the three percentiles of exactly the current window |
| `ConnStats.ConnStats.UpdateStableP99` | collector/stats/stats.go:151-161 | only the baseline changes, as the gate decides |
| `ConnStats.ConnStats.IsSpike` | collector/stats/stats.go:205-216 | verdict and threshold of the value model |
| `ConnStats.ConnStats.Record` | collector/stats/stats.go:331-333 | the three updates of an event amount to feeding one sample |
| `Processor.NoOrphanFlows` | collector/stats/stats.go:487-504 | after every step of every run each flow has its connection, seen no earlier than the flow |
| `Trace.EventExactly` | collector/stats/stats.go:297-339 | which events add their latency to the rings of which connection and advance which flow, what else they set, and that nothing else changes |
| `Trace.NewestIsRecorded` | collector/stats/stats.go:321-334 | after any run, a connect or rtt event with a positive latency is the newest sample published for its services |
| `Trace.TrackedExactly` | collector/stats/stats.go:487-498 | a connection is tracked if and only if no sweep after its last event came more than 30 s later; time and node types are those of that event |
| `Trace.FlowTrackedExactly` | collector/stats/stats.go:499-503 | the same for a flow and its last sample |
| `Trace.SweepExactly` | collector/stats/stats.go:489-504 | a sweep removes and announces exactly the connections whose last event is more than 30 s old, and the flows likewise |
| `Trace.LifetimeBound` | collector/stats/stats.go:36-41 | with sweeps at most 10 s apart no connection outlives its last event in the log by more than 40 s |
| `Trace.PublishExplains` | collector/stats/stats.go:364-393 | in every publish of every run, node types come from the last event, evidence and cause from the resource forwarded last for the destination |
| `Trace.PublishedRetransmits` | collector/stats/stats.go:376-376 | the published count is that of the retransmissions since creation modulo 2^32 |
| `Trace.PublishedThreshold` | collector/stats/stats.go:205-216 | the published threshold is three times the baseline, and the verdict compares the newest sample with it |
| `Trace.ThresholdExactly` | collector/stats/stats.go:205-216 | threshold and verdict for any state, the fallback included |
| `Trace.HistoryExactly` | collector/stats/stats.go:396-409 | a history holds the last 3600 published values since creation, with their times in milliseconds |
| `Trace.SentOnce` | collector/stats/stats.go:416-421 | one message for each connection of a publish or a sweep, one entry for each history, under the text key |
| `Processor.RemovalsBalanceCreations` | collector/stats/stats.go:464-513 | over every run a connection has been created as often as it was removed, plus once if it is live |
| `Processor.FlowIsRun` | collector/stats/stats.go:440-455 | every flow in the table is the estimator run on the samples since its creation |
| `Processor.ConnIsFeed` | collector/stats/stats.go:297-339 | every connection in the table is the feed of its connect and rtt samples since its creation, each with the jitter of its own flow, and nothing else |
| `Processor.EngineVerdicts` | collector/stats/stats.go:354-380 | no false alarm, no missed spike and the dead fallback, for every publish of every run |
| `Processor.SnapshotMeans` | collector/stats/stats.go:354-380 | in every run, what each number of a published snapshot means for the last 1000 samples of the connection's lifetime, by counting alone; all zero before the first sample |
| `Processor.FlowTracksRealRule` | collector/stats/stats.go:428-455 | in every run each flow's estimates stay close to the real-valued rule on its samples |
| `Processor.RetransmitsAreCounted` | collector/stats/stats.go:335-336 | the counter of a live connection is the number of its retransmissions since creation, in 32 bits |
| `Processor.PublishedSpikeExactly` | collector/stats/stats.go:146-216 | in every run, exactly when a publish reports a connection: with the gate open the newest sample must stand out from its own window, with it closed from the baseline before it |
| `Processor.NewFlowHidesSpike` | collector/stats/stats.go:444-448 | in every run the first sample of a new flow, however slow, goes unreported and raises the baseline while its connection has fewer than 100 samples |
| `Processor.SlowFlowGoesUnreported` | collector/stats/stats.go:105-108 | a run of 61 events after which a flow a thousand times slower than the steady one is not reported |
| `Processor.CauseExactly` | collector/stats/stats.go:526-546 | each cause with its signal if and only if its condition holds, with and without a resource snapshot of the destination |
| `Connection.Connection.constructor` | collector/stats/stats.go:464-474 | a connection is created without samples, counts or history |
| `Connection.Connection.OnEvent` | collector/stats/stats.go:318-337 | what an event does to the rings and fields of its connection |
| `Connection.Connection.Measure` | collector/stats/stats.go:354-393 | every field of the snapshot read off the rings in place is that of the value model |
| `Connection.Connection.Publish` | collector/stats/stats.go:354-412 | one turn of the publish loop: the snapshot, and the history with its new point, trimmed |
| `Engine.Engine.constructor` | collector/stats/stats.go:251-260 | a new engine has empty tables and has sent nothing |
| `Engine.Engine.UpdateFlowMdev` | collector/stats/stats.go:440-455 | one estimator step on one flow, and its jitter |
| `Engine.Engine.HandleEvent` | collector/stats/stats.go:297-339 | the tables after an event, and the one raw event broadcast |
| `Engine.Engine.TakeSnapshots` | collector/stats/stats.go:343-413 | one snapshot and one trimmed history point for each connection, in any order |
| `Engine.Engine.SendAll` | collector/stats/stats.go:416-425 | each snapshot is broadcast and stored once, in order |
| `Engine.Engine.PublishSnapshots` | collector/stats/stats.go:342-426 | the whole publish: tables, messages and stored rows |
| `Engine.Engine.DeleteExpired` | collector/stats/stats.go:490-504 | exactly the stale connections and flows are deleted |
| `Engine.Engine.SweepExpired` | collector/stats/stats.go:489-513 | and each deleted connection is announced by exactly one remove message |
| `Engine.Engine.ForwardResource` | collector/stats/stats.go:561-568 | the newest resource of a service is kept, broadcast and stored |
| `Engine.Engine.GetHistory` | collector/stats/stats.go:576-593 | a copy of every non-empty history, one entry for each connection |
| `Engine.VisitOrder` | collector/stats/stats.go:354-354 | a range over a map visits each key once, in some order |
| `Engine.UpdateEach` | collector/stats/stats.go:354-412 | updating values while ranging over the map updates each exactly once |
| `Engine.DeleteEach` | collector/stats/stats.go:493-498 | deleting while ranging over the map deletes exactly the stale entries |
| `Hub.StepInv` | collector/hub/hub.go:78-160 | every step of every goroutine keeps the hub's invariant |
| `Hub.HubIsSafe` | collector/hub/hub.go:42-160 | in every interleaving writers hold the lock, no two writes overlap, clients in the map are open, others are closed or about to be, the queue holds at most 512, and offered messages split into taken, queued and dropped |
| `Hub.DropsExactlyWhenFull` | collector/hub/hub.go:105-117 | in every behaviour a message is dropped if and only if it is offered while the queue holds 512, and queued otherwise |
| `Hub.NeverFullDropsNothing` | collector/hub/hub.go:112-116 | a queue that never fills up drops nothing |
| `Hub.ReceivesOneSlice` | collector/hub/hub.go:78-146 | every connection receives at most one history message and then one contiguous slice of the accepted broadcasts |
| `Hub.RemovedStaysSilent` | collector/hub/hub.go:42-50 | a connection that has left the client map never returns and is never written again |
| `Dashboard.BuildHistory` | frontend/src/hooks/useWebSocket.ts:88-102 | the loop builds the map in which the last entry of a key wins |
| `Dashboard.StatsAppends` | frontend/src/hooks/useWebSocket.ts:44-85 | a stats message replaces the snapshot of its key and adds one timed point, trimmed to 3600 |
| `Dashboard.HistoryReplaces` | frontend/src/hooks/useWebSocket.ts:88-102 | a history message replaces all histories by the last entry of each key |
| `Dashboard.KeepsLastSnap` | frontend/src/hooks/useWebSocket.ts:48-71 | the snapshot kept for a key is the last one received since any removal |
| `Dashboard.SpikeLogIsNewestRises` | frontend/src/hooks/useWebSocket.ts:44-71 | for every message stream the log reports, field by field, the newest 100 false-to-true transitions, newest first |
| `Dashboard.PointsConcat` | frontend/src/hooks/useWebSocket.ts:130-134 | a removal makes everything before it irrelevant for its key, and nothing else does |
| `Dashboard.ShownAfter` | frontend/src/hooks/useWebSocket.ts:73-85 | what any stream of broadcasts leaves on show for a key, trimming included |
| `Dashboard.SnapshotKeys` | frontend/src/hooks/useWebSocket.ts:130-134 | a snapshot is kept exactly for the keys with points since their last removal |
| `Model.KeyTextInjective` | collector/stats/stats.go:508-511 | without an arrow in the source names, text keys identify connections |
| `Model.KeyTextCollides` | collector/stats/stats.go:588-588 | with an arrow they do not |
| `Broadcast.PublishKeepsServerInv` | collector/stats/stats.go:396-425 | a publish extends each history exactly as it extends the emitted points |
| `Broadcast.SweepKeepsServerInv` | collector/stats/stats.go:489-513 | a sweep ends the points of exactly the removed connections |
| `Broadcast.EventKeepsServerInv` | collector/stats/stats.go:297-339 | an event, even one that re-creates a removed connection, leaves histories and emitted points in step |
| `Broadcast.HistoryIsFaithful` | collector/hub/hub.go:137-145 | the history message loads, for every key, exactly the points emitted so far |
| `Broadcast.SysStep` | collector/main.go:159-203 | every step of engine, hub and dashboards together keeps the system's invariant |
| `Broadcast.IntactIsInSync` | collector/hub/hub.go:105-117 | in every behaviour, a key of which no message was dropped since its last accepted removal is told alike by queue and engine, and each joiner's history splits into what was broadcast before it and what was in flight |
| `Broadcast.LosslessIsIntact` | collector/hub/hub.go:112-116 | without any relevant drop every key is such a key |
| `Broadcast.NeverFullIsLossless` | collector/hub/hub.go:112-116 | a behaviour whose queue never reaches 512 has no drop |
| `Replica.ShownWhenDrained` | frontend/src/hooks/useWebSocket.ts:41-135 | the exact content of a dashboard that has been sent everything, whatever was dropped |
| `Replica.DoublingHides` | frontend/src/hooks/useWebSocket.ts:84-84 | exactly when a doubled stretch leaves what a trim to n keeps unchanged |
| `Replica.AgreesExactly` | collector/hub/hub.go:133-146 | for every joiner, at every drained moment, about every intact key: what it shows, what the engine holds, and that they agree if and only if the key was removed since, 3600 points came since, nothing was in flight (or, without a history, missed), or the points filling up the 3600 repeat with the period of those in flight |
| `Replica.ReplicaAgrees` | frontend/src/hooks/useWebSocket.ts:73-134 | in every lossless behaviour a drained dashboard shows exactly the engine's histories if and only if it is in step about each; one that joined early, found no history or joined while nothing was in flight always does |
| `Replica.JoinIsSafe` | collector/hub/hub.go:129-146 | whenever it joined, a drained dashboard lists an intact key only if it is live, and exactly then if it was sent its history or there was none |
| `Replica.LossesHeal` | collector/stats/stats.go:506-512 | whatever was dropped before, a listening dashboard is right about a connection once a removal or 3600 points of it have been queued with nothing of it dropped since |
| `Locks.TurnsAreDisciplined` | collector/stats/stats.go:297-426 | every turn of every goroutine takes its locks in order of rank and keeps none |
| `Locks.NoDeadlock` | collector/hub/hub.go:129-146 | for any number of goroutines, in every interleaving, one that is not idle can move or waits for one that can; none that holds the engine's lock waits for the hub's |
| `Witness.LateJoinerDisagrees` | collector/stats/stats.go:413-421 | for every resolver and first event, a behaviour without loss after which a dashboard that joined between publish and broadcast shows two points where the engine holds one |
| `Overlap.IntactExactly` | collector/store/store.go:140-189 | row i is inserted as written, or else as the i-th overlapping write; the batch is intact if and only if no row is displaced |
| `Overlap.BatchBalance` | collector/store/store.go:142-146 | each displaced row is traded for a second copy of an overlapping write |
| `Overlap.NoOverlapNoLoss` | collector/store/store.go:174-189 | without displacement nothing is lost and nothing doubled |
| `Overlap.Buffer.constructor` | collector/store/store.go:65-65 | a new buffer is empty |
| `Overlap.Buffer.Append` | collector/store/store.go:105-110 | append writes in place while capacity lasts and otherwise leaves the old array untouched |
| `Overlap.Buffer.Drain` | collector/store/store.go:140-189 | the rows read and the buffer left behind, for every schedule of overlapping writes on the shared array |
| `Store.NothingVanishes` | collector/store/store.go:105-240 | over every run, failures and overlaps included, what was written plus the doubled rows is in buffer, table, expired or lost |
| `Store.CleanFlush` | collector/store/store.go:126-136 | a flush without overlap that commits moves the buffer to the table, empties it and loses nothing |
| `Store.QueryIsExact` | collector/store/store.go:256-280 | a query returns exactly the matching rows, each as often as stored, ordered by time |
| `Store.AnswerExactly` | collector/main.go:302-336 | for each range, the endpoint returns exactly the rows of source and destination of the last 1 h, 6 h, 24 h, 7 d or ever, in milliseconds |
| `Store.ExpiryExactly` | collector/store/store.go:224-232 | an expiry run keeps exactly the rows of the last seven days |
| `Store.InsertedExactly` | collector/store/store.go:173-218 | row i is stored if and only if its insert was not refused, in its place |
| `Store.StampExactly` | collector/store/store.go:179-182 | a stored row has its own time, or that of the flush if it has none |
| `Store.FlushThenQuery` | collector/store/store.go:102-110 | after such a flush a query returns every matching snapshot of table and buffer with its own write time |
| `Store.RetentionIsInvisible` | collector/main.go:302-336 | every range but "all" is answered as if nothing had ever been deleted |
| `Store.AllMeansRetained` | collector/main.go:326-334 | right after an expiry run "all" means the same as "7d" |
| `Store.Store.constructor` | collector/store/store.go:50-66 | a new store has two empty buffers and two empty tables |
| `Store.Store.WriteConn` | collector/store/store.go:105-110 | the snapshot is buffered with the time of the write, the other buffer untouched |
| `Store.Store.WriteResource` | collector/store/store.go:113-117 | the same for a resource snapshot with its own time |
| `Store.Insert` | collector/store/store.go:173-218 | the rows a transaction adds to a table, failed inserts and failed commits included |
| `Store.Store.Flush` | collector/store/store.go:140-221 | both buffers and both tables after a flush, for every pair of schedules and every outcome of the one transaction |
| `Store.DeleteOlder` | collector/store/store.go:227-227 | exactly the older rows go, and none if the statement fails |
| `Store.Store.DeleteExpired` | collector/store/store.go:224-240 | exactly the rows older than seven days are deleted from each table whose statement succeeds |
| `Wire.VarintRoundTrip` | agent/tcp_trace.c:120-126 | every value below 2^64 is read back from its varint, whatever follows |
| `Wire.EventRoundTrip` | collector/agent/reader.go:138-153 | every event that fits the C structure is decoded as it was if its strings are text, and refused if not |
| `Wire.EncodedSize` | agent/event.pb.h:63-64 | no such event encodes to more than 98 bytes |
| `Wire.KnownBytes` | agent/event.pb.h:46-53 | the bytes of an event that uses all eight field numbers |
| `Framing.LengthRoundTrip` | collector/agent/reader.go:128-128 | the little-endian length prefix is read back |
| `Framing.DottedRoundTrip` | agent/tcp_trace.c:108-111 | the four octets can be read back from the text of an address |
| `Framing.FieldsArrive` | agent/tcp_trace.c:103-118 | every field of the agent's event can be read off the collected one, each from its own place |
| `Framing.EncodeInto` | agent/tcp_trace.c:120-126 | the message fills the front of the buffer, or the call fails exactly when it does not fit |
| `Framing.OutputEvent` | agent/tcp_trace.c:99-133 | every event is written as one whole frame; the failure branch is dead |
| `Framing.ReadProtobuf` | collector/agent/reader.go:116-160 | with the buffer reused and regrown, the loop decodes the stream as if each body were alone |
| `Framing.FillBuffer` | collector/agent/reader.go:132-136 | the front of the buffer holds exactly the bytes read |
| `Framing.FramesStayAligned` | collector/agent/reader.go:121-142 | bodies that do not parse are skipped without losing frame boundaries, for every parser |
| `Framing.TruncationGivesPrefix` | collector/agent/reader.go:122-136 | cutting any stream anywhere only cuts the list of events |
| `Framing.StreamRoundTrip` | collector/agent/reader.go:116-160 | decoding what the agent sends for any list of events gives that list, less those whose process name is not text |
| `ResourceAgent.ContainerState.constructor` | resource_agent/main.go:73-79 | a new container has no previous reading |
| `ResourceAgent.ContainerState.ReadSnapshot` | resource_agent/main.go:232-322 | a failed tick changes nothing, the first reading emits nothing, later ones emit the deltas and the gauges, unreadable ones as 0 |
| `ResourceAgent.PctExactly` | resource_agent/main.go:281-288 | a share is 100 if and only if the counter ran for the whole interval, and proportional below |
| `ResourceAgent.PerSecondExactly` | resource_agent/main.go:290-294 | a rate is the delta per second, rounded down |
| `ResourceAgent.ReportsAddUp` | resource_agent/main.go:271-305 | over any run of ticks the reported OOM kills add up to the upward steps of the counter |
| `ResourceAgent.ReportsAreDifference` | resource_agent/main.go:488-493 | they equal last minus first if and only if no reset was observed |
| `ResourceAgent.ScoreMeansHighEvent` | resource_agent/main.go:557-564 | the score is at least 50 exactly when a high event occurred, except for the one delta that wraps |
| `ResourceAgent.ScoreReaches` | resource_agent/main.go:561-563 | the score reaches 1 - 1/n of the scale exactly from n - 1 high events on |
| `ResourceAgent.TwoEventsFallShort` | resource_agent/main.go:294-299 | two events stay below the promised 75%, which is reached exactly from three on |
| `ResourceAgent.MemoryBlamedForHighEvents` | collector/stats/stats.go:526-546 | without OOM kill or throttling an internal destination is blamed on memory exactly then |
| `StaticTable.AddExtends` | collector/resolver/static.go:70-82 | a pair is accepted if and only if it is valid and agrees with the pairs so far |
| `StaticTable.AddHosts` | collector/resolver/static.go:39-43 | the hosts section in any order: success if and only if all pairs are valid and consistent |
| `StaticTable.AddList` | collector/resolver/static.go:45-49 | the same for the addresses of one service |
| `StaticTable.AddServices` | collector/resolver/static.go:44-50 | the same for the services section in any order |
| `StaticTable.LoadSections` | collector/resolver/static.go:38-50 | both sections together hold exactly their union |
| `StaticTable.LoadStaticTable` | collector/resolver/static.go:27-68 | loading succeeds if and only if there is an entry, all are valid and no address has two names; the table is the union |
| `StaticTable.OrderCannotShow` | collector/resolver/static.go:38-50 | tables that hold the same pairs are equal, so iteration order cannot show |
| `Chart.DataBounds` | frontend/src/components/chartShared.ts:20-26 | the extent of the data, one unit wide where it has none |
| `Chart.WheelStaysInside` | frontend/src/components/chartShared.ts:46-63 | each wheel step stays inside the data with a legal width |
| `Chart.WheelZooms` | frontend/src/components/chartShared.ts:53-60 | a notch shows 4/5 or 5/4 of the view as far as the limits allow, and zooming in narrows it |
| `Chart.WheelKeepsAnchor` | frontend/src/components/chartShared.ts:58-62 | the point under the mouse stays put if and only if the edges of the data are not in the way |
| `Chart.FullRangeExactly` | frontend/src/components/chartShared.ts:29-34 | the view is full if and only if it shows 99.9% of the data |
| `Chart.ZoomOutResumesLive` | frontend/src/components/chartShared.ts:98-101 | enough notches outwards always show everything, so live tracking resumes |
| `Chart.DragStaysInside` | frontend/src/components/chartShared.ts:80-89 | a drag keeps the width and stays inside the data if and only if the view is not wider than the data |
| `Chart.DragFollowsMouse` | frontend/src/components/chartShared.ts:83-88 | the grabbed point follows the mouse if and only if no edge is in the way, else the view stops at the edge |

## Left out

- The hub has no class: its goroutines are modelled as steps, because the interleavings are what its properties are about; a write and the order in which one turn of the Run loop visits clients are steps too.
- The engine's table maps keys to records, not to `Connection` objects: the class shows that one connection in place implements its record, turn by turn, but a map of such objects and their separation is not modelled; the source never shares a connection or flow outside its map.
- Data races on a row that is read and written at the same moment are not modelled; a read of a row is atomic.
- The Go growth policy of append: any larger capacity would do.
- The services map of the dashboard (a last value and 300 points for each service), reconnection, and the identifiers of spike events: independent of what is proved, and easy.
- JSON encoding, SQL text, YAML parsing, process handling, HTTP serving, gRPC transport, Docker and DNS lookups: library calls, replaced by values and parameters.
- Protobuf groups are refused by the decoder model, where the library would skip them; the agent never sends any.
- Floating-point rounding of percentages, scores and chart coordinates: real numbers are used.
- Cancellation of the reader by its context and the shutdown of the Run loops: they only end a run early.
- Which error a failed load of the static table reports: it does depend on iteration order.
- The eBPF program, the React components, formatting and mock data.
- Between the loss of a message and the next accepted removal or 3600 later points of its key, a dashboard may differ from the engine: its content is given by `Replica.ShownWhenDrained`, but no simpler condition for agreement is.
- Read locks of the resolver count as exclusive ones, and the locks of the Go runtime, of gRPC and of SQLite are not part of the lock order.
- ServeWs without a history function and a history that cannot be serialised: the collector always sets the function, and the message holds plain numbers and strings.
