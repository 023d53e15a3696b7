# Verified model of an I/O telemetry and remediation pipeline

A Dafny 4.11 model of a pipeline that measures block I/O and run-queue latency in the kernel, joins
and exports the measurements per pod, and remediates pods that saturate. `dafny verify dfyconfig.toml`
checks the whole project.

| file | what it models |
|---|---|
| `BlockLatency.dfy` | the block I/O tracer, each handler one atomic step, against a meaning read off the event trace alone |
| `BlockInterleaving.dfy` | `block_rq_complete` split into single map operations and atomic adds, run by any number of CPUs in any order |
| `RaceExample.dfy` | one race of two first touches, step by step |
| `RunqLatency.dfy` | the run-queue tracer over wakeups and switches |
| `KubePath.dfy` | pod UIDs out of cgroup paths |
| `Collector.dfy`, `CollectorLoop.dfy` | the join of both kernel maps and the tick loop with its cached resolver |
| `Rows.dfy`, `Aggregation.dfy`, `Exporter.dfy` | rows, their aggregation into pods and the delta-fed counters |
| `Pipeline.dfy` | kernel events to exported counters, end to end |
| `EvictAndTaint.dfy`, `ScaleUp.dfy`, `MigrateStorage.dfy` | the three remediation actions on a cluster store |
| `Controller.dfy`, `RemediationRuns.dfy` | the choice of an action, the loop over saturated pods, and what whole runs of actions keep |
| `Words.dfy`, `Cluster.dfy` | machine words and bounded maps; the Kubernetes objects |

Kernel words are 64-bit and every wrap-around is written out: sums of a trace are unbounded naturals and
the maps are shown to hold them modulo 2^64. The capacities of the kernel maps are part of the model, so
the tracer theorems hold for traces that overflow them too. The clocks, the order of iteration over a
hash map, the moment an iteration fails and the outcome of each call of the Kubernetes API are
parameters or free choices; where an action takes `reliable`, a true value means that no call fails for
reasons outside the store.

## What turned out not to hold as stated

- Racing first touches of one cgroup lose counts: the second insert replaces the entry the first handler
  counts in. `RaceLosesCount` runs such a race to its end, one operation shown where a serial run counts
  two. `ExactIffNotOverridden` gives the schedules: at rest an entry holds the serial totals if and only if
  no step ran a first-touch insert over an entry some handler already pointed into. `LostAreStrays` says
  how many counts are missing.
- An expired taint is not always removed. `ExpiredTaintStaysIff` gives the exact condition, for every
  duration: the only own taint stands last in the list, expired, and differs from a fresh one in its time
  alone, or a taint is added under a duration of zero or less. `NeverRefreshed` shows that no later call
  repairs the first.
- `labelsFromKey` undoes the series key if and only if the kind holds no bar (`KeyRoundTrip`); all five
  kinds in use are free of it.
- A CPU step raises a limit without passing the maximum if and only if the sum fits an int64 (`RaisesIff`;
  `RaiseFails` is an input where it does not). A container is safe over every run of calls if and only if
  no step of its ladder overflows (`AlwaysSafeIff`); below a maximum of about 9.13 * 10^18 millicores none
  can (`SaneClimbs`).
- The average gauge can depend on the order of rows once a pod's operation count wraps to zero
  (`WrappedAverageDependsOnOrder`). `OrderFreeIff` says exactly when it does not.

Where comments and code differ the model follows the code. The comment on the exporter says that a series
stops growing after a reset; the code takes the whole new level as the delta, and deletes the series of a
pod that is gone. The comment on `pvcUsedReadOnly` lists two writable access modes and asks only that all
mounts be read-only; the code also counts ReadWriteOncePod as writable and requires that some main
container mounts the volume.

## Model

| member | source | states |
|---|---|---|
| BlockLatency.BlockTracer.BlockRqIssue | ebpf/latency/block_latency.c:41-53 | the new state of both maps after an issue, refusal by a full start map included |
| BlockLatency.BlockTracer.FindOrInsert | ebpf/latency/block_latency.c:71-79 | a cgroup is found exactly when it has an entry or there is room; a new entry is zero |
| BlockLatency.BlockTracer.AddAll | ebpf/latency/block_latency.c:81-85 | the four words of one entry after the adds, and no other entry changed |
| BlockLatency.BlockTracer.BlockRqComplete | ebpf/latency/block_latency.c:55-89 | the new state of both maps after a completion: unmatched, dropped or counted, the byte count taken from the issue |
| BlockLatency.BlockTracer.DeleteStats | collector/main.go:176-178 | the collector's deletion of one entry |
| BlockLatency.StartMapIsPending | ebpf/latency/block_latency.c:27-53 | in every reachable state the start map holds exactly the outstanding requests, each with its latest issue record, within 32768 entries |
| BlockLatency.PendingIsLatest | ebpf/latency/block_latency.c:45-51 | a pending record is word by word that of an issue after which its request is neither issued nor completed |
| BlockLatency.StatsAreSums | ebpf/latency/block_latency.c:34-89 | in every reachable state the statistics map holds exactly the tracked cgroups, each with its trace sums modulo 2^64, within 16384 entries |
| BlockLatency.EntryIsSum | ebpf/latency/block_latency.c:71-85 | a cgroup's entry, or zero without one, is the sum over the completions counted for it |
| BlockLatency.ErrorsWithinIo | ebpf/latency/block_latency.c:81-85 | over every trace a cgroup's errors never outnumber its operations |
| BlockLatency.IssuesAreAccounted | ebpf/latency/block_latency.c:41-89 | accepted issues are the counted completions plus those dropped on a full map plus overwritten re-issues plus entries outstanding |
| BlockLatency.LatencyIsElapsed | ebpf/latency/block_latency.c:67-69 | with a clock that never goes back a completion is charged as one operation, completion time minus latest issue time, the bytes at issue, and an error if it failed; nothing underflows |
| BlockLatency.NothingRefused | ebpf/latency/block_latency.c:51-79 | as long as no map is full a completion is matched with the latest issue of its request |
| BlockLatency.FewNamesFit | ebpf/latency/block_latency.c:27-39 | a trace that names at most 32768 requests and 16384 cgroups never finds a map full |
| BlockInterleaving.ExecKeepsInv | ebpf/latency/block_latency.c:55-89 | every step of every interleaving keeps: pointers lead to cells of the right cgroup, running handlers keep their start record, and each cell holds what its handlers have added |
| BlockInterleaving.EndsWithoutRecord | ebpf/latency/block_latency.c:76-87 | a handler that ends, counted, dropped or unmatched, leaves no start record of its request and all others |
| BlockInterleaving.ErrorsWithinIoAlways | ebpf/latency/block_latency.c:81-85 | in every state of every interleaving no cell, detached or visible, shows more errors than operations |
| BlockInterleaving.ExecIsSerial | ebpf/latency/block_latency.c:55-89 | every interleaving that finds room in the maps has its log of issues and completions as a serial equivalent |
| BlockInterleaving.VisibleNeverExceeds | ebpf/latency/block_latency.c:71-85 | at any moment, races included, a visible entry holds at most the serial totals |
| BlockInterleaving.FewNamesAreRoomy | ebpf/latency/block_latency.c:27-39 | a schedule whose issues name at most 32768 requests and 16384 cgroups finds room throughout |
| BlockInterleaving.StrayIffOverridden | ebpf/latency/block_latency.c:71-79 | in every state of every interleaving some handler counts off the visible entry if and only if an earlier insert ran over an entry in use |
| BlockInterleaving.ExactIffNotOverridden | ebpf/latency/block_latency.c:72-74 | at rest the visible entry holds the serial totals if and only if the schedule never ran a first-touch insert over an entry in use |
| BlockInterleaving.LostAreStrays | ebpf/latency/block_latency.c:71-85 | at rest the visible entry is short of the serial count by exactly the completions counted in replaced cells |
| BlockInterleaving.QuiescentIsSerial | ebpf/latency/block_latency.c:55-89 | at rest the start map is that of the serial run, and so is every entry whose first touch was not raced |
| BlockInterleaving.PresentEntryIsExact | ebpf/latency/block_latency.c:71-85 | an entry present at a quiet moment gains exactly what the completions up to the next quiet moment owe, whatever the capacities |
| RaceExample.RaceLosesCount | ebpf/latency/block_latency.c:72-74 | a concrete race run to rest: the visible entry shows one operation where the serial run counts two |
| RunqLatency.ReactIsRun | ebpf/latency/runq_latency.c:71-114 | a scheduler event acts on any state a run reaches as its enqueue and dequeue operations |
| RunqLatency.ReplayIsRun | ebpf/latency/runq_latency.c:50-114 | running the handlers over any schedule of events and deletions is running its operations, so every theorem about operations is one about schedules |
| RunqLatency.LatestIsQueued | ebpf/latency/runq_latency.c:50-99 | over every schedule, a task's latest unconsumed enqueue is its latest wakeup, or its latest switch-out while still runnable, with no switch-in since |
| RunqLatency.OwedIsOwedBy | ebpf/latency/runq_latency.c:71-111 | what the operations owe a cgroup is what the schedule owes it, read off wakeups, preemptions and switch-ins alone |
| RunqLatency.ScheduleIsOwed | ebpf/latency/runq_latency.c:50-114 | over every schedule that finds room and whose clock never goes back, a cgroup's entry is exactly the sum over its switch-ins of switch time minus the task's latest wakeup or preemption |
| RunqLatency.RunqTracer.DeleteStats | collector/main.go:207-209 | the collector's deletion of one entry |
| RunqLatency.RunqTracer.HandleWakeup | ebpf/latency/runq_latency.c:50-57 | the new state after a wakeup |
| RunqLatency.RunqTracer.SchedSwitch | ebpf/latency/runq_latency.c:71-114 | the new state after a switch: a previous task still runnable is enqueued at its clock reading, first, then the next one leaves the start map and its wait is charged, even when the statistics are full |
| RunqLatency.RunqTracer.SwitchIn | ebpf/latency/runq_latency.c:92-111 | the new state once the next task has been looked up, removed and charged |
| RunqLatency.RunqTracer.Charge | ebpf/latency/runq_latency.c:103-111 | the entry after a wait is added, or no change when the map is full |
| RunqLatency.EntryIsSum | ebpf/latency/runq_latency.c:103-111 | in every reachable state a cgroup's entry is the sum of its counted waits modulo 2^64 |
| RunqLatency.WaitsAreDisjoint | ebpf/latency/runq_latency.c:50-111 | with a clock that never goes back the counted waits of one (pid, start time) are pairwise disjoint, and a queued task joined after its earlier waits ended |
| RunqLatency.WaitsAreElapsed | ebpf/latency/runq_latency.c:97-98 | no subtraction underflows: a counted wait is its plain length |
| RunqLatency.WaitWithinElapsed | ebpf/latency/runq_latency.c:50-111 | a task's counted wait never exceeds the time that has passed |
| RunqLatency.MeasuredFromLatestEnqueue | ebpf/latency/runq_latency.c:85-99 | while the maps have room the start map holds each queued task's latest enqueue, by wakeup or preemption |
| RunqLatency.MapsStayBounded | ebpf/latency/runq_latency.c:19-37 | in every reachable state the maps fit 16384 and 8192 entries |
| RunqLatency.FewNamesFit | ebpf/latency/runq_latency.c:19-37 | a schedule that names at most 16384 tasks and 8192 cgroups never finds a map full |
| RunqLatency.EntryIsOwed | ebpf/latency/runq_latency.c:50-114 | over every sequence of operations that finds room and whose clock never goes back, a cgroup's count and total are exactly the sums over its switch-ins of switch time minus the task's latest enqueue |
| KubePath.SearchIsLeftmost | collector/kube_path_parser.go:16-17 | the search finds the leftmost match, and none only when there is none |
| KubePath.SearchHexRun | collector/kube_path_parser.go:18 | the leftmost run of 64 hexadecimal digits, if any |
| KubePath.UidIsCanonical | collector/kube_path_parser.go:34-38 | the UID is empty exactly when the path holds no pod segment, and otherwise a canonical 8-4-4-4-12 lower-case form |
| KubePath.GroupsMakeUid | collector/kube_path_parser.go:16 | any 8, 4, 4, 4 and 12 digits of 0-9 and a-f joined by dashes are a canonical UID |
| KubePath.UidHasGroups | collector/kube_path_parser.go:16 | every canonical UID is such groups joined by dashes |
| KubePath.EncodingsAgree | collector/kube_path_parser.go:34-38 | group by group, the dashed and the underscored directory of one pod both give the dashed UID |
| KubePath.ContainerIsLeftmost | collector/kube_path_parser.go:40-42 | the container id is the leftmost run of 64 digits, and empty exactly without one |
| KubePath.RuntimeByMarks | collector/kube_path_parser.go:28-32 | containerd wins over docker, and the third mark adds nothing |
| KubePath.KindByMarks | collector/cgroup_classifier.go:15-40 | each kind exactly by the marks in the path; classifier and parser agree on what is Kubernetes |
| KubePath.NoStraddle | collector/kube_path_parser.go:16-17 | no match crosses from a prefix into a pod segment |
| KubePath.DashedRoundTrip | collector/kube_path_parser.go:34-35 | the dashed encoding of every UID parses back to it after any prefix without a match, whatever follows |
| KubePath.UnderscoredRoundTrip | collector/kube_path_parser.go:36-37 | the underscored encoding of every UID parses back to it unless a dashed segment stands elsewhere |
| KubePath.DashedWins | collector/kube_path_parser.go:34-38 | a dashed segment wins over an earlier underscored one |
| Collector.BpfMap.DeleteAll | collector/main.go:176-178 | exactly the stale keys are gone |
| Collector.ScanBlock | collector/main.go:149-174 | after any number of visited entries, in any order: one row per resolvable key and the stale list of the others |
| Collector.ScanRunq | collector/main.go:181-206 | rows of the block scan completed, rows added for new keys, the rest listed as stale |
| Collector.SortRows | collector/main.go:212-216 | the rows of the map, each once, strictly ascending by id |
| Collector.ListingIsUnique | collector/main.go:212-216 | the result does not depend on the iteration order of the map |
| Collector.JoinedRow | collector/main.go:153-170 | every row of a read, field by field: path, kind and pod of its id, both entries or zeros, and the floor of latency over count as average |
| Collector.ReadStats | collector/main.go:142-218 | on success the sorted full outer join over resolvable ids with absent sides zero, both maps keeping exactly their resolvable keys, and hadUnknown iff some key was dropped; what each failed iteration leaves untouched |
| CollectorLoop.Loop.Tick | collector/main.go:103-139 | one tick: the resolver is built only when there is none and dropped after an unknown id; the exporter gets the join exactly when the read succeeds; the maps afterwards |
| CollectorLoop.KnownAfterwards | collector/main.go:104-132 | after a read met a cgroup as unknown, every resolver cached later knows it if every one built since does; earlier builds are free |
| CollectorLoop.StaleAtMostOnce | collector/main.go:98-140 | on every run, failed builds and reads included, of any two reads between which every rebuilt resolver knows a cgroup at most one takes it for stale |
| Aggregation.AggregateIsSum | collector/prom_metrics.go:91-109 | each counter of a pod's aggregate is the sum over its rows modulo 2^64 |
| Aggregation.SumIgnoresOrder | collector/prom_metrics.go:91-109 | any permutation of the rows gives the same sums |
| Aggregation.CountersIgnoreOrder | collector/prom_metrics.go:91-109 | any permutation of the rows gives the same six counters |
| Aggregation.PodsConserveRows | collector/prom_metrics.go:86-109 | for each field the sum over the pods is the sum over the rows |
| Aggregation.AverageIsFloor | collector/prom_metrics.go:104-106 | a pod with I/O has the floor of its total latency over its count as average |
| Aggregation.AverageIgnoresOrder | collector/prom_metrics.go:104-106 | the average does not depend on row order unless the pod's count wraps to zero |
| Aggregation.OrderFreeIff | collector/prom_metrics.go:91-109 | where rows without I/O carry no latency, every row order gives the same average if and only if the count does not wrap to zero or each row with I/O would leave the same quotient |
| Aggregation.PodAverageWithin | collector/prom_metrics.go:97-107 | a pod's average lies between the smallest and largest average of its cgroups with I/O |
| Aggregation.WrappedAverageDependsOnOrder | collector/prom_metrics.go:104-106 | two rows whose order decides the average |
| Exporter.ParseKey | collector/prom_metrics.go:149-159 | the scan splits at the first bar, and gives empty labels without one |
| Exporter.KeyRoundTrip | collector/prom_metrics.go:96-159 | decoding undoes encoding if and only if the kind holds no bar, for any pod UID |
| Exporter.LabelsRoundTrip | collector/prom_metrics.go:149-159 | encoding undoes decoding on every key with a bar, so the encoding is injective on bar-free kinds |
| Exporter.AggregateRows | collector/prom_metrics.go:88-109 | the loop yields one entry per label pair of the rows, under its key, holding that pair's aggregate |
| Exporter.PromMetrics.constructor | collector/prom_metrics.go:44-80 | a new exporter is the one of the empty run |
| Exporter.PromMetrics.Export | collector/prom_metrics.go:111-122 | all seven vectors after the deltas of every current pod, in any order |
| Exporter.PromMetrics.DropStale | collector/prom_metrics.go:124-138 | exactly the series and memory of the pods that are gone are deleted |
| Exporter.PromMetrics.Update | collector/prom_metrics.go:82-139 | after every Update of every run the seven vectors are the views of the batches so far, over exactly the label pairs of the current rows, and prev holds exactly their aggregates |
| Exporter.ViewStep | collector/prom_metrics.go:111-138 | exporting the current pods and dropping the stale ones is one step of the simple per-batch view |
| Exporter.AbsentStartsAtZero | collector/prom_metrics.go:113-137 | a pod that was absent starts from nothing |
| Exporter.Telescopes | collector/prom_metrics.go:111-147 | throughout a series' unbroken life each counter is the latest aggregate plus the aggregates held just before each reset |
| Exporter.GaugeIsAverage | collector/prom_metrics.go:104-120 | the gauge of a present pod is the floor of its rows' exact latency over their exact count in the last cycle, or zero without I/O, whatever it showed before |
| Exporter.CountersByName | collector/prom_metrics.go:97-119 | each of the six counters carries the kernel word it is named after, summed over the pod's rows |
| Exporter.EveryMetricOnce | collector/prom_metrics.go:44-80 | each metric has exactly one vector |
| Exporter.ExactIffNoReset | collector/prom_metrics.go:141-147 | a counter equals the aggregate if and only if no reset has happened in its life |
| Exporter.NeverDecreases | collector/prom_metrics.go:111-122 | a counter never decreases while its pod stays present |
| Pipeline.IdsMakeThePod | collector/prom_metrics.go:86-109 | summing by cgroup and then by pod is summing by pod, over every trace |
| Pipeline.TickCarries | collector/main.go:142-218 | the rows of a good tick carry exactly what the kernel trace owes each pod |
| Pipeline.LevelIsReading | collector/prom_metrics.go:91-109 | the exporter's latest aggregate is the pod's exact total at the last tick |
| Pipeline.NeverResets | collector/prom_metrics.go:141-147 | no good tick looks like a reset |
| Pipeline.EndToEnd | collector/prom_metrics.go:82-122 | for every interleaving of kernel events and good ticks, each exported I/O count, byte, latency and error counter is the exact sum over the pod's counted completions up to the last tick |
| EvictAndTaint.PruneInPlace | operator/pkg/action/evict_and_taint.go:55-69 | the loop that reads and writes one array computes the filter of the original list, and whether an own taint is left |
| EvictAndTaint.Append | operator/pkg/action/evict_and_taint.go:78 | the kept prefix followed by the new taint, in place or in a new array |
| EvictAndTaint.EqualTaints | operator/pkg/action/evict_and_taint.go:104-114 | true exactly when the lists agree position by position in key, value and effect |
| EvictAndTaint.ComputeTaints | operator/pkg/action/evict_and_taint.go:55-80 | the list a call computes |
| EvictAndTaint.Execute | operator/pkg/action/evict_and_taint.go:35-102 | nodes and evictions after each outcome; a pod is evicted only with its node tainted; when no call fails, a scheduled pod on a known node is evicted |
| EvictAndTaint.PruneKeeps | operator/pkg/action/evict_and_taint.go:55-69 | pruning keeps foreign taints in order and leaves no expired one |
| EvictAndTaint.PruneRemoves | operator/pkg/action/evict_and_taint.go:59-64 | pruning removes exactly the taints of the key whose known time lies at least the duration back, and keeps each other one as often as it was there |
| EvictAndTaint.ComputedIsSound | operator/pkg/action/evict_and_taint.go:55-80 | the computed list keeps foreign taints in order, holds an own taint, and none that was expired on entry |
| EvictAndTaint.StoredIsSound | operator/pkg/action/evict_and_taint.go:82-86 | after a successful call the node's list agrees with the computed one position by position but for times, is tainted and keeps its foreign taints |
| EvictAndTaint.ExpiredTaintStaysIff | operator/pkg/action/evict_and_taint.go:104-114 | for every duration, an expired taint is on the node after a call if and only if the only own taint was last, expired and fresh-looking, or one that expires at once was added |
| EvictAndTaint.StaleStays | operator/pkg/action/evict_and_taint.go:82-86 | such a list is left exactly as it is |
| EvictAndTaint.NeverRefreshed | operator/pkg/action/evict_and_taint.go:82-86 | no number of later calls refreshes it |
| EvictAndTaint.StaleExample | operator/pkg/action/evict_and_taint.go:104-114 | one concrete taint an hour past its minute |
| ScaleUp.RaisesIff | operator/pkg/action/scale_up.go:69-76 | a new limit lies above the current one and within the maximum if and only if the sum fits an int64, even if the product wrapped; otherwise it is negative |
| ScaleUp.RaiseFails | operator/pkg/action/scale_up.go:69-76 | one input whose step lands at the bottom of the int64 range |
| ScaleUp.SaneClimbs | operator/pkg/action/scale_up.go:69-76 | below 2^63 less the largest step no ladder overflows, whatever the percentage |
| ScaleUp.NothingWraps | operator/pkg/action/scale_up.go:69-73 | up to 2^32 millicores no int64 intermediate overflows for any int32 percentage |
| ScaleUp.NothingWrapsIff | operator/pkg/action/scale_up.go:69-73 | for a positive percentage neither product nor sum wraps below the maximum if and only if neither does just below it |
| ScaleUp.SmallIsExact | operator/pkg/action/scale_up.go:69-73 | that holds up to 2^32 millicores |
| ScaleUp.NewLimit | operator/pkg/action/scale_up.go:69-76 | the new limit is the old plus its percentage, ten millicores at least, or the maximum if that is less |
| ScaleUp.ScaledContainer | operator/pkg/action/scale_up.go:55-82 | a call on each container in plain arithmetic: the limit, or else the request, grows so; one at the maximum or without CPU values stays as it is |
| ScaleUp.CallsWithinGap | operator/pkg/action/scale_up.go:64-76 | if no step overflows and every step gains at least s, the maximum is reached within the ceiling of the gap over s |
| ScaleUp.CallsWithinTenths | operator/pkg/action/scale_up.go:70-72 | for any percentage, if no step overflows, at most one call per ten millicores of gap |
| ScaleUp.CallsWithinFirstStep | operator/pkg/action/scale_up.go:64-76 | for a positive percentage, if nothing wraps, at most the ceiling of the gap over the first step |
| ScaleUp.CallsAreLogarithmic | operator/pkg/action/scale_up.go:64-76 | from 100 percent on, if nothing wraps, n calls mean current * 2^(n-1) < max |
| ScaleUp.ScaleContainers | operator/pkg/action/scale_up.go:44-88 | the loop rewrites exactly the limits of the containers below the maximum, and both flags say that there was one |
| ScaleUp.ScaledIsSafe | operator/pkg/action/scale_up.go:51-83 | a call changes only the CPU limit, never drops it, keeps it covering the request and leaves a container without CPU values alone, if and only if the sum fits an int64 |
| ScaleUp.TimesIsSafe | operator/pkg/action/scale_up.go:51-83 | over any number of calls a container whose ladder does not overflow changes safely |
| ScaleUp.AlwaysSafeIff | operator/pkg/action/scale_up.go:51-83 | every run of calls changes a container safely if and only if no step of its ladder overflows |
| ScaleUp.FallbackExactlyWhenDone | operator/pkg/action/scale_up.go:90-105 | after n successful calls some container is below the maximum if and only if n is less than what the slowest container needs |
| ScaleUp.FallbackWithinGap | operator/pkg/action/scale_up.go:64-105 | the fallback is reached within a tenth of the widest gap, over any number of containers |
| ScaleUp.RunIsSafe | operator/pkg/action/scale_up.go:48-88 | after any number of calls every container of a pod whose ladder does not overflow has changed safely |
| ScaleUp.GapDropsIff | operator/pkg/action/scale_up.go:64-83 | a container's headroom drops in a call if and only if the sum of its step fits an int64 |
| ScaleUp.HeadroomDrops | operator/pkg/action/scale_up.go:48-88 | every successful resize whose steps fit strictly lowers the pod's total headroom |
| ScaleUp.Execute | operator/pkg/action/scale_up.go:30-109 | the store after each outcome: a resize only with headroom, the fallback only without, the last exit unreachable; when no call fails, which of them is taken |
| MigrateStorage.NewNamesDiffer | operator/pkg/action/migrate_storage.go:98 | claims named in one run with different indices have different names, whatever the old names |
| MigrateStorage.DecimalRoundTrip | operator/pkg/action/migrate_storage.go:98 | a written index reads back as itself |
| MigrateStorage.RepointedApart | operator/pkg/action/migrate_storage.go:78-119 | no two volumes of a run are repointed to one claim |
| MigrateStorage.ScanModes | operator/pkg/action/migrate_storage.go:168-177 | the two flags of the access-mode loop, mode by mode |
| MigrateStorage.MountsReadOnly | operator/pkg/action/migrate_storage.go:184-197 | true exactly when some main container mounts the volume and all that do mount it read-only |
| MigrateStorage.PvcUsedReadOnly | operator/pkg/action/migrate_storage.go:166-198 | true exactly when the claim is ReadOnlyMany without a writable mode, or is mounted only read-only |
| MigrateStorage.FindOwner | operator/pkg/action/migrate_storage.go:131-137 | the first owner of a kind, found exactly when there is one |
| MigrateStorage.DeploymentIsOwner | operator/pkg/action/migrate_storage.go:130-152 | a pod's Deployment is the first Deployment that owns the first ReplicaSet that owns the pod |
| MigrateStorage.FindDeployment | operator/pkg/action/migrate_storage.go:43-56 | the Deployment of a pod through its ReplicaSet |
| MigrateStorage.MoveClaim | operator/pkg/action/migrate_storage.go:79-117 | a claim is kept on the target class, refused when writable, or copied, access modes and size included, into the target class under its new name; when no call fails, it fails exactly when it is not movable |
| MigrateStorage.StillMovable | operator/pkg/action/migrate_storage.go:78-120 | copies made earlier in a run never stand in the way of a later volume |
| MigrateStorage.MoveVolumes | operator/pkg/action/migrate_storage.go:75-120 | on failure only copies were added; on success every claim-backed volume is on the target class, repointed only if used read-only, and all others are untouched; a Deployment on target costs nothing |
| MigrateStorage.Execute | operator/pkg/action/migrate_storage.go:27-128 | on every exit old claims are unaltered, only copies are added, and the Deployments are unchanged or one has exactly its volumes settled; when no call fails and every claim is movable, it succeeds |
| Controller.BuildAction | operator/internal/controller/ioremediationpolicy_controller.go:107-133 | which action each name selects and what it carries; configured targets, positive steps and limits are used, and the defaults otherwise; a ScaleUp always has a positive step and an eviction to fall back on; any other name is refused |
| Controller.Execute | operator/internal/controller/ioremediationpolicy_controller.go:87 | each action's effect on the whole store |
| Controller.RemediatePods | operator/internal/controller/ioremediationpolicy_controller.go:84-91 | the loop is a chain of actions, one per pod in order, and counts the failed ones |
| Controller.Reconcile | operator/internal/controller/ioremediationpolicy_controller.go:69-105 | which condition is set: Remediating exactly when there are pods and all actions succeeded; a failed evaluation, an invalid action or no pods change nothing |
| Controller.FallbackIsWired | operator/internal/controller/ioremediationpolicy_controller.go:117-129 | under a built action no call ends for want of a fallback or without a decision |
| RemediationRuns.CopiesCompose | operator/pkg/action/migrate_storage.go:79-117 | copies added by successive migrations are all copies of original claims |
| RemediationRuns.SuccessIsEffect | operator/internal/controller/ioremediationpolicy_controller.go:87-90 | an action counted as a success has evicted, resized or moved what it should; one counted as failed has evicted no pod, resized none and repointed no volume |
| RemediationRuns.RunIsAllOrNothing | operator/pkg/action/migrate_storage.go:58-127 | over every run of migrations, failed ones included, original claims are untouched and every Deployment is as it was or wholly on target with its containers intact |
| RemediationRuns.MigrationIsIdempotent | operator/internal/controller/ioremediationpolicy_controller.go:84-91 | once a Deployment has been migrated, every later pod of it in the run leaves the whole store unchanged |
| RemediationRuns.RunTaints | operator/pkg/action/evict_and_taint.go:52-101 | over every run of evictions, direct or as fallback, foreign taints never change and every pod evicted stands on a tainted node to the end |
| RemediationRuns.RunScales | operator/pkg/action/scale_up.go:44-105 | over every run of scalings whose ladders do not overflow, pods change only by safe CPU limits and every pod evicted has no container below the maximum |
| RemediationRuns.LadderThenFallback | operator/pkg/action/scale_up.go:44-105 | of the calls on one pod, call k resizes if and only if k is less than what the slowest container needs; all later ones fall back |

## Left out

- The HTTP server, signals, terminal output and both `main` functions: input and output only.
- BuildCgroupResolver and CgroupIDFromPath: a file-system walk; a resolver is a given finite map.
- The PromQL query and its evaluation: the semantics of `rate` live in an external server; the list of saturated pods is a parameter.
- The Kubernetes client, caches, patch format and namespaces: a store of one namespace whose reads see earlier writes; a call succeeds at once or fails without effect. A parallel writer is not modelled.
- Parsing of quantities and durations: quantities are millicores, the parser of a CPU limit is a function parameter, times are nanoseconds. The second granularity of stored times and the saturation of time differences are not modelled.
- Float rounding of the exported counters: counters are unbounded naturals.
- Kernel updates that arrive while the collector iterates over a map, and failed deletions, which the collector ignores: a read sees one state and its deletions succeed.
- BlockInterleaving.ExecIsSerial: does not include deletions by the collector, which the tracer with atomic handlers does, and supposes that no map is full (FewNamesAreRoomy says when); memory recycled inside the kernel maps is abstracted as detached cells.
- The run-queue handlers are modelled as atomic steps only.
- Pipeline.EndToEnd: covers the four block I/O counters; the two run-queue counters follow the same path from a different map.
- Collector.SortRows: inserts in place of the library sort; only its result is specified by the source.
- Exporter.PromMetrics.Update: the seven vectors are a sequence of seven maps in registration order; the mutex is left out.
- EvictAndTaint.Append: an array without spare capacity beyond its length.
- ScaleUp.FallbackExactlyWhenDone: supposes that no step of a ladder overflows an int64; what a pod whose limit has wrapped to a negative value does afterwards is not followed.
- ScaleUp.AlwaysSafeIff: supposes that the container starts with a non-negative CPU value, as the API demands.
- `ClassifyCgroupPath`, `taintDuration`, `requeueFromSpec` and `setCondition`: settled by reading a branch or two; the first has one theorem, KindByMarks.
- Generated code, manifests, shell scripts and dashboards.
