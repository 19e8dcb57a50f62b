# The pumpkinPie control plane: model and proofs

pumpkinPie runs containers on many machines. A master keeps four tables (`nodes`, `containers`,
`gpu_alloc`, `port_alloc`), hands out GPUs and external ports, and sends create, start and stop
commands to agents; agents answer, and report what Docker does on its own. This project models the
code that moves those tables and the agent loops that feed them, and proves what it keeps.

`dafny verify dfyconfig.toml` checks everything.

| file | what it models |
|---|---|
| `Tables.dfy` | the four tables as values, with the effect of every store operation |
| `Store.dfy` | the store's methods, with their loops and rollback, against `Tables` |
| `Scheduler.dfy` | node selection, and admission against allocation |
| `ControlPlane.dfy` | the master as a machine: each handler is a task that advances one store operation, proxy operation or send at a time, and any number of them interleave |
| `GpuSafety.dfy` | GPU exclusivity over every interleaving |
| `Conservation.dfy` | reservation counts and port bounds over every interleaving |
| `Lifecycle.dfy` | whole starts, stops and disconnect sweeps, with their failures |
| `Creation.dfy` | a whole create, for every way it can end |
| `Ports.dfy` | port ownership and proxy routes over serial runs with restarts |
| `Master.dfy` | the handlers and the proxy as imperative code, against the same outcomes |
| `EventSync.dfy` | the resumable event stream |
| `PollSync.dfy` | the poll loop with its diff cache |
| `FailureWindow.dfy` | the window of event-stream failures, compacted in place |
| `History.dfy` | the create form's most-recently-used list |
| `Partitions.dfy`, `Names.dfy`, `Text.dfy` | the partition filter, the container names, and the string operations they use |

## How it fits together

A store method holds the lock for its whole body, so it is one atomic step; `Store.dfy` proves that
the loops inside (reading the cursor, picking, inserting row by row with rollback) compute that step.
`ControlPlane.Step` strings those steps into handlers. What a handler read earlier it keeps in its
task, so a step may act on stale rows, as it may in the program. `ControlPlane.Run` interleaves
requests, acknowledgements, sweeps, node reports and restarts in any order; `ControlPlane.Finish`
runs one task alone. That is one of the interleavings: `Lifecycle.FinishIsRun` shows it for starts,
stops, deletes and messages, `Lifecycle.FinishCreateIsRun` for creates, and `Ports.ServeAllIsRun` for
whole serial runs.
What a whole request leaves is stated twice over: by the functions that describe it, which the other proofs use,
and field by field with the literal states, actions and columns (`Creation.Leaves`, `Lifecycle.HasStarted`,
`HasStopped`, `HasDeleted`, `Settled`, `EventSync.Follows`, `PollSync.RowFollows`), which no shared function
can hide a change from. `Master.dfy` holds the same handlers as methods over a store and a proxy, for the case that nothing
else runs meanwhile; what those methods require of the tables is part of the invariant that every
interleaving keeps. What the program cannot decide (which listed node is picked among those the
scheduler may pick, whether an agent is connected, whether a send or a listen succeeds, the order of a
listing) is an input of each step, so every result holds for all of them.

## Where the code and its comments part

The model follows the code.

- The comment at internal/master/api/api.go:420-421 says that any failure from the GPU reservation on is
  cleaned up. A failing reservation returns before the cleanup is deferred (internal/master/api/api.go:436-443, 460):
  row and port stay. Run alone, this happens exactly when a pinned index is held (`Creation.VerdictIff`; an unpinned
  reservation never fails, `Creation.UnpinnedSucceeds`); `Creation.FailedCreateRestores` says exactly when a create
  restores the tables, and `Creation.HeldPinLeavesRow` shows tables where it does not.
- The comments at internal/agent/agent.go:299-301, 359-361 say an event whose send failed is replayed on the next
  reconnect. The position is a local of the loop, and the failure ends the loop, so the next stream starts
  live: `EventSync.ResumeCoversPending`. The event can still arrive exactly when Docker has recorded nothing of a later
  second: `EventSync.LostEventReturnsIff`.
- A container that the poll first sees as exited and that then disappears is dropped from the cache without
  a message, so its GPUs stay reserved. `PollSync.PollRefinesFullSync` states the releases exactly.
- A port chosen by the caller never enters `port_alloc`, yet is freed there: `Ports.CreateKeepsPortsIff`.
- Two deletes of one container that interleave can free the port of another: `Ports.InterleavedDeletesBreak`. A delete
  that read its row earlier is harmless exactly when the port is free by then or still its container's own:
  `Ports.LateDeleteIff`, `Ports.OverlappingDeleteIff`.
- The name comment at internal/master/api/util.go:68-69 says "trim to 64 chars". A text of 64 or more characters after
  folding that starts with `_` or `.` is cut to 64 and then gets an `x` in front: exactly those reach 65
  (`Names.LengthIff`, `Names.LeadingUnderscoreIsTooLong`).
- The example at internal/master/api/util.go:38 keeps the registry in the generated name. The code drops everything up
  to the last slash: `Names.AutoNameMeans`.

## Model

| member | source | states |
|---|---|---|
| GpuSafety.ExclusiveAlways | internal/master/api/api.go:260-519 | After any interleaving of any number of creates, starts, stops, deletes, acknowledgements, sweeps, reports and restarts: each container holds no GPU or exactly the list its create settled on, on its own node; its Create command carried that list; and two containers that both hold on one node were given disjoint devices |
| GpuSafety.StepKeeps | internal/master/api/api.go:641-766 | Every single step of every handler keeps the reservation invariant, and keeps what every other handler in flight relies on |
| GpuSafety.ApplyKeeps | internal/master/store/store.go:288-308 | A leftover update, release or delete of any handler keeps the invariant in any order, whatever that handler read before |
| GpuSafety.ReserveKeeps | internal/master/store/store.go:474-497 | A container whose own list is free holds nothing, and reserving that list keeps the invariant |
| GpuSafety.GpuStepReserves | internal/master/api/api.go:422-443 | A reservation that succeeds in a create is nonempty, free of duplicates, adds exactly its rows, and is the pinned list or the right number of indices below the reported count |
| Conservation.UsageIsConserved | internal/master/store/store.go:529-545 | In every reachable state a node's usage count is the sum of the GPUs held by that node's containers |
| Conservation.FreePlusUsedIsCount | internal/master/scheduler/scheduler.go:79-85 | On runs where no reported GPU count falls, every reserved index is below it and free plus used is the count |
| Conservation.AfterReport | internal/master/store/store.go:201-213 | After any report, falling or not, every reserved index is below the new count exactly when what is free for the allocator and what is used make up the count; admission's free count does so exactly when no more indices lie beyond the count than are free below it |
| Conservation.ReportsMean | internal/master/store/store.go:157-213 | A report writes what the node reported, never brings it online and never creates it; a node that joins is online with what it last reported |
| Conservation.PortsNeverOverflow | internal/master/store/store.go:378-420 | Over every interleaving only ports of 30000-32767 are ever live, never more than there are, and an allocation fails exactly when all are |
| Stores.Store.AllocGPUs | internal/master/store/store.go:429-469 | Grants exactly the asked number of indices, ascending, free, below the total, with no smaller free one skipped, and adds exactly those rows; reports insufficiency exactly when fewer are free; changes nothing on any failure; the unique violation is unreachable |
| Stores.Store.AllocSpecificGPUs | internal/master/store/store.go:474-497 | With node and container rows there, succeeds exactly when the list has no duplicate and no index is held, and adds exactly those rows; otherwise the table is unchanged |
| Stores.Store.InsertAll | internal/master/store/store.go:486-496 | Inserting row by row up to the first failure commits all rows or none, and reports the failure the atomic step reports |
| Stores.Store.ReadUsedIndices | internal/master/store/store.go:580-595 | The scan yields exactly the reserved indices of the node |
| Stores.Store.PickLowest | internal/master/store/store.go:445-450 | The picking loop yields the lowest free indices below the total, at most the number asked for |
| Stores.Store.AllocPort | internal/master/store/store.go:378-413 | The least free port of the range is recorded for the container, and it fails exactly when every port of the range is live, changing nothing |
| Stores.Store.FreeGPUs | internal/master/store/store.go:501-506 | Exactly the container's reservations go |
| Stores.Store.DeleteContainer | internal/master/store/store.go:303-308 | The row goes and the foreign key takes the container's reservations with it |
| Stores.Store.InsertContainer | internal/master/store/store.go:269-286 | The row is added, or the primary or foreign key refuses it and nothing changes |
| Stores.Store.UpdateContainerState | internal/master/store/store.go:288-295 | State and status of a known row are written, its docker id only by a nonempty one; every other row, and an unknown id, changes nothing |
| Tables.FreeGpus | internal/master/store/store.go:501-506 | The container holds nothing afterwards and every other container holds what it held |
| Tables.LeastFree | internal/master/store/store.go:398-411 | The port found is free and every smaller port of the range is taken; none is found only when all are taken |
| Tables.FirstFreeIsLowest | internal/master/store/store.go:445-450 | The indices picked are strictly ascending, free and in range, skip no smaller free index, and stop short only when no more are free |
| Tables.FirstFreeCount | internal/master/store/store.go:451-453 | The picker finds k indices exactly when at least k are free |
| Tables.UsageCountsIndices | internal/master/store/store.go:529-545 | COUNT(*) over a node's rows is the number of distinct indices reserved on it |
| Scheduler.Select | internal/master/scheduler/scheduler.go:25-70 | Returns the earliest listed node of least score among those that are online and have the GPUs, cores and memory asked for, fails exactly when there is none, and counts the survivors of each filter |
| Scheduler.SurvivesIff | internal/master/scheduler/scheduler.go:38-58 | What each of the four counters counts, in terms of the node's state, free GPUs, cores and memory |
| Scheduler.BestIsLeastBusy | internal/master/scheduler/scheduler.go:60-65 | No listed node that serves the request is at most as busy as the chosen one in CPU, memory, GPU usage and GPU memory and less in one of them; among equals the earliest is chosen |
| Scheduler.Tradeoff | internal/master/scheduler/scheduler.go:120-132 | Between two nodes, the later listed one is chosen exactly when four times its CPU points, three times its memory points, twice its GPU usage points and its GPU memory points add up to less; an unreported total counts as nothing used |
| Scheduler.Exchange | internal/master/scheduler/scheduler.go:131 | A point of CPU is balanced by exactly 4/3 points of memory, two of GPU usage, or four of GPU memory |
| Scheduler.Consider | internal/master/scheduler/scheduler.go:41-61 | One iteration's filters admit exactly the nodes that serve the request and bump exactly the counters of the filters passed |
| Scheduler.StatsDescend | internal/master/scheduler/scheduler.go:87-106 | The four counters never increase along the chain, and the last is zero exactly when no node is admitted |
| Scheduler.AdmissionImpliesAllocation | internal/master/scheduler/scheduler.go:47-50 | A node admitted for k GPUs has k for the allocator to pick from the same table, even with reservations at or above the reported count |
| Scheduler.AllocationIsExact | internal/master/store/store.go:441-453 | The allocator succeeds exactly when k indices below the total are free, otherwise reports insufficiency, and adds exactly k rows |
| Scheduler.AdmissionExactCondition | internal/master/scheduler/scheduler.go:79-85 | Admission's free count is the allocator's exactly when no reservation lies at or above the reported count or nothing is free anyway |
| Scheduler.AdmissionIsExact | internal/master/scheduler/scheduler.go:47-50 | With no such reservation, allocation succeeds exactly when the free count is at least k |
| Scheduler.AdmissionIsConservative | internal/master/scheduler/scheduler.go:79-85 | A node that admission rejects and the allocator would serve, after its GPU count fell |
| Lifecycle.FinishIsRun | internal/master/api/api.go:616-766 | A start, stop, delete, message or disconnect run alone is one interleaving: its own steps back to back, leaving no other task touched |
| Lifecycle.FinishCreateIsRun | internal/master/api/api.go:260-519 | A create run alone is one interleaving: its own steps back to back |
| Lifecycle.StartOutcome | internal/master/api/api.go:641-717 | A start that is sent reserves exactly the persisted list, shows "starting", and routes its port and binds it when the listen succeeds; one that is not (unknown container, node offline, list not free, send failed) leaves everything as it was |
| Lifecycle.StopOutcome | internal/master/api/api.go:724-766 | A stop that is sent shows "stopping" and releases every GPU, the route and the listener at dispatch; one that is not leaves everything as it was |
| Lifecycle.StopThenStart | internal/master/api/api.go:641-750 | After a stop and any interleaving of anything that leaves the container's row, a start reserves exactly the original indices if none is held, and otherwise changes nothing |
| Lifecycle.SweepOutcome | internal/master/agentmgr/manager.go:219-262 | A disconnect run alone leaves the same tables whatever order the containers are listed in |
| Lifecycle.SweepSettles | internal/master/agentmgr/manager.go:219-262 | After a disconnect the node is offline and no row of it is "starting" or "stopping"; each that was is in "error" with the status, otherwise as before, and holds nothing; every other node, row, reservation, route and listener is unchanged; a second sweep changes nothing |
| Creation.CreateLeaves | internal/master/api/api.go:260-519 | For every create: exactly which row, reservations, port, route, listener and command it leaves, field by field, for each way it can end |
| Creation.CreateOutcome | internal/master/api/api.go:260-519 | The outcome that goes with the verdict of a create |
| Creation.AdmittedIff | internal/master/api/api.go:273-382 | The handler's checks amount to: the pins are consistent and in range, the pinned node has the GPUs or the picked one serves the request, the agent is connected, and a port is at hand |
| Creation.VerdictIff | internal/master/api/api.go:260-519 | How a create run alone ends, from the request and the tables: rejected exactly when not admitted, failing at the GPU reservation exactly when a pinned index is held, otherwise handed off or rolled back as the send goes |
| Creation.UnpinnedSucceeds | internal/master/api/api.go:302-322 | What admission counted as free the allocator finds, so an unpinned reservation of a create run alone never fails |
| Creation.FailedCreateRestores | internal/master/api/api.go:411-473 | A create leaves the tables as they were exactly when it is not admitted, or it is cleaned up and frees no port another container owns; a held pinned index fails before the cleanup is armed |
| Creation.HeldPinLeavesRow | internal/master/api/api.go:436-443 | With one GPU, held, pinning it for another container leaves that container's row and port behind |
| Ports.SerialPorts | internal/master/api/api.go:373-481 | Over every serial run with auto-allocated ports and restarts, `port_alloc` is a bijection with the containers that have a port, and every route that names a live container is on that container's own port and leads to its node, even after failed sends |
| Ports.SerialListeners | internal/master/proxy/proxy.go:84-217 | Over every serial run, with ports chosen by callers or not, whatever listens has a route |
| Ports.StopStartRebindsIff | internal/master/api/api.go:698-748 | After a stop and a start that are both sent, with the listen succeeding, the port listens and is routed exactly when no other container holds one of the container's GPUs |
| Ports.CreateKeepsPortsIff | internal/master/api/api.go:373-414 | One create keeps that invariant exactly when its port is auto-allocated, or it is not admitted, or its send fails with every pinned index free and the chosen port belongs to nobody |
| Ports.ServeAllIsRun | internal/master/api/api.go:260-766 | Every serial run is one of the interleavings, so what holds of all interleavings holds of it |
| Ports.DeleteOutcome | internal/master/api/api.go:616-634 | A delete that is sent removes row, reservations, port, route and listener; one that is not changes nothing |
| Ports.StartKeepsPorts | internal/master/api/api.go:698-714 | A start, whatever becomes of it, keeps the port and route invariant |
| Ports.StopKeepsPorts | internal/master/api/api.go:724-750 | A stop, whatever becomes of it, keeps the port and route invariant |
| Ports.MessageKeeps | internal/master/agentmgr/manager.go:415-495 | Acknowledgements, observed changes and disconnects keep the port and route invariant |
| Ports.RestartRoutes | internal/cmd/master/master.go:121-144 | A restart leaves exactly one route for each owner of a port with a mapping, also stopped ones, to its node and first host port, and listens on exactly those the host allows, in whatever order the rows are listed |
| Ports.ReboundIsExact | internal/cmd/master/master.go:126-142 | After any part of the listing, the rebuilt routes are exactly those of the listed owners |
| Ports.LateDeleteIff | internal/master/api/api.go:616-634 | A delete that read its row earlier keeps the invariant, in any world, exactly when by its send the port is free or still its container's own |
| Ports.OverlappingDeleteIff | internal/master/api/api.go:616-634 | The same with any serial run of other requests between the read and the send of a delete |
| Ports.InterleavedDeletesBreak | internal/master/api/api.go:616-634 | Two deletes of one container, with a create in between that reuses its port, break the invariant: the new container loses its row in `port_alloc` |
| Masters.Proxy.RegisterRoute | internal/master/proxy/proxy.go:194-203 | The port's route is replaced and no other |
| Masters.Proxy.BindPort | internal/master/proxy/proxy.go:84-111 | A bound port is refused and left bound; otherwise the listener is recorded exactly when the listen succeeds |
| Masters.Proxy.UnregisterRoute | internal/master/proxy/proxy.go:207-217 | Route and listener of the port go and no others |
| Masters.Master.Validate | internal/master/api/api.go:273-291 | The seen-set loop rejects exactly a pinned list with a duplicate, without a node, or at odds with the count, and derives the count |
| Masters.Master.PickNode | internal/master/api/api.go:293-335 | The pinned node after its checks, or the node a selection over all nodes settles on; without a pin it fails only when no node serves the request |
| Masters.Master.CreateContainer | internal/master/api/api.go:260-519 | The handler leaves exactly what a create leaves, field by field, for every way it can end, on the node the selection settles on |
| Masters.Master.CleanUp | internal/master/api/api.go:455-473 | The deferred cleanup removes row, reservations and port; with the row already gone, the reservations it took and the port |
| Masters.Master.StartContainer | internal/master/api/api.go:641-717 | The handler reserves the persisted list, shows "starting", sends, routes and binds, or rolls back to the state before |
| Masters.Master.StopContainer | internal/master/api/api.go:724-766 | The handler shows "stopping", sends, unroutes, unbinds and releases, or rolls back to the state before |
| Masters.Master.DeleteContainer | internal/master/api/api.go:616-634 | The handler sends, then unroutes, frees and deletes, or changes nothing |
| Masters.Master.HandleContainerCreated | internal/master/agentmgr/manager.go:415-454 | An acknowledged create or start is running and keeps its GPUs; a refused one is in error and holds none |
| Masters.Master.HandleContainerStopped | internal/master/agentmgr/manager.go:432-439 | The row shows "exited", or "error" with the message; no reservation is touched |
| Masters.Master.HandleContainerStateChanged | internal/master/agentmgr/manager.go:479-495 | An observed change of a known container is written, and releases its GPUs exactly on die, stop, kill and destroy |
| Masters.Master.HandleDisconnect | internal/master/agentmgr/manager.go:219-262 | The sweep loop leaves the node offline, its starting and stopping rows in "error" and holding nothing, and everything else unchanged |
| Masters.Master.RebindExistingProxyRoutes | internal/cmd/master/master.go:121-144 | The loop leaves a route for each row with a port and a mapping, to its node and first host port, no other, and a listener for each where the host allows |
| EventSync.EventsConverge | internal/agent/agent.go:308-375 | After any breaks and resumes with successful sends: no managed event since the first delivered one is skipped, and whenever the stream has read as far as any before it, every row shows what the log says once over, despite replays: state and status of its last event in docker's words, its last docker id, its GPUs released by any terminal event |
| EventSync.EffectMeans | internal/agent/agent.go:546-567 | What each docker action makes the row show, and which actions release GPUs |
| EventSync.GoKeeps | internal/agent/docker/client.go:283-301 | Every record, subscription, delivery, break and failed send keeps the convergence invariant |
| EventSync.ResumeCoversPending | internal/agent/agent.go:354-366 | After a break the next stream covers the pending event exactly when one was delivered before; after a failed send it starts past every event recorded so far |
| EventSync.LostEventReturnsIff | internal/agent/agent.go:354-366 | An event whose send failed can still be delivered by some later run exactly when it has a time and nothing of a later second is recorded yet |
| EventSync.StreamIsNext | internal/agent/agent.go:338-366 | k deliveries of the machine leave the cells and the resume position that the loop leaves after the first k events of the stream, and send every managed one |
| EventSync.EventsLoop.Consume | internal/agent/agent.go:338-366 | One stream's loop leaves each known row at its last event of those read, stops only at the end or at an event it could not send, and keeps the time of the last dated one sent |
| PollSync.PollRefinesFullSync | internal/agent/agent.go:438-529 | For every sequence of listings and every order of the map, the master's states and releases are those of a full synchronisation: listed and known is mapped, listed and unknown is kept, absent is exited, and released exactly when it vanishes while not exited |
| PollSync.PollShows | internal/agent/agent.go:574-595 | After any listings each row follows the last listing that says something about its docker id: docker's word as the master shows it, or exited when the id is gone; a word the master does not know changes nothing |
| PollSync.ReleasesAre | internal/agent/agent.go:490-528 | A container is released exactly when its docker id, once heard of, is missing from a listing while the row is not exited |
| PollSync.PollRefinesIff | internal/agent/agent.go:463-473 | The states agree for all listings exactly when no two docker ids carry one container id |
| PollSync.CachedIdsResolve | internal/agent/agent.go:504-511 | Every cached docker id has a reverse id, so the missing-id branch is unreachable |
| PollSync.PollLoop.Run | internal/agent/agent.go:438-529 | From an empty cache, with one docker id for each label, the loop leaves every row at what docker listed last, in docker's words |
| PollSync.PollLoop.PushListing | internal/agent/agent.go:452-493 | The listing loop sends exactly the changed states and collects exactly the listed ids |
| PollSync.PollLoop.DropGone | internal/agent/agent.go:490-528 | The cache loop, in any order, drops exactly the vanished ids and reports those not yet terminal |
| FailureWindow.Failures.Note | internal/agent/agent.go:381-395 | The compaction in place reads every entry before overwriting it and keeps each time inside the window as often as before and in order, and no other; the new failure is last; quiet flips at the threshold |
| FailureWindow.WindowIsExact | internal/agent/agent.go:381-395 | With a clock that never goes back, pruning at every failure keeps what pruning once at the last would |
| FailureWindow.WindowIsSuffix | internal/agent/agent.go:381-395 | The list is the failures after the last one that is too old |
| FailureWindow.QuietMeans | internal/agent/agent.go:392-394 | Between resets quiet is set exactly when, at some failure, a threshold's worth of failures in a row fell inside its window |
| History.ShownIsNewest | web/src/composables/useCreateHistory.ts:110-121 | Capping at every record loses nothing: the list is the first 20 of all records, newest first, deduplicated by fingerprint |
| History.ShownIsDistinct | web/src/composables/useCreateHistory.ts:110-129 | After any records, removals and clears fingerprints are distinct and the cap holds |
| History.RemoveKeepsTopIff | web/src/composables/useCreateHistory.ts:123-125 | A removal leaves the top of the unbounded list exactly when nothing was capped away or the entry is not shown |
| History.CreateHistory.Record | web/src/composables/useCreateHistory.ts:110-121 | The entry is put first, the one with its fingerprint goes, the rest keep their order, and at most 20 stay |
| History.CreateHistory.Remove | web/src/composables/useCreateHistory.ts:123-125 | The entry with that id goes, the others keep their order |
| Partitions.FilterPartitions | internal/agent/collector/collector.go:125-155 | The loops yield the reported entries: for each device the first of least mountpoint length, once, sorted by mountpoint, in any order of the map |
| Partitions.IsIgnoredMount | internal/agent/collector/collector.go:212-219 | The loop rejects exactly the ignored directories and what lies below them |
| Partitions.UnderMeans | internal/agent/collector/collector.go:212-219 | A path lies under a directory exactly when it is the directory or goes on from it with a slash |
| Partitions.BoundaryMatters | internal/agent/collector/collector.go:159-210 | "/boot/efi" and "/snap/core/1234" are ignored; "/snapshots" is not under "/snap" |
| Partitions.KeyMeans | internal/agent/collector/collector.go:139-143 | Two entries with devices are one disk exactly when the devices are the same, two without exactly when the mountpoints are |
| Partitions.OneForEachKey | internal/agent/collector/collector.go:134-147 | Every surviving entry is answered by exactly one reported entry of its device, with no longer a mountpoint |
| Partitions.OrderDoesNotMatterIff | internal/agent/collector/collector.go:148-154 | The answer is the same for every order of the map and every choice of the sort exactly when no two reported entries share a mountpoint |
| Partitions.FilterIsStable | internal/agent/collector/collector.go:125-155 | The filter drops nothing of its own answer, and the answer is an outcome of its second run |
| Partitions.FilterTwice | internal/agent/collector/collector.go:125-155 | Every second run reports the same entries, and the same list exactly when no two of them share a mountpoint |
| Partitions.BestAt | internal/agent/collector/collector.go:138-147 | The map's entry for a device is its first of least mountpoint length |
| Names.Sanitize | internal/master/api/util.go:70-100 | The rune loop with its dash flag computes the folded, trimmed, cut and prefixed name |
| Names.FoldedIsJoin | internal/master/api/util.go:75-88 | What the loop keeps is the text's words over [a-z0-9_.], with single dashes between them and none around |
| Names.SanitizedIsSafe | internal/master/api/util.go:70-100 | Every name is nonempty, over [a-z0-9_.-], starts with a letter or digit, and is at most 65 long |
| Names.NameCharacters | internal/master/api/util.go:70-100 | The same, letter by letter |
| Names.OneDashBetween | internal/master/api/util.go:75-98 | A character outside the alphabet between two words becomes one dash; a result over 64 is its first 57 characters, a dash and the digits; a head that is no letter or digit gets an x in front |
| Names.CaseIgnored | internal/master/api/util.go:71 | Case does not matter |
| Names.NothingLeft | internal/master/api/util.go:72-92 | A text with no usable character gives "pp-" and the digits |
| Names.AutoNameMeans | internal/master/api/util.go:45-58 | An image dir/name:tag gives pp-name-tag and the digits, whatever the registry and directory |
| Names.LengthIff | internal/master/api/util.go:93-98 | A name is at most 64 long exactly when its folded text is shorter than 64 or starts with neither `_` nor `.`; otherwise it is 65 long |
| Names.LeadingUnderscoreIsTooLong | internal/master/api/util.go:93-98 | An underscore, the letter a 63 times, and anything alphanumeric after them come out 65 long |
| Names.FixedPointIff | internal/master/api/util.go:89-98 | A second pass changes nothing exactly when the first neither lengthened the text to 65 nor cut it after a dash |
| Names.AutoNameIsFixedIff | internal/master/api/api.go:348-354 | Create's second pass leaves a generated name alone exactly when it is at most 64 long |

## Left out

- SQLite, its journal and its driver: the tables are maps with their keys, a locked method is atomic, and the only errors are insufficiency, the unique and the foreign keys.
- gRPC, HTTP, WebSocket and TCP: connections and listens appear only as inputs that succeed or fail; forwarding bytes is not modelled.
- Docker itself: the event stream with its replay rule and the container listing are inputs. Events are recorded in whole seconds, the resolution the replay works at, and may come without that time.
- The metrics sink, configuration, identity files, node listing endpoints and views: they move none of the modelled state.
- JSON columns: GPU indices and host ports are values; a column that does not decode does not occur.
- Columns that nothing modelled reads: name, image, environment, command, volumes, CPU and memory limits of a container, and all times such as updated_at. The requirement that an image is given is not modelled.
- Random ids: a create's id is one never handed out before; the digits in names are parameters.
- Floating-point rounding in the score: reals are used, so a NaN or infinite score does not occur.
- Machine integers: counts are unbounded, and free GPUs clip at zero as the source's subtraction does.
- Stores.Store.AllocPort: requires an end below the uint32 maximum, since the source's loop counter would wrap there and never leave the loop; its only caller passes 32767.
- The order of listings (newest first in the source): left open, so results hold for every order.
- Masters.Master.CreateContainer: covers one handler at a time; handlers that overlap are covered by the tasks of `ControlPlane`. The order of the commands sent to different agents is that of the outbox.
- Masters.Master.HandleDisconnect: the session table is not modelled; whether an agent is reachable is an input of each request.
- Ports.SerialPorts: routes and ports are claimed for one request at a time, because interleaved deletes break them.
- EventSync.EventsConverge: claims convergence for rows that only the event stream writes; the moves are the loop's while its sends succeed, and a failed send starts over. Retry delays are not modelled.
- PollSync.PollLoop.Run: ticks whose listing fails are skipped by the loop and so are not among the listings; a failed send ends the loop and is not modelled. The poll compares states only, so status text, which may be stale, is not modelled.
- History.CreateHistory.Record: fingerprints are given; that they ignore the order of list fields and the GPU mode is the caller's affair. Saving to the browser is not modelled.
- Partitions.FilterPartitions: `sort.Slice` is stood for by an insertion that meets the same order; results are stated for any outcome the order allows. Mountpoints are sequences of code points with their UTF-8 lengths; malformed UTF-8 is not modelled.
- Names.Sanitize: lower-casing is exact as far as an ASCII result is concerned; every other character becomes a dash whatever its case.
- Read-only endpoints, `portMappingsToProto`'s default host port and external URLs: they would add only easy members.
