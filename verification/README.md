# Verification of Argus

Argus is a telemetry system: an agent on each host, a hub with a Postgres store, and a web panel.
These Dafny modules model its delivery protocol, its incrementally kept metric view, its kernel flow
accounting, its alert engine, its log decoding and its statistics and query code, and prove what each
is meant to guarantee over all inputs, all runs and all interleavings.
`dafny verify dfyconfig.toml` checks everything.

## How the modules fit together

- `Wrappers`, `Text`, `Sorting`: options, byte-wise text order and decimal digits, sorting and order-free sums.
- `Delivery`: the agent, the requests in flight and the hub as one state machine. Any number of requests for
  the same or different batches may be travelling, executing or answered at once; a claim on an id that an open
  transaction holds waits, and proceeds or turns out a duplicate when that transaction ends. An answer that is
  never received is a lost response; a handler that returns without writing one is the same.
- `SpoolNames`, `SpoolDirectory`, `AgentSpool`: the disk spool, with a failure possible at every file-system call.
- `Retry`, `Network`, `AgentClient`: the retry loop, the replay and the send path as imperative code that drives
  the `Delivery` machine; every method's contract holds for every script of network, hub and disk behaviour.
- `IngestStore`: the claim-and-run transaction and the link upsert of the hub as one caller sees them.
- `Rfc3339`, `WorkloadLatest`, `OverlappingCommits`, `MetricStore`, `LockOrder`, `Deadlocks`: the timestamps as
  text, the view against the scan it replaced, overlapping transactions, the imperative store, transactions that
  keep a lock order and transactions that do not.
- `KernelFlow`, `KernelSample`: cumulative counters to increments, and flows to edges and metrics.
- `AlertEngine`, `Slo`, `FrameStream`, `LogLines`, `LogEvents`, `Traces`, `Stats`, `QueryBinding`: one component each.

## What does not hold, and exactly when it does

- The text order of RFC3339Nano stamps (fractions as section 5.6 of RFC 3339 allows, trailing zeros dropped) is
  not time order: a stamp whose fraction ends where the other goes on compares as the later one
  (section 5.1 of RFC 3339 asks for equal digits). `Rfc3339.StampOrder` says exactly when; with equally many
  fraction digits it never happens. A batch of two such points of one key leaves the view and the scan
  disagreeing (`WorkloadLatest.InversionMisleads`), unless a further point of the key hides both; a batch is
  answered alike by both exactly when its choice within the batch agrees with text order
  (`WorkloadLatest.FaithfulIsNecessary`).
- Batches whose transactions overlap may bring different points of a key with one stamp; the view keeps the one whose
  transaction came to the row last, a scan by id may find another. Without such a tie they agree, however many
  overlap and in whatever order; with one some interleaving does not (`OverlappingCommits.OverlapExactly`, and
  `OverlappingCommits.AnyOrderExactly` for rows in any order).
- The spool's sixteen-digit file names (internal/agent/buffer.go:81) order and list batches below sequence 10^16;
  the batch after the last number is written and never listed (`AgentSpool.LastNameLosesTheNext`).
- Topology batches upsert their rows in listing order, unlike metric batches. Any number of them can deadlock exactly
  when their link lists hold a ring (`Deadlocks.TopologyDeadlockExactly`); looking at two at a time is not enough
  (`Deadlocks.PairsAreNotEnough`), and ordered lists never deadlock (`Deadlocks.OrderedNeverDeadlock`). The purge of
  the view is one statement that locks rows as its scan meets them, so it can deadlock with a sorted metric batch
  (`Deadlocks.PurgeDeadlockExactly`).
- An edge count depends on flow order exactly when outbound flows and flows of an unknown direction byte mix
  (`KernelSample.OrderFreeExactly`). The kernel program writes no such byte.
- Metric labels depend on flow order exactly when two flows of one entity name different workloads
  (`KernelSample.LabelsForgetOrderExactly`); the entities and their values never do.
- An empty frame ends the reading of a log stream, and a stream that does not start with stdout or stderr is not
  unwrapped at all: everything comes back exactly when the stream is empty, or starts with one of the two and no
  payload follows an empty frame (`FrameStream.FullRecoveryExactly`, `FrameStream.OtherStreamsStayRaw`).
- Log lines of a container are kept only while they get later: a read loses none exactly when its times strictly
  ascend from after the last kept one (`LogEvents.NothingLostExactly`), so lines of one instant are kept once (`LogEvents.SameInstantLosesLines`)
  and lines that arrive out of order are lost.
- Increments are exact for complete readings with one entry per key. An IPv4 flow and its IPv4-mapped twin share a
  key, and then too much is reported exactly as `KernelFlow.TwinsOverReportExactly` says.
- An objective without a positive target can be breached and is never reported
  (`Slo.ConsideredWhenBreached`, `Slo.BreachedButNotConsidered`). The repository itself writes only two objectives,
  both with target 99.9 (internal/store/postgres/traces.go:445-453), so this takes a row inserted by hand.
- Erasing placeholder numbers restores a query exactly when no digit follows a mark or a dollar sign in it
  (`QueryBinding.BindRoundTripExactly`). All log queries meet that.
- The replay tries an item twice exactly when a refused item could not be removed and the loop went on
  (`AgentClient.TriedOnceExactly`). Every failed removal costs one more replay (`AgentClient.RefusedAgain`): the loop
  of the source has no end while the removal keeps failing. Here the script of disk failures is finite, so the
  modelled loop ends; the lemma is for every number of failures.

## Model

| member | source | states |
|---|---|---|
| Delivery.StepKeeps | internal/store/postgres/batch.go:22-54 | every event of agent, network or hub keeps the invariant: exact ledger, open transactions consistent with their executed statements, exclusive locks, honest answers, every batch accounted for |
| Delivery.ExactlyOnce | internal/store/postgres/batch.go:22-54 | over every run the stored rows are those of the distinct committed batches, each whole and once, in commit order, and nothing else |
| Delivery.LinkCountsAddUp | internal/store/postgres/patterns.go:184-209 | over every run each link count is the sum over distinct committed batches although the upsert adds on every execution |
| Delivery.AcknowledgedIsCommitted | internal/hub/server.go:340-354 | a success answer, duplicates included, and a nil result of post imply the id is committed |
| Delivery.NoSilentLoss | internal/agent/client.go:168-220 | at every reachable state each batch created is being sent, spooled, committed or dropped for a named reason; that each reason has its cause is in the contracts of `AgentClient.Client.SendBatch`, `Replay`, `Save` and `Restart` |
| Delivery.FollowUpsHappenOnce | internal/hub/server.go:356-377 | events are published, and log lines queued, at most once per batch id and only for committed ones |
| Delivery.CommitsAreFinal | internal/store/postgres/batch.go:50-53 | no event takes back a committed id, a stored row or a payload |
| Delivery.AbortLeavesNoTrace | internal/store/postgres/batch.go:34 | a rolled back attempt leaves tables and claims unchanged and frees its id and its rows |
| Delivery.LaterAttemptApplies | internal/store/postgres/batch.go:34-53 | from every reachable state a kept, uncommitted batch can still be committed, once and in full, its rows and its link counts, whatever is executing; its request is answered with success and its follow-ups take place |
| Delivery.QuietAttemptApplies | internal/store/postgres/batch.go:22-54 | an undisturbed attempt of an uncommitted batch, its begin, its statements and a reported commit, commits exactly its rows and its link counts, is answered below 300 and has its follow-ups |
| Delivery.DuplicateIsAcknowledged | internal/hub/server.go:349-352 | from every state with the invariant a committed batch delivered again is answered with success, changes nothing but that answer, and is then taken off the agent's books as acknowledged |
| Delivery.StatementEffects | internal/store/postgres/patterns.go:192-206 | what one statement adds to the tables: a row its text, a link its count to its own key and to no other |
| Delivery.StatementsAddUp | internal/store/postgres/patterns.go:199-206 | what a list of statements adds is what its parts add |
| Retry.BackoffIsBounded | internal/agent/retry.go:18-35 | each wait is within a quarter of the capped doubling from 250 ms to 8 s |
| Network.FinalErrorNeverRan | internal/agent/retry.go:61-70 | over every run, a request answered with an error that makes the agent give up was executing at no time: a hub that aborted, or could not report its commit, is asked again |
| Network.Net.PostOnce | internal/agent/client.go:232-257 | one request under the given id; where it stops, the result and the world are determined by what happened: it goes on until an answer to this request, an ended context, a broken connection or the end of the script, and the result is that first thing |
| Network.Net.Post | internal/agent/client.go:139-163 | at most five attempts, all under one id; fewer only after success, a final error or an ended context; the result has its cause in what happened, the first attempt is the one the happenings call for, and the books change only by the acknowledgement |
| Network.SuccessExactly | internal/agent/client.go:244-256 | an attempt succeeds iff the first thing that ends it is an answer to this request with a status below 300 |
| Network.QuietScriptSucceeds | internal/agent/client.go:232-257 | begin, every statement, a reported commit and the answer: such an attempt succeeds, whatever comes after |
| Network.Net.PostUndisturbed | internal/agent/client.go:139-163 | then post returns no error after one attempt, with the id committed and acknowledged |
| AgentClient.Client.Drain | internal/agent/client.go:188-220 | for every script of disk and network: the tries are those of the oldest remaining items in queue order, each verdict has its cause in what happened, the spool left is a suffix, everything taken off is acknowledged or dropped for a reason, a transiently failed head stops it after five attempts; unless the disk stops it, no item is tried twice iff every refused item could be removed |
| AgentClient.Client.ReplayAll | internal/agent/client.go:192-219 | the loop: each round tries the oldest item that has not left, its verdict is the one its request met, and only a round whose item left, or was refused and could not be removed, is followed by another |
| AgentClient.Client.Turn | internal/agent/client.go:192-218 | one turn: the unreadable items in front are skipped, the first readable one is posted under its id, and it leaves exactly when it was delivered or refused and could be removed |
| AgentClient.TriedInOrder | internal/agent/client.go:192-219 | while every refused item can be removed the queue is tried in order, each item once |
| AgentClient.TriedOnceExactly | internal/agent/client.go:211-216 | no item is tried twice iff no round but the last is a refused item that stayed |
| AgentClient.RefusedAgain | internal/agent/client.go:211-216 | for every n, n failed removals of a refused item are followed by n more replays of it |
| AgentClient.Client.Replay | internal/agent/client.go:202-218 | one item: taken off on success or a final error, kept on a transient one or when the file cannot be removed; success and every error have their cause in what happened |
| AgentClient.Client.SendBatch | internal/agent/client.go:168-183 | replays the whole queue first, by the rules of Drain and with what each stop means, then posts under the one id: with a readable oldest item, no new disk failure, no directory among the batch files and no ended context that item is the first thing tried; success implies committed and every error has its cause; a final error drops the batch with its reason; a transient one leaves it newest in the spool or dropped because the disk refused it, with the cause |
| AgentClient.Client.Deliver | internal/agent/client.go:172-183 | the new batch itself: posted up to five times under its id, then acknowledged, dropped for its final error, or kept |
| AgentClient.FirstIsTried | internal/agent/client.go:192-202 | a replay that was neither kept from starting nor stopped by the disk has tried the oldest readable item first |
| AgentClient.Client.KeepOrDrop | internal/agent/client.go:172-183 | a batch that could not be posted is dropped after a final error or without a spool, else stored |
| AgentClient.Client.Save | internal/agent/client.go:176-181 | storing a batch: the longest fitting suffix and then this batch, disk and books agreeing; a batch not stored is dropped with its cause |
| AgentClient.Client.Restart | internal/agent/buffer.go:33-44 | from every state a crash can leave, reopening the directory queues exactly what is on disk; what was being sent and is not there is dropped as crashed, nothing else is lost unnamed |
| AgentClient.Client.CrashInPut | internal/agent/buffer.go:46-87 | a crash at any disk call of Put leaves a suffix of the queue, with or without the new batch, and every batch accounted for |
| AgentClient.Client.CrashInSend | internal/agent/client.go:168-183 | a crash before or during the replay, during the attempts or while storing: the batch is acknowledged, spooled or dropped |
| AgentClient.Client.DamageFile | internal/agent/buffer.go:105-111 | a batch file that stops parsing loses only its own batch, for that reason |
| AgentClient.DropPrefix | internal/agent/buffer.go:149-163 | taking the oldest items off the disk takes exactly their ids off the books |
| AgentClient.SkipDamaged | internal/agent/buffer.go:105-111 | skipping damaged files changes no batch's bookkeeping |
| SpoolNames.IsBatchName | internal/agent/buffer.go:182-192 | recognises exactly sixteen digits and the suffix |
| SpoolNames.ParseSeq | internal/agent/buffer.go:194-200 | reads the number of a recognised name, within int64 |
| SpoolNames.NameRoundTrip | internal/agent/buffer.go:81 | a number's name is recognised iff it is below 10^16, and then reads back as that number |
| SpoolNames.NamesAreNumbers | internal/agent/buffer.go:194-200 | every recognised name is the formatted name of the number it reads as |
| SpoolNames.NameOrder | internal/agent/buffer.go:140 | text order of recognised names is the order of their numbers |
| SpoolDirectory.EvictionsLeaveLongestFit | internal/agent/buffer.go:144-168 | evicting from the front leaves the longest suffix that fits beside the incoming bytes |
| SpoolDirectory.DropOldest | internal/agent/buffer.go:149-163 | removing the k oldest files leaves the rest of the listing |
| SpoolDirectory.AppendNewest | internal/agent/buffer.go:81-86 | a file with a greater name is listed last |
| SpoolDirectory.ListingUnique | internal/agent/buffer.go:128-142 | the ascending list of a directory's batch files is unique, so a reopened spool lists the same queue |
| AgentSpool.Spool.ListNames | internal/agent/buffer.go:128-142 | the batch files of the directory in text order, whatever order the directory is read in |
| AgentSpool.Spool.MakeRoom | internal/agent/buffer.go:144-168 | evicts exactly as many oldest files as needed; "buffer is full" is unreachable |
| AgentSpool.Spool.Put | internal/agent/buffer.go:46-87 | on success the queue is the longest fitting suffix of the old one and then the new item, within the byte limit; on failure a suffix of the old one, with the cause |
| AgentSpool.Spool.WriteThenRename | internal/agent/buffer.go:81-86 | a failure between write and rename leaves the queue as it was |
| AgentSpool.Spool.Front | internal/agent/buffer.go:91-115 | the oldest readable item; only unreadable files are skipped and they leave the queue |
| AgentSpool.Spool.Remove | internal/agent/buffer.go:117-126 | removes one file; no recognised batch name is refused |
| AgentSpool.NewestGoesLast | internal/agent/buffer.go:73-86 | the new file sorts after all survivors unless its number no longer fits the name |
| AgentSpool.LastNameLosesTheNext | internal/agent/buffer.go:81 | with the last number in use the next number has no recognised name |
| IngestStore.InsertTopologyLinks | internal/store/postgres/patterns.go:184-209 | each row's count grows by the sum of its valid links; kind and last_seen come from the last one; empty names and zero counts are skipped |
| IngestStore.LinksAddUp | internal/store/postgres/patterns.go:199-206 | for two names and a port that sum is of the counts of the arriving links with these names and this port, nothing without both names, and the last one is the last of them with a count |
| IngestStore.LinksTwiceCountTwice | internal/store/postgres/patterns.go:192-194 | running the same links twice doubles their contribution |
| IngestStore.Store.ApplyBatch | internal/store/postgres/batch.go:22-54 | with an id the handler takes effect whole or not at all and never for a claimed id; without one every store call stands alone |
| IngestStore.Store.HandleBatch | internal/hub/server.go:316-354 | 202 with an id implies it is claimed; a duplicate changes nothing and queues no pattern work |
| Rfc3339.StampOrder | internal/store/postgres/db.go:373 | text order of two stamps is time order except exactly in the stated case of unequal fraction lengths |
| Rfc3339.StampInjective | internal/store/postgres/db.go:331 | different instants have different stamps |
| Rfc3339.EqualWidthNeverInverted | internal/store/postgres/db.go:373 | with equally many fraction digits the two orders agree |
| Rfc3339.InversionsExist | internal/store/postgres/db.go:331 | a concrete earlier instant whose stamp compares as later |
| WorkloadLatest.BatchLatestIsTimeMaximum | internal/store/postgres/db.go:325-342 | a batch's candidate per key is its latest point in time, the last one on ties |
| WorkloadLatest.BatchPicksLastLatest | internal/store/postgres/db.go:325-342 | a container and metric has a candidate iff the batch holds a CPU, memory or memory-limit point of that container; it is the latest of them, and of equally late ones the last |
| WorkloadLatest.BothSidesSeeEver | internal/store/postgres/db.go:317-389 | after any faithful interleaving of commits and purges, view and table both answer a window after the cutoffs as everything ever written would |
| WorkloadLatest.ViewAnswersLikeScan | internal/store/postgres/db.go:559-621 | so the view answers every key as a scan of the points does, truncated purges and late batches included |
| WorkloadLatest.ViewIsGlobalLatest | internal/store/postgres/db.go:351-389 | without purges each view row is the point with the greatest stamp of all points of its key, the last written on ties |
| WorkloadLatest.FaithfulIsNecessary | internal/store/postgres/db.go:338 | a batch on empty tables leaves view and scan agreeing iff its in-batch choice agrees with text order |
| WorkloadLatest.AgreementExactly | internal/store/postgres/db.go:338-373 | on every history, faithful or not and with purges, view and scan agree on a key iff the newest of the batches' choices is the newest of all points |
| WorkloadLatest.CutoffsByTime | internal/store/postgres/purge.go:55 | cutoffs no later in time and with as many digits are no later as text, which is what the theorems ask of purges |
| WorkloadLatest.InversionMisleads | internal/store/postgres/db.go:338-373 | every inverted pair of instants gives a batch after which they disagree |
| WorkloadLatest.NoInversionIsFaithful | internal/store/postgres/db.go:338 | a batch without inverted stamps for one key is faithful |
| WorkloadLatest.NewestIsMaximum | internal/store/postgres/db.go:561-563 | the scan's answer for a key is its greatest visible stamp, the last written on ties |
| WorkloadLatest.NewestIsLastMaximum | internal/store/postgres/db.go:561-563 | the scan answers with the last row among those of the container and metric with the greatest stamp not before the window, and with nothing iff there is none |
| WorkloadLatest.DeleteFirstExactly | internal/store/postgres/purge.go:64-81 | a bounded delete removes exactly the first rows before the cutoff, as many as its limit, and keeps all others in order |
| WorkloadLatest.DeleteAllExactly | internal/store/postgres/purge.go:64-86 | with a limit of at least the number of rows before the cutoff it removes exactly those |
| OverlappingCommits.ShuffleNewest | internal/store/postgres/db.go:326-342 | a scan of the interleaved rows of two batches answers as one batch after the other would, in one order or the other |
| OverlappingCommits.AnyOrderAgrees | internal/store/postgres/db.go:317-389 | on any faithful history the view agrees with every table that holds the window's rows in whatever order, purged or not, when the top rows of a key are all the same |
| OverlappingCommits.AnyOrderExactly | internal/store/postgres/db.go:373 | every order of the rows agrees with the view iff the top rows of the key are all the same |
| OverlappingCommits.OverlappingCommitsAgree | internal/store/postgres/db.go:317-389 | any number of batches, each in its own order, interleaved in the table and merged into the view in any order, on any faithful history: they agree on a key unless two tie on it |
| OverlappingCommits.OverlapExactly | internal/store/postgres/db.go:373 | from empty tables all interleavings and merge orders of any number of batches agree on a key iff no two tie on it |
| OverlappingCommits.TwoBatches | internal/store/postgres/db.go:373 | for two batches that is: their newest points of the key do not share a stamp while differing |
| MetricStore.Store.WriteMetrics | internal/store/postgres/db.go:317-343 | appends all points, merges the batch's candidates into the view and locks in sorted order exactly the containers and metrics the batch has tracked points of |
| MetricStore.Store.UpsertWorkloadLatest | internal/store/postgres/db.go:351-389 | the view is merged key by key with the text comparison, in lock order, each key once |
| MetricStore.Store.PurgeMetricPoints | internal/store/postgres/purge.go:54-86 | a completed purge leaves exactly the points whose stamp is not before the cutoff, in order; an interrupted one has removed exactly the first points before it, full rounds of them |
| MetricStore.Store.Purge | internal/store/postgres/purge.go:13-52 | points first, then the view; once done, also when the context ended just after, no point before the cutoff is left in either and every other one is as it was; otherwise the view is untouched, and either the points were done or exactly full rounds of the first points before the cutoff are gone |
| MetricStore.Store.PurgeWorkloadLatest | internal/store/postgres/purge.go:56-63 | the view keeps exactly its rows whose stamp is not before the cutoff, unchanged |
| MetricStore.Store.ListWorkloads | internal/store/postgres/db.go:559-621 | one snapshot for each container with a row in the window, with the values of its rows there, zero for a missing one, the latest of their times, and entity and labels of a row with its newest stamp; for faithful histories values and time are those of a full scan |
| MetricStore.Snapshots | internal/store/postgres/db.go:571-612 | the row loop computes for each container the summary of its rows, with entity and labels of the first |
| MetricStore.SummaryPlainly | internal/store/postgres/db.go:588-612 | a summary holds the values of the points that are there, zero for the others and the latest of their times; there is none iff all three are missing |
| MetricStore.ShortRoundIsLast | internal/store/postgres/purge.go:82-84 | a round below the batch size leaves nothing to delete |
| MetricStore.DeleteTwice | internal/store/postgres/purge.go:64-85 | two rounds delete what one of the joint size would |
| LockOrder.NoWaitCycle | internal/store/postgres/db.go:349-388 | transactions that lock in ascending order never wait for themselves through others |
| LockOrder.SomeoneCanStep | internal/store/postgres/db.go:349-388 | while one is unfinished, some transaction advances without any abort |
| LockOrder.EveryScheduleFinishes | internal/store/postgres/batch.go:34-53 | every schedule of ordered transactions, aborts anywhere, is finite, and advancing can stop only when all have ended: no abort is ever needed |
| LockOrder.MetricBatchIsAscending | internal/store/postgres/db.go:355-364 | a metric batch takes its id and then the keys of its upsert in the global order |
| Deadlocks.DeadlockExactly | internal/store/postgres/db.go:349-388 | any number of transactions can reach a state where nobody can advance, or where some wait in a circle, iff their lock lists hold a ring: beginnings that share nothing, each list going on with something in the next one's beginning |
| Deadlocks.OrderedNeverDeadlock | internal/store/postgres/db.go:359-364 | any number of lists in one order never deadlock |
| Deadlocks.TwoDeadlockExactly | internal/store/postgres/batch.go:34-53 | two transactions can deadlock iff their lists cross |
| Deadlocks.AscendingNeverCross | internal/store/postgres/db.go:359-364 | two lists in one order never cross |
| Deadlocks.TopologyDeadlockExactly | internal/store/postgres/patterns.go:199-206 | any number of topology batches can deadlock iff their lists of counted links hold a ring between batches of different ids |
| Deadlocks.PairsAreNotEnough | internal/store/postgres/patterns.go:199-206 | three batches that deadlock although no two of them can |
| Deadlocks.UnsortedLinksCanDeadlock | internal/store/postgres/patterns.go:199-206 | the shortest case: two links in opposite order |
| Deadlocks.PurgeDeadlockExactly | internal/store/postgres/purge.go:56-63 | the purge of the view beside a metric batch can deadlock iff the order its scan meets the rows in crosses the sorted keys |
| Deadlocks.PurgeCanDeadlock | internal/store/postgres/purge.go:56-63 | two rows met against their sorted order do |
| KernelFlow.KeyTellsFlowsApart | internal/agent/kernel/flow.go:266-272 | the counter key determines both 16-byte addresses, both ports and the direction |
| KernelFlow.FamiliesThatCollide | internal/agent/kernel/flow.go:268-269 | only an IPv4 address and its IPv4-mapped form share a key part |
| KernelFlow.Delta.Apply | internal/agent/kernel/flow.go:242-264 | returns the increments over the previous reading and remembers this one |
| KernelFlow.FlowIsConserved | internal/agent/kernel/flow.go:242-264 | over every run with evictions: true activity = reported + pending + lost to evictions, all non-negative |
| KernelFlow.NeverOverReports | internal/agent/kernel/flow.go:249-253 | the increments of a key never sum to more than its activity |
| KernelFlow.ExactWithoutEviction | internal/agent/kernel/flow.go:249-256 | without an eviction of the key a run ending in a reading has reported all of it |
| KernelFlow.ExactWhenNothingHidden | internal/agent/kernel/flow.go:249-256 | at a reading the report is exact iff every eviction found nothing unreported and every reading after one found less than was remembered |
| KernelFlow.TwinsOverReportExactly | internal/agent/kernel/flow.go:266-272 | two flows under one key over-report in a window iff the first had counted more than the second or is now behind what the second had |
| KernelFlow.TwinsExist | internal/agent/kernel/flow.go:268-269 | an IPv4 flow and its IPv4-mapped twin are such flows |
| KernelSample.BuildSample | internal/agent/kernel/flow.go:77-169 | the links are the observed edges with their counts, sorted; the metrics are the per-entity sums of each direction, sorted by entity |
| KernelSample.OneFlowLink | internal/agent/kernel/flow.go:99-151 | of one flow: outbound links the name of its source to that of its destination on the destination port, inbound the other way on the source port; no link without a count, two different names, or for a retransmission |
| KernelSample.OneConnectionOneLink | internal/agent/kernel/flow.go:73-76 | the two ends of one connection show the same edge, and in either order they are one link with the count of the client side |
| KernelSample.OneFlowMetrics | internal/agent/kernel/flow.go:88-117 | of one flow: the workload of its source is credited under its direction, nothing for an unknown one or a workload that talks to itself |
| KernelSample.CreditGoesToSource | internal/agent/kernel/flow.go:88-117 | in every window a flow feeds the counter of the workload of its source, whichever end saw it |
| KernelSample.NameIs | internal/agent/kernel/flow.go:185-203 | service before container before localhost or the address; only an address that is none has no name |
| KernelSample.BiggestFirst | internal/agent/kernel/flow.go:157-162 | links come with the biggest count first, and by their joined names among equals |
| KernelSample.AddToEdge | internal/agent/kernel/flow.go:122-151 | one flow changes its own edge by the outbound-wins rule and no other |
| KernelSample.OneMoreFlow | internal/agent/kernel/flow.go:142-150 | how the reference count of an edge changes with one more flow |
| KernelSample.KernelDirections | internal/agent/kernel/flow.go:73-76 | with the directions the kernel writes, an edge counts its outbound flows if any, else its inbound ones |
| KernelSample.OrderFreeExactly | internal/agent/kernel/flow.go:142-150 | edges are the same for every permutation iff no edge mixes outbound with unknown directions |
| KernelSample.LinksForgetOrder | internal/agent/kernel/flow.go:153-162 | two samples of permuted unmixed windows hold the same links |
| KernelSample.MetricsForgetOrder | internal/agent/kernel/flow.go:205-229 | two samples of permuted windows name the same entities with the same values, and the same labels when all flows of an entity name one workload |
| KernelSample.LabelsForgetOrderExactly | internal/agent/kernel/flow.go:99-117 | the owners, which give the labels, are the same for every permutation iff all flows of an entity name one workload |
| KernelSample.MixedDependsOnOrder | internal/agent/kernel/flow.go:146-150 | every mixed edge has two orders with different counts |
| KernelSample.OneOwnerAgrees | internal/agent/kernel/flow.go:50-54 | a resolver that knows each entity as one workload makes all flows agree |
| AlertEngine.Engine.EvalRule | internal/rules/engine.go:83-111 | tracker, active alerts and events answer for the whole history after one more reading |
| AlertEngine.Engine.Evaluate | internal/rules/engine.go:62-81 | a round adds exactly the readings of every workload and rule, none when listing failed |
| AlertEngine.ValueIs | internal/rules/engine.go:68-77 | memory is above its threshold iff threshold times limit is at most a hundred times the usage, and nothing without a limit; every other metric reads the CPU |
| AlertEngine.OneReadingEach | internal/rules/engine.go:67-79 | rules and workloads with ids of their own: each pair gets exactly one reading a round, that rule's of that workload |
| AlertEngine.Engine.Fire | internal/rules/engine.go:113-135 | the alert becomes active with this reading; a fired and a threshold event with its value and time go out, of which one is an alert event for its key, none for others |
| AlertEngine.Engine.Resolve | internal/rules/engine.go:137-147 | the alert is taken back and one resolved event with this value and time goes out for its key, none for others |
| AlertEngine.EngineMeaning | internal/rules/engine.go:83-147 | active iff fired iff some reading of the streak came its duration after the first; events of a key alternate from fired |
| AlertEngine.ChangesAlternate | internal/rules/engine.go:113-147 | the events a history calls for alternate and their parity says whether the alert is up |
| AlertEngine.FiringPlainly | internal/rules/engine.go:96-103 | with real clock readings firing means a reading at least its duration after the streak's first |
| AlertEngine.StreakIsLongestSuffix | internal/rules/engine.go:107-110 | a tracker's streak is the longest suffix above the threshold |
| AlertEngine.KeyIsUnambiguous | internal/rules/engine.go:84 | colon-free rule ids never share a key |
| FrameStream.Demux | internal/agent/docker/logs.go:116-133 | returns the payloads of the leading frames, or the raw body when it is no frame stream, with every slice in bounds |
| FrameStream.EncodedFramesComeBack | internal/agent/docker/logs.go:124-131 | an encoding followed by a broken frame yields exactly the frames before the first empty one |
| FrameStream.FullRecoveryExactly | internal/agent/docker/logs.go:116-133 | what is read from a stream is all its payloads iff it is empty, or starts with stdout or stderr and no payload follows an empty frame |
| FrameStream.OtherStreamsStayRaw | internal/agent/docker/logs.go:120-122 | a stream that starts with any other first byte comes back with its headers |
| FrameStream.FramesAndRest | internal/agent/docker/logs.go:124-131 | every body is the encoding of its frames followed by something unreadable |
| LogLines.BracketDepth | internal/agent/docker/logs.go:272-304 | the loop computes the depth of the quote-aware automaton |
| LogLines.RenderBalanced | internal/agent/docker/logs.go:272-308 | any JSON text, brackets and quotes in strings and white space between tokens included, leaves the automaton where it was |
| LogLines.ObjectLineStandsAlone | internal/agent/docker/logs.go:199-251 | a line that is a JSON object, white space in and around it included, never merges with a line before or after it |
| LogLines.PaddedObject | internal/agent/docker/logs.go:210-219 | trimming takes exactly the white space around an object away |
| LogLines.IncompleteExactly | internal/agent/docker/logs.go:221-233 | a text waits for more iff it ends on an opening bracket or comma, opens more brackets than it closes, or opens one and closes more |
| LogLines.ContinuationExactly | internal/agent/docker/logs.go:235-251 | a line continues iff it is indented, a lone closing bracket, or starts as a quoted member does |
| LogLines.OwnLineExactly | internal/agent/docker/logs.go:210-219 | a line stands alone iff it starts an object that it also closes, or starts with a time |
| LogLines.OpenTextTakesIn | internal/agent/docker/logs.go:199-208 | a text with open brackets takes in an indented line or a lone closing bracket |
| LogEvents.Coalesce | internal/agent/docker/logs.go:156-197 | one entry per group of kept lines, with its joined text and first time |
| LogEvents.GroupsPartition | internal/agent/docker/logs.go:172-195 | the groups partition the non-blank lines contiguously and break exactly where the accumulated text does not merge |
| LogEvents.GroupingIsUnique | internal/agent/docker/logs.go:172-195 | such a partition is unique |
| LogEvents.EntryIsNotBlank | internal/agent/docker/logs.go:164-169 | no group is lost when flushed |
| LogEvents.ObjectLineIsAnEntry | internal/agent/docker/logs.go:199-219 | every JSON object line becomes an entry of its own |
| LogEvents.OpenBlockIsOneEntry | internal/agent/docker/logs.go:172-195 | a block of any length whose brackets stay open before each of its further lines is one group |
| LogEvents.PrintedBlock | internal/agent/docker/logs.go:156-197 | three concrete lines come out as one text, joined by line feeds, without the carriage return, at the time of the first |
| LogEvents.LogState.ShouldKeep | internal/agent/docker/logs.go:36-45 | keeps a line iff it is later than the last kept of its container |
| LogEvents.NothingLostExactly | internal/agent/docker/logs.go:36-45 | a read keeps all its lines iff their times strictly ascend and start after the last kept one |
| LogEvents.KeptWhenLatestSoFar | internal/agent/docker/logs.go:40-44 | a line is kept iff it is later than every line before it |
| LogEvents.OverlapKeptOnce | internal/agent/docker/logs.go:36-45 | two overlapping reads keep every event once iff all times strictly ascend |
| LogEvents.SameInstantLosesLines | internal/agent/docker/logs.go:40-42 | lines of one instant are kept once |
| Slo.ComplianceLatency | internal/slo/evaluator.go:77-88 | the share of latencies within the threshold, 100 for none |
| Slo.P95MeetsCompliance | internal/slo/evaluator.go:61-88 | P95 is within the threshold iff at least 95 percent of the requests are |
| Slo.P95ForgetsOrder | internal/slo/evaluator.go:61-75 | P95 is one of the values and does not depend on their order |
| Slo.BudgetIsAllOrNothing | internal/slo/evaluator.go:90-110 | the budget is 0 when a positive target is missed and 100 otherwise |
| Slo.ConsideredWhenBreached | internal/slo/evaluator.go:36-38 | publishing is considered iff the objective is breached and its target positive |
| Slo.LatencyObjective | internal/store/postgres/traces.go:390-402 | a 95 percent latency objective is considered iff P95 exceeds the threshold |
| Slo.BreachedButNotConsidered | internal/slo/evaluator.go:91-93 | a concrete breach that is never reported |
| Slo.EvaluateSLO | internal/store/postgres/traces.go:367-404 | status, budget and breach of both kinds of objective, tied to P95 and compliance |
| Slo.Evaluator.Evaluate | internal/slo/evaluator.go:25-59 | publishes exactly the due objectives of a round |
| Slo.RoundKeepsSpacing | internal/slo/evaluator.go:39-43 | reports of one objective stay at least thirty minutes apart however the clock moves |
| Slo.QuietOnlyAfterReport | internal/slo/evaluator.go:36-43 | a considered objective has been reported within the last thirty minutes after every round |
| Slo.OnlyBreachesAreReported | internal/slo/evaluator.go:32-57 | a round reports only breached objectives with a positive target, at its own time, and none reported within the half hour before |
| Traces.ScanSpans | internal/store/postgres/traces.go:152-190 | one OTLP summary per key, described by its span rows, with the services they touch |
| Traces.ScanLogs | internal/store/postgres/traces.go:210-254 | log rows add summaries only for keys without spans |
| Traces.ListTraces | internal/store/postgres/traces.go:115-286 | every key once, start and end the least and greatest of its rows, spans shadowing logs, newest first, cut to the page |
| Traces.GrownDescribes | internal/store/postgres/traces.go:167-182 | one more row keeps count, bounds, error flag and naming row right |
| Traces.LogRowsRead | internal/store/postgres/traces.go:210-254 | a log row counts as a span of one instant that is no root, with its own key, id, name, service and severity |
| Traces.EveryRowCountedOnce | internal/store/postgres/traces.go:152-251 | unfiltered counts sum to the span rows plus the unshadowed log rows with a key |
| Traces.PagesTile | internal/store/postgres/traces.go:269-280 | on a fixed list the pages tile it without gap or overlap |
| Traces.PageWindow | internal/store/postgres/traces.go:269-280 | a page holds what follows the offset in order: 50 entries without a limit, at most 200 with one, fewer only at the end |
| Traces.NewestStartFirst | internal/store/postgres/traces.go:268 | an earlier entry never started before a later one |
| Stats.StatisticsAreOrdered | web/src/lib/stats.ts:13-23 | min <= p85 <= p90 <= p95 <= max for every non-empty input |
| Stats.InterpolationClimbs | web/src/lib/stats.ts:19-22 | a later rank never interpolates to a smaller value |
| Stats.MovesEvenly | web/src/lib/stats.ts:19-22 | between two neighbouring ranks the value moves evenly from one to the other, both ends included |
| Stats.WholeRanks | web/src/lib/stats.ts:10-22 | among 20 k + 1 values the percentiles are the values of rank 17 k, 18 k and 19 k |
| Stats.AveragesCombine | web/src/lib/stats.ts:17 | the average of a joined list is the weighted average of its parts |
| Stats.StatisticsForgetOrder | web/src/lib/stats.ts:13-23 | no statistic depends on the order of the values |
| Stats.AverageBetween | web/src/lib/stats.ts:17 | the average lies between any bounds of the values |
| QueryBinding.Bind | internal/store/postgres/bind.go:56-73 | marks become numbered placeholders, everything else is copied |
| QueryBinding.CleanRoundTrip | internal/store/postgres/bind.go:63-71 | a clean query is restored by erasing the numbers, and these are 1, 2, ... in order |
| QueryBinding.BindRoundTripExactly | internal/store/postgres/bind.go:56-73 | erasing the numbers restores the query iff no digit follows a mark or a dollar sign |
| QueryBinding.LogWhere | internal/store/postgres/db.go:662-715 | clause and arguments are those of the conditions the filter asks for, in one order |
| QueryBinding.ConditionsMatch | internal/store/postgres/db.go:662-715 | every condition of every filter has exactly as many marks as arguments |
| QueryBinding.SearchLogs | internal/store/postgres/db.go:724-736 | the bound query holds $1..$n once each in argument order, and erasing the numbers gives the written query |
| QueryBinding.ConditionsInWords | internal/store/postgres/db.go:662-715 | a search asks for exactly the conditions of its set fields, as SQL text with the field's own argument |
| QueryBinding.JoinedInWords | internal/store/postgres/db.go:662-715 | conditions are joined by AND and alternatives by OR, in order |
| QueryBinding.ListedArguments | internal/store/postgres/db.go:688-713 | every trace pattern is given twice, every container as the end of an entity, in order |
| QueryBinding.TailWords | internal/store/postgres/db.go:734 | the order, limit and offset that follow |
| QueryBinding.TextIgnoresValues | internal/store/postgres/db.go:662-715 | the query text depends only on which fields are set and how many alternatives there are |

## Left out

- AgentClient.Client.SendBatch: does not model the drawing of random batch ids; each new id is fresh and not empty, as a hypothesis.
- Batches with an empty id (heartbeats, registration): the hub runs them without a claim, so nothing is promised of repeats; `IngestStore` models that path.
- HTTP, JSON and SQL text: requests, items and tables are values; a request that never arrives, an answer that is never read and a failing call are nondeterministic.
- Text columns are taken to compare byte by byte; a database collation that orders these stamps or keys differently is not part of this model.
- Timing: waits, timeouts and deadlines are outcomes that may happen at any point, not clocks; a nil jitter source is not modelled.
- Network.Net.Post: does not model two sends at once within one agent; with a spool they are serialised by a mutex, and `Delivery` covers overlapping requests in general.
- Delivery.ExactlyOnce: does not model the purge of rows and links, which deletes what is older than its cutoffs; the ledger is of what was ever stored.
- Delivery.LinkCountsAddUp: likewise without the purge of links.
- Delivery.AcknowledgedIsCommitted: a batch here stands for a non-empty list of items; the agent sends no other, and an empty list would be answered 202 without a claim.
- QueuedAt, and the labels and entity fields of metric points beyond what the snapshots need.
- The one-time seeding of the view when the hub starts; the view starts from empty tables.
- The pattern queue and its worker: best effort by design; only that a duplicate never enqueues is stated.
- KernelFlow.NeverOverReports: does not model the kernel map iteration; readings are complete and hold one entry per key, as a hypothesis.
- MetricStore.Store.Purge: does not model the other tables it purges; that one of them fails is a parameter.
- KernelSample.BuildSample: does not model the link kind and the shared timestamp; the kind is decided by the port.
- Unsigned 64-bit sums are unbounded naturals, and the time arithmetic of the alert engine does not saturate.
- Floating-point rounding of P95, compliance, percentiles and averages: exact arithmetic.
- FrameStream.Demux: does not model the splitting of the text into lines and their timestamps; the scanner's line limit is not part of this model.
- LogLines.ObjectLineStandsAlone: does not model time parsing; which texts the two layouts accept is a parameter.
- LogEvents.Coalesce: does not model the clock; lines without a time all get one given time.
- Traces.ListTraces: does not model the normalisation of trace ids, name and service inference from log text or the duration, which follows from start and end; the order among equal starts is whatever the sort gives.
- QueryBinding.SearchLogs: does not model the trace id patterns, which are a parameter, nor the rows read back.
- Regular-expression classifiers, insight text, group and fleet handling, route registration, the panel's components and the OTLP clients: independent of the properties above.
