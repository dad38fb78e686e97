# Kernel and thread-library invariants

This project models five pieces of the repository and proves what they keep:

* the **buddy page allocator** of one zone with its per-CPU page cache and its watermark test
  (`Bits`, `Buddy`, `FreeLists`, `Zone`, `PageCache`, `Watermark`);
* the **fair run queue**, the group hierarchy above it and the bandwidth control of groups
  (`Wrap64`, `Timeline`, `FairQueue`, `Vruntime`, `GroupTree`, `Hierarchy`, `RunQueue`, `Hints`, `Quota`);
* the **scheduler core**: the wake-up protocol, the stackless walk of the group tree, admission of
  real-time bandwidth and the load average (`WakeUp`, `GroupTree`, `RtAdmission`, `RtRuns`, `LoadAverage`);
* the **semaphores** of the thread library in both versions (`Semaphore`, `SemaphoreRuns`);
* the **UID cache** (`UidCache`).

`Sequences` holds what they share.

Code that changes things in place is a class whose methods carry the loops of the original; each method
is tied to a function or an invariant on values, and the theorems are about those. Concurrent code is a
state machine of steps delimited by locks or single atomic accesses, under sequential consistency; what one
step keeps is lifted to every run.

Six findings:

* `dequeue_task_fair` marks the parent of a sleeping task's entity as next buddy all the way up the tree
  (hw4/kernel/sched/fair.c:2247-2254). Below a throttled group this leaves a hint to an entity that is off its
  queue. `Hints.DequeueTaskExactly` gives the exact condition, `Hints.ThrottledNextBuddy` a case, and
  `Hints.ReachHeld` a way there.
* `sched_rt_handler` puts a new global limit in force before it is judged (hw4/kernel/sched/core.c:7651-7657), and a
  group change that is checked in between reads it. If the limit is then taken back, a group can be left above it
  (`RtRuns.OvertakenWrite`). `RtRuns.RunsWithinExactly` gives the exact condition; that children stay within their
  parents holds in every interleaving. A period of zero can be in force in the same window
  (`RtRuns.ZeroPeriodInForce`).
* `__free_one_page` means to put a block at the tail of its list if the buddy of the next order is free, but reckons
  that buddy's place from the block and not from the pair (hw5/mm/page_alloc.c:594), so an upper half always goes to
  the head (`Zones.TailExactly`, `Zones.UpperHalfMissed`).
* `to_ratio` loses bits of runtimes from 2^44 nanoseconds on; `RtAdmission.RatioExact` is the exact condition.
* `sthread_sem_try_down` of hw3/sync_ad.c succeeds on a counter of zero, so it enters a mutex that is taken
  (`SemaphoreRuns.TryEntersTakenMutex`); `SemaphoreRuns.BisimilarExactly` is the exact condition for both
  implementations to agree.
* `sthread_sem_down` returns -1 whenever it had to wait, although the semaphore was granted; whoever returns holds
  it (`SemaphoreRuns.WhoReturnsHolds`).

Conventions: `MAX_ORDER`, the size of an `unsigned long` and `UIDHASH_BITS` are constants without a value, so
the results hold for each of theirs. Integers are unbounded except where a module says otherwise (virtual times,
quota expiry, `to_ratio` and sums of ratios). `dafny verify dfyconfig.toml` checks everything.

## Model

| member | source | states |
|---|---|---|
| `Buddy.BuddyPair` | hw5/mm/page_alloc.c:474-478 | the xor names the one neighbour a block pairs up with: it is one block away, it is its own buddy's buddy, and masking the two indices gives the aligned start of the pair |
| `Buddy.MaskingIsHarmless` | hw5/mm/page_alloc.c:550 | cutting the page index off at MAX_ORDER bits changes neither which pages are buddies nor which block a merge gives, at every order the loop reaches |
| `Buddy.MergeKeeps` | hw5/mm/page_alloc.c:555-578 | giving a block back leaves the free blocks aligned, disjoint and fully merged, and exactly its pages become free |
| `Buddy.SplitKeeps` | hw5/mm/page_alloc.c:808-841 | cutting a block down keeps the free blocks aligned, disjoint and fully merged, and the part handed out is in none of them |
| `Buddy.SplitCover` | hw5/mm/page_alloc.c:808-841 | the pages a split frees are those of the large block outside the part handed out |
| `Buddy.Canonical` | hw5/mm/page_alloc.c:555-579 | there is only one fully merged set of blocks for a given set of free pages |
| `Buddy.MergeIsTheOnlyResult` | hw5/mm/page_alloc.c:555-605 | any fully merged block set with the right pages is the one that freeing gives, wherever the merging stops |
| `Buddy.SplitIsTheOnlyResult` | hw5/mm/page_alloc.c:808-841 | any fully merged block set with the right pages is the one that splitting gives |
| `Buddy.RunKeeps` | hw5/mm/page_alloc.c:535-605 | every run of allocations and frees keeps the free blocks aligned, disjoint and without two free buddies below the largest order |
| `Buddy.HistoriesAgree` | hw5/mm/page_alloc.c:535-605 | two histories that leave the same pages free leave the same blocks |
| `Buddy.AllocFreeRestores` | hw5/mm/page_alloc.c:897-909 | allocating a block and freeing it restores the block set exactly |
| `Buddy.FreeAllocRestores` | hw5/mm/page_alloc.c:535-605 | a block just freed can be handed out at once exactly when it is still the head of the block it merged into, and that restores the block set exactly |
| `FreeLists.DelKeeps` | hw5/mm/page_alloc.c:902-906 | unlinking a head keeps the lists in step with the page marks: each marked head on exactly one list, that of its order and type |
| `FreeLists.AddKeeps` | hw5/mm/page_alloc.c:595-604 | linking a head at either end keeps the lists in step with the page marks |
| `FreeLists.PagesNeedABlock` | hw5/mm/page_alloc.c:1676-1685 | if more pages are free than the orders below hold, a list at some higher order is not empty |
| `Zones.Zone.LinkBlock` | hw5/mm/page_alloc.c:595-604 | marks, lists and nr_free stay in step, the block is at the asked-for end of its list, no other list changes, and the free pages grow by the block |
| `Zones.Zone.DelPage` | hw5/mm/page_alloc.c:904-905 | the head leaves its list and loses its mark and nothing else changes; the count is one short until the caller settles it |
| `Zones.Zone.Coalesce` | hw5/mm/page_alloc.c:555-578 | the loop ends at a block whose buddy is not free, covering the freed pages and the blocks merged into it |
| `Zones.Zone.FreeOnePage` | hw5/mm/page_alloc.c:535-605 | the marks become exactly the merged block set, lists and counts follow, the block that holds the page is on the list of the given type and other blocks keep theirs; it goes to the tail exactly when it is a lower half and the buddy of the pair it would make is free, else to the head |
| `Zones.TailExactly` | hw5/mm/page_alloc.c:580-600 | the tail is used as the comment promises, when the next-higher buddy is free, if and only if the block is a lower half or that buddy is not free: the place of the higher buddy is reckoned from the block instead of from the pair |
| `Zones.UpperHalfMissed` | hw5/mm/page_alloc.c:589-600 | page 1 comes back while 0 is in use and 2 and 3 are free: the higher buddy is free and the page still goes to the head |
| `Zones.HigherBuddy` | hw5/mm/page_alloc.c:591-595 | from an upper half the place looked at can never hold a block of the higher order |
| `Zones.Zone.Expand` | hw5/mm/page_alloc.c:808-841 | the marks become exactly the split block set, each upper half heads the list of its order and of the given type, every other list stays as it was, counts follow |
| `Zones.Zone.RmqueueSmallest` | hw5/mm/page_alloc.c:889-912 | NULL exactly when the type has no block large enough; otherwise the head of the list of the smallest order that has one, and the result is an allocation step of the block set |
| `Zones.Zone.MoveFreepages` | hw5/mm/page_alloc.c:942-983 | exactly the free blocks whose head lies in the range change lists, their pages are counted, and marks and counts do not change |
| `Zones.Zone.MoveFreepagesBlock` | hw5/mm/page_alloc.c:985-1004 | exactly the free blocks whose head lies in the pageblock of the page move, none if the pageblock passes the zone's end, and only those from the page on if it starts before the zone; the answer is the number of their pages |
| `Zones.Zone.StealBlock` | hw5/mm/page_alloc.c:1042-1075 | the block leaves with its count; the rest of its pageblock goes over to the new type exactly when the block is large, the request reclaimable or grouping off; and the pageblock itself changes type exactly when half of it went over or grouping is off |
| `Zones.Zone.ChangePageblockRange` | hw5/mm/page_alloc.c:1006-1015 | exactly the pageblocks of the block change type |
| `Zones.PageblockMeans` | hw5/mm/page_alloc.c:1006-1015 | a page belongs to the pageblock whose range it is in, and the pageblocks of a large block are those that lie inside it |
| `Zones.Zone.FindFallback` | hw5/mm/page_alloc.c:1026-1042 | at the largest order with a block of a fallback type, the head of the first such list in the order of preference; none exactly when no fallback type but RESERVE has one |
| `Zones.Zone.RmqueueFallback` | hw5/mm/page_alloc.c:1019-1095 | NULL exactly when no fallback type has a block large enough; otherwise an allocation step from the largest order, of the type preferred there, with every remaining block on the list it belongs on and exactly the pageblocks taken over changing type |
| `Zones.Zone.Capture` | hw5/mm/page_alloc.c:1042-1090 | the block found is taken: an allocation step, with every remaining block on the list it belongs on and exactly the pageblocks taken over changing type |
| `Zones.Zone.Rmqueue` | hw5/mm/page_alloc.c:1101-1125 | NULL exactly when no free block is large enough; otherwise an allocation step: the smallest sufficient block of the own type, or if there is none the largest of another, or if there is none the smallest of the reserve; the invariant and the page counts are kept |
| `Zones.Zone.IsFreeBuddyPage` | hw5/mm/page_alloc.c:6095-6112 | true exactly for the pages inside some free block |
| `PageCaches.PageCache.NextList` | hw5/mm/page_alloc.c:667-672 | the round-robin search stops at the first list that is not empty, having counted the lists it passed; three means that no other list has pages |
| `PageCaches.PageCache.DrainList` | hw5/mm/page_alloc.c:675-689 | the inner loop moves the last pages of the chosen list, and no others, to the buddy allocator: as many as it is asked for, is allowed or finds, whichever is least |
| `PageCaches.PageCache.FreePcppagesBulk` | hw5/mm/page_alloc.c:644-693 | terminates and moves exactly the given number of pages, which are as available as before; if no list runs dry each gives its share in turn; NR_FREE_PAGES follows |
| `PageCaches.ShareIsEven` | hw5/mm/page_alloc.c:667-672 | taken in turn the lists give a third each, rounded up for the lists that come first |
| `PageCaches.PageCache.DrainOne` | hw5/mm/page_alloc.c:675-686 | the last page of the list merges into the zone, and the block it is then part of is on the list of the type recorded for the page |
| `PageCaches.PageCache.FreeHotColdPage` | hw5/mm/page_alloc.c:1353-1400 | a hot page goes to the head and a cold one to the tail of its list, and below the high mark nothing else changes; at the mark a batch is drained from the tails, every page stays as available as it was, and count stays the length of the lists |
| `PageCaches.PageCache.RmqueueBulk` | hw5/mm/page_alloc.c:1163-1206 | adds at most the given number of pages to the list, hot ones in front in the order they came and cold ones at the end in reverse, each recorded with the type asked for, fewer only when the zone has run empty; nothing is lost |
| `PageCaches.PageCache.TakeEnd` | hw5/mm/page_alloc.c:1528-1534 | the head of the list for a hot request, the tail for a cold one, and nothing else changes |
| `PageCaches.PageCache.BufferedRmqueue` | hw5/mm/page_alloc.c:1511-1534 | fails exactly when the list and the zone are empty; otherwise hands out one available page, the head of the list for a hot request and the tail for a cold one, and leaves the others as available as they were; an empty list is refilled by a batch, less only if that takes the last free page |
| `PageCaches.PageCache.constructor` | hw5/mm/page_alloc.c:3958-3976 | an empty cache over a zone whose counter is exact, with a high mark of six batches |
| `PageCaches.PageCache.SetHighmark` | hw5/mm/page_alloc.c:3978-3988 | the high mark is set, and the batch is a quarter of it, but at least one page and at most the cap |
| `PageCaches.PageCache.RmqueueOrder` | hw5/mm/page_alloc.c:1549-1558 | orders above 0 go to the zone, own type before others before the reserve, and keep NR_FREE_PAGES equal to the sum of nr_free times the block size |
| `PageCaches.PageCache.FreeOrder` | hw5/mm/page_alloc.c:695-706 | freeing a larger block keeps the cache and NR_FREE_PAGES consistent and puts the block on the list of the given type |
| `Watermarks.ZoneWatermarkOk` | hw5/mm/page_alloc.c:1656-1687 | the loop with its early exits answers whether, at every order up to the request, the pages in larger blocks exceed the shifted mark |
| `Watermarks.AboveMarkHasBlock` | hw5/mm/page_alloc.c:1656-1687 | with an exact counter, passing the test means that a block of the requested order or larger is free |
| `Watermarks.CheckedRmqueue` | hw5/mm/page_alloc.c:1101-1125 | after the test has passed, an unmovable, reclaimable or movable request gets a block |
| `WakeUp.StepKeeps` | hw4/kernel/sched/core.c:1591-1657 | each of the 25 kinds of step of wakers and CPUs keeps the protocol's invariant |
| `WakeUp.TaskKeptByLook` | hw4/kernel/sched/core.c:1591-1625 | taking pi_lock and looking at state and on_rq keeps every task's part of the invariant |
| `WakeUp.TaskKeptByHandOver` | hw4/kernel/sched/core.c:1527-1531 | queueing or activating a claimed task keeps every task's part: one delivery under way, never two |
| `WakeUp.TaskKeptByDecide` | hw4/kernel/sched/core.c:3191-3230 | setting the state and deactivating in __schedule keeps every task's part |
| `WakeUp.TaskKeptBySwitch` | hw4/kernel/sched/sched.h:725-748 | on_cpu is set for exactly the tasks that a CPU runs or is switching away from |
| `WakeUp.TaskKeptByPending` | hw4/kernel/sched/core.c:1479-1494 | working off a wake list keeps every task's part |
| `WakeUp.WakerKeptByHandOver` | hw4/kernel/sched/core.c:1627-1657 | what a waker has seen under pi_lock stays true until it acts on it |
| `WakeUp.CpuKeptBySwitch` | hw4/kernel/sched/core.c:3241-3268 | a CPU always runs a task of its own that is on its run queue, except between deciding and switching |
| `WakeUp.CpuKeptByRelock` | hw4/kernel/sched/core.c:3236-3239 | letting go of the run queue's lock between deciding and picking, and taking it again, keeps the invariant |
| `WakeUp.CpuKeptByPending` | hw4/kernel/sched/core.c:1479-1494 | what stands on a CPU's wake list is waking, belongs to that CPU and stands there once |
| `WakeUp.MigrateKeeps` | hw4/kernel/sched/core.c:5089-5121 | moving a queued task between CPUs keeps the invariant |
| `WakeUp.RunKeeps` | hw4/kernel/sched/core.c:1591-1657 | the invariant holds in every state of every interleaving |
| `WakeUp.WakeUpsAreSafe` | hw4/kernel/sched/core.c:1408-1494 | in every interleaving a task on a wake list is on no run queue and on one list only, a task off the queue is asleep or has one delivery under way, its vruntime is relative exactly during the delivery, and no two CPUs use it |
| `WakeUp.WakeTakesEffect` | hw4/kernel/sched/core.c:1421-1443 | when a waker that has matched lets go of pi_lock its task is not asleep: it is running on a run queue, or waking with its one delivery under way |
| `WakeUp.WokenUntilItSleeps` | hw4/kernel/sched/core.c:1591-1657 | in every interleaving a task that a waker has matched stays awake and is not deactivated until it sets its state again |
| `WakeUp.ScheduleTakesEffect` | hw4/kernel/sched/core.c:3191-3268 | what each step of __schedule and of migration does to the task: its state, its queue, its CPU and the current task |
| `WakeUp.StepCounts` | hw4/kernel/sched/core.c:1408-1416 | a step activates a task only if it is off the run queue and claims it only if it is asleep |
| `WakeUp.ActivationsMatchClaims` | hw4/kernel/sched/core.c:1591-1657 | in every interleaving every claim has had its one activation, but for one whose delivery is under way, and every activation its deactivation, but for that of a task on the run queue |
| `WakeUp.RebasedExactlyWhenRelative` | hw4/kernel/sched/core.c:1445-1455 | in every interleaving an activation adds the queue's clock to the vruntime exactly when it is stored relative |
| `Quota.StepIsExact` | hw4/kernel/sched/fair.c:1434-1547 | the ledger of each step to the nanosecond: what is consumed comes out of what was outstanding or is added, and what is lost is exactly what expires, comes back too late or is overwritten |
| `Quota.TakeFillsTheSlice` | hw4/kernel/sched/fair.c:1452-1495 | an assignment fills the queue to exactly one slice or empties the pool, and succeeds exactly when the pool held more than the debt |
| `Quota.GiveReleases` | hw4/kernel/sched/fair.c:1707-1743 | a distribution leaves the queue with 1 and unthrottled, or uses up what the timer held; a queue stays throttled exactly while it has nothing |
| `Quota.AccountCharges` | hw4/kernel/sched/fair.c:1501-1547 | the queue is charged what it ran; what is left past its deadline is lost exactly when the pool's deadline has moved on, and else the deadline is put off |
| `Quota.ReturnLeavesTheMinimum` | hw4/kernel/sched/fair.c:1861-1883 | a queue keeps at most the minimum, and the rest reaches the pool exactly when the period is the same |
| `Quota.TimersHandOver` | hw4/kernel/sched/fair.c:1751-1821 | a refill is one quota, a timer takes the whole pool and brings back what it still holds, unless the period has changed under the slack timer |
| `Quota.StepConserves` | hw4/kernel/sched/fair.c:1434-1547 | no step of accounting, assigning, expiring, returning, throttling or distributing creates runtime, except that a refill adds at most one quota |
| `Quota.WindowLedger` | hw4/kernel/sched/fair.c:1707-1821 | over any stretch of any interleaving, time consumed is covered by the refills in it and by what was outstanding, including what a timer holds with the lock dropped |
| `Quota.ConsumptionIsCovered` | hw4/kernel/sched/fair.c:1434-1547 | in every interleaving time consumed is at most quota times refills plus the outstanding deficits |
| `Quota.RunsStayBounded` | hw4/kernel/sched/fair.c:1861-1926 | no local pool ever exceeds a slice and a throttled queue has nothing left |
| `GroupTree.WalkTgTreeFrom` | hw4/kernel/sched/core.c:668-697 | the loop without a stack terminates and does what the recursive traversal does, whatever the visitors do |
| `GroupTree.WalkIsReplay` | hw4/kernel/sched/core.c:668-697 | the walk makes the calls of a fixed trace, up to and including the first that returns non-zero |
| `GroupTree.EachOnce` | hw4/kernel/sched/core.c:668-697 | the trace enters and leaves each group of the subtree once and touches no other |
| `GroupTree.Nested` | hw4/kernel/sched/core.c:668-697 | the visit of a descendant is one stretch strictly between down and up of its ancestor |
| `GroupTree.TraceSumIsSum` | hw4/kernel/sched/core.c:668-697 | what a walk adds up is the plain sum over the groups of the subtree |
| `Hierarchy.ThrottleWalk` | hw4/kernel/sched/fair.c:1622-1634 | the walk of throttling adds one to the throttle counts of the subtree: they equal the number of throttled queues among a group and its ancestors once the flag is set |
| `Hierarchy.UnthrottleWalk` | hw4/kernel/sched/fair.c:1661-1680 | the walk of unthrottling takes one from them: they match the cleared flag |
| `Hierarchy.FlagAbove` | hw4/kernel/sched/fair.c:1587-1620 | a flag counts for exactly the groups below it |
| `Hierarchy.AddingStep` | hw4/kernel/sched/fair.c:2203-2212 | correcting one queue's h_nr_running passes the difference on to the parent, or ends at a throttled queue, or at the root with the CPU's count to follow |
| `Hierarchy.FallenStep` | hw4/kernel/sched/fair.c:2232-2260 | after an entity has left: the climb ends, goes on correcting counts, or takes the emptied group off as well |
| `Hierarchy.RisenStep` | hw4/kernel/sched/fair.c:2184-2201 | after an entity has come: the climb ends at a throttled queue or goes on with the group's own entity |
| `RunQueues.RunQueue.Throttle` | hw4/kernel/sched/fair.c:1622-1659 | keeps every count in balance, sets the one flag, and leaves tasks and other flags alone; called for a queue that is not queued itself, it only sets the flag |
| `RunQueues.RunQueue.Withdraw` | hw4/kernel/sched/fair.c:1636-1651 | the loop takes the group's entity and every ancestor left empty off and the tasks out of the counts above |
| `RunQueues.RunQueue.Unthrottle` | hw4/kernel/sched/fair.c:1661-1705 | keeps every count in balance, clears the flag, and throttles at most the one ancestor that turns out to be empty and out of runtime |
| `RunQueues.RunQueue.Readmit` | hw4/kernel/sched/fair.c:1686-1700 | the loop queues the group's entity and those above it and adds the tasks to the counts above |
| `RunQueues.RunQueue.EnqueueEntity` | hw4/kernel/sched/fair.c:1085-1118 | the entity is queued and a queue that was empty is throttled if it is out of runtime; nothing else changes |
| `RunQueues.RunQueue.EnqueueTask` | hw4/kernel/sched/fair.c:2178-2217 | keeps every count in balance; the task is queued, and the flags change in exactly one computed place or nowhere |
| `RunQueues.RunQueue.DequeueTask` | hw4/kernel/sched/fair.c:2226-2276 | keeps every count in balance; exactly the task leaves |
| `RunQueues.RunQueue.AddUp` | hw4/kernel/sched/fair.c:2262-2274 | the second loop settles every count above, up to a throttled queue or the CPU's nr_running |
| `RunQueues.Canonical` | hw4/kernel/sched/fair.c:1622-1705 | onRq, nr_running, h_nr_running and the CPU's count are determined by which tasks are queued and which queues are throttled, whatever led there |
| `RunQueues.NrRunningCountsFreeTasks` | hw4/kernel/sched/fair.c:2178-2276 | the CPU's nr_running is the number of tasks on queues whose throttle_count is zero |
| `RunQueues.CountIsFree` | hw4/kernel/sched/fair.c:2178-2276 | a queue's h_nr_running is the number of tasks below it that no throttled queue holds back |
| `LoadAverage.FixedPowerInt` | hw4/kernel/sched/core.c:2256-2276 | the result is within n/2 units of the last place of 2^f(x/2^f)^n whenever x <= 2^f, and at most 2^f; no value on the way exceeds 2^(2f) + 2^(f-1) |
| `LoadAverage.CalcLoadIsNear` | hw4/kernel/sched/core.c:2202-2209 | one step is within half a unit of the exact weighted mean |
| `LoadAverage.StepsAreNear` | hw4/kernel/sched/core.c:2202-2209 | n steps are within n/2 units of the exact n-fold mean |
| `LoadAverage.CalcLoadN` | hw4/kernel/sched/core.c:2301-2307 | the one big step differs from n small ones by at most n/2 + 1/2 + d n / 2^(f+1), where d is the distance of load and active |
| `LoadAverage.SumFitsWord` | hw4/kernel/sched/core.c:2202-2209 | the sum that calc_load shifts right fits a word when the larger argument does with the weight's bits to spare |
| `RtAdmission.RatioAtMostUnit` | hw4/kernel/sched/core.c:7391-7397 | a share that passes the check of runtime against period is at most the whole, even where the 64-bit shift drops bits |
| `RtAdmission.RatioExact` | hw4/kernel/sched/core.c:7391-7397 | for a runtime within its period the share is exact up to rounding if and only if the runtime is below 2^44 nanoseconds or unlimited; from there on it is that of the low 44 bits |
| `RtAdmission.SumOfChildren` | hw4/kernel/sched/core.c:7463-7473 | the loop adds the children's shares modulo a word, with the new setting in place of the stored one |
| `RtAdmission.TgRtSchedulable` | hw4/kernel/sched/core.c:7425-7479 | the check of one group computes the verdict on the settings as they would be after the change |
| `RtAdmission.WalkChecksAll` | hw4/kernel/sched/core.c:7481-7496 | the walk answers 0 exactly when every group passes |
| `RtRuns.RtGroups.SetBandwidth` | hw4/kernel/sched/core.c:7498-7526 | under whatever limit is in force, a change is accepted exactly when every group passes the exact check with it, sums not wrapping; children stay within their parents; groups stay within the limit accepted last exactly when the new share is; a rejected change alters nothing; all CPUs get the accepted runtime |
| `RtRuns.RtGroups.JudgeLimit` | hw4/kernel/sched/core.c:7574-7598 | a limit is accepted exactly when it is sane and every group fits it, and then every group is within it |
| `RtRuns.RtGroups.SetLimit` | hw4/kernel/sched/core.c:7639-7668 | with nothing in between, a limit is kept exactly when it is sane and every group fits it, and is taken back otherwise |
| `RtRuns.RtGroups.constructor` | hw4/kernel/sched/core.c:6988-6994 | the root group has the global bandwidth, the others none, and that is lawful and within the limit |
| `RtAdmission.VerdictIsExact` | hw4/kernel/sched/core.c:7425-7479 | from lawful settings the verdict computed in machine words is the exact one, for any tree and word size |
| `RtAdmission.PassedIsLawful` | hw4/kernel/sched/core.c:7498-7526 | a change that every group passes keeps children within parents, whatever the global limit, the tree and the word size |
| `RtAdmission.LawfulMeansFair` | hw4/kernel/sched/core.c:7425-7479 | the shares of groups below a group, none under another, sum to at most that group's, and that is at most the whole |
| `RtRuns.StepKeeps` | hw4/kernel/sched/core.c:7498-7526 | every step of a group change, check by check, and of a limit write keeps the settings lawful and what the walk has established |
| `RtRuns.StepsDecide` | hw4/kernel/sched/core.c:7498-7526 | settings change only by a completed group change, and the accepted limit only when a written one is judged and every group fits it |
| `RtRuns.WalkDecides` | hw4/kernel/sched/core.c:7425-7495 | a walk under one limit, call by call, ends in the change if and only if every group fits, and otherwise changes nothing |
| `RtRuns.RunsStayFair` | hw4/kernel/sched/core.c:7498-7526 | in every interleaving of group changes and limit writes the shares of groups below a group, none under another, sum to at most that group's, and that is at most the whole |
| `RtRuns.StepWithinExactly` | hw4/kernel/sched/core.c:7457-7458 | a step leaves every group within the limit accepted last if and only if it is no group change or the new share is within that limit |
| `RtRuns.RunsWithinExactly` | hw4/kernel/sched/core.c:7498-7526 | a run keeps every group within the limit accepted last if and only if every change it makes fits that limit when it is made |
| `RtRuns.SettledChecksSuffice` | hw4/kernel/sched/core.c:7498-7526 | it is enough that each changed group was checked while no limit write was pending |
| `RtRuns.OvertakenWrite` | hw4/kernel/sched/core.c:7639-7668 | a run that ends with the root group above the limit: the change is checked against a limit that is then refused and taken back |
| `RtRuns.ZeroPeriodInForce` | hw4/kernel/sched/core.c:7391-7397 | a run in which a period of zero is in force in the middle of a walk, whose next check would divide by it |
| `Timelines.DiffIsAhead` | hw4/kernel/sched/fair.c:444-448 | while times lie within half of the 64-bit range, the signed wrapped difference is the integer difference |
| `Timelines.FindLink` | hw4/kernel/sched/fair.c:488-501 | the descent ends at the empty link before which nothing is later and after which everything is strictly later, and the flag says whether it is the leftmost |
| `Timelines.LinkInOrder` | hw4/kernel/sched/fair.c:510 | linking a node at a link puts it between what comes before and what comes after |
| `FairQueues.ClockForward` | hw4/kernel/sched/fair.c:450-473 | min_vruntime never moves backwards, and ends at the later of itself and the earliest virtual time |
| `FairQueues.CandidateIsLeast` | hw4/kernel/sched/fair.c:450-473 | the time min_vruntime is led to is the earliest of all queued entities and the running one |
| `FairQueues.MaxVNotBehind` | hw4/kernel/sched/fair.c:426-442 | the later of two wrapped times is one of them and behind neither |
| `FairQueues.MigrationKeepsOffset` | hw4/kernel/sched/fair.c:1092-1093 | an entity that leaves one queue without a sleep and comes to another without a wake-up keeps its distance from the clock, so does one woken on another queue, and one that sleeps and wakes where it was starts from the time it had |
| `FairQueues.Migrate` | hw4/kernel/sched/core.c:5089-5121 | the round trip through dequeue and enqueue: the task is on the other queue, as far ahead of its clock as it was of the first one's |
| `FairQueues.ComingMeans` | hw4/kernel/sched/fair.c:1085-1118 | how an arrival changes the entities: the running one by its tick, the arriving one to its base or the placement bound |
| `FairQueues.TickedMeans` | hw4/kernel/sched/fair.c:1167-1210 | how a departure changes them: a sleeper keeps its time, another leaves with the distance from the clock |
| `FairQueues.LoadTellsEmpty` | hw4/kernel/sched/fair.c:779-801 | with positive weights load.weight is zero exactly when nr_running is |
| `FairQueues.CfsRq.constructor` | hw4/kernel/sched/fair.c:5318-5321 | an empty queue with its clock 2^20 before the wrap is consistent |
| `FairQueues.CfsRq.InsertNode` | hw4/kernel/sched/fair.c:478-512 | the entity comes after all that are not later and before all that are, and rb_leftmost is the first |
| `FairQueues.CfsRq.RemoveNode` | hw4/kernel/sched/fair.c:514-524 | exactly the entity leaves the order, and rb_leftmost is the first of what is left |
| `FairQueues.CfsRq.UpdateCurr` | hw4/kernel/sched/fair.c:690-703 | the running entity moves by exactly its weighted time, no other entity changes, and the clock only moves forwards |
| `FairQueues.CfsRq.UpdateMin` | hw4/kernel/sched/fair.c:450-473 | the clock goes to the later of itself and the earliest virtual time |
| `FairQueues.CfsRq.EnqueueEntity` | hw4/kernel/sched/fair.c:1085-1118 | timeline, leftmost, counters and hints stay consistent; without a wake-up the entity's distance from the clock is the relative time it came with, and a woken one starts from its own time, or from clock plus relative time if it comes from elsewhere, and is put at the threshold behind the clock if that is later |
| `FairQueues.CfsRq.Arrive` | hw4/kernel/sched/fair.c:1100-1112 | the entity is counted, placed and in the timeline unless it is the running one |
| `FairQueues.CfsRq.DequeueEntity` | hw4/kernel/sched/fair.c:1167-1210 | the queue stays consistent, no hint points to the entity any more and other hints are kept; a sleeper keeps its virtual time, and the time of another plus the clock is what it had, in both cases after the tick of the running one |
| `FairQueues.CfsRq.SetNextEntity` | hw4/kernel/sched/fair.c:1252-1280 | the running entity is not in the timeline; everything else stays |
| `FairQueues.CfsRq.PutPrevEntity` | hw4/kernel/sched/fair.c:1326-1345 | a running entity that is still queued goes back to its place in the timeline |
| `FairQueues.CfsRq.ClearBuddies` | hw4/kernel/sched/fair.c:1120-1163 | with group scheduling off, where the loops go round once: hints to the entity are cleared and no others |
| `FairQueues.CfsRq.SetNextBuddy` | hw4/kernel/sched/fair.c:2876-2883 | with group scheduling off, where the loop goes round once: the hint is set, and hints still point to queued entities exactly when this entity is queued or not marked for being idle |
| `FairQueues.CfsRq.SetLastBuddy` | hw4/kernel/sched/fair.c:2867-2874 | with group scheduling off, the same for the last hint |
| `FairQueues.CfsRq.SetSkipBuddy` | hw4/kernel/sched/fair.c:2885-2889 | with group scheduling off, the same for the skip hint, which idle tasks get too |
| `FairQueues.CfsRq.Choose` | hw4/kernel/sched/fair.c:1292-1317 | exactly one choice: the next hint if it is eligible, else the last hint, else the leftmost or, if that is to be skipped, its successor, where eligible means at most wakeup_gran later than the leftmost, which is the least |
| `FairQueues.CfsRq.PickNextEntity` | hw4/kernel/sched/fair.c:1292-1322 | the same for the whole call, which also clears the hints to the chosen entity |
| `RunQueues.ReachedExactlyWhenFree` | hw4/kernel/sched/fair.c:1563-1567 | the entities from a queue that is not empty up to the root are all queued exactly when its throttle_count is zero |
| `Hints.CpuHints.SetNextBuddy` | hw4/kernel/sched/fair.c:2876-2883 | the loop marks the entity on its queue and its groups on the queues above; an idle task is not marked |
| `Hints.CpuHints.SetLastBuddy` | hw4/kernel/sched/fair.c:2867-2874 | the same for the last hint |
| `Hints.CpuHints.SetSkipBuddy` | hw4/kernel/sched/fair.c:2885-2889 | the same for the skip hint |
| `Hints.CpuHints.ClearBuddies` | hw4/kernel/sched/fair.c:1120-1163 | the three loops clear the hints from the entity upwards as long as they match |
| `Hints.ClearUp` | hw4/kernel/sched/fair.c:1120-1151 | one such loop |
| `Hints.MarkedIs` | hw4/kernel/sched/fair.c:2876-2883 | marking touches exactly the queues from the entity's up to the root, each with the entity that stands for it there |
| `Hints.UnmarkedIs` | hw4/kernel/sched/fair.c:1120-1151 | no hint points to the entity any more, and every other hint is what it was or none |
| `Hints.DequeueKeepsPointing` | hw4/kernel/sched/fair.c:1167-1193 | clearing before an entity leaves keeps all hints on queued entities |
| `Hints.MarkedExactlyWhenFree` | hw4/kernel/sched/fair.c:2876-2883 | marking a queued entity leaves all hints on queued entities if and only if neither its queue nor one above is throttled |
| `Hints.CpuHints.DequeueTask` | hw4/kernel/sched/fair.c:2232-2260 | the first loop clears the hints of every entity taken off and, for a sleeping task, nominates the group whose queue it ends at |
| `Hints.LoopEnds` | hw4/kernel/sched/fair.c:2232-2260 | that loop leaves all hints on queued entities and ends with only counts to correct and a nominee that is queued |
| `Hints.DequeueTaskExactly` | hw4/kernel/sched/fair.c:2226-2276 | a dequeue keeps all next hints on queued entities if and only if the task does not go to sleep, or nobody is nominated, or the queue that the nominee is on has a throttle_count of zero; last and skip hints are always kept |
| `Hints.ThrottledNextBuddy` | hw4/kernel/sched/fair.c:2247-2254 | a task that goes to sleep in a group inside a throttled one: the dequeue leaves a hint to the throttled group, which is off its queue |
| `Hints.ReachHeld` | hw4/kernel/sched/fair.c:2226-2276 | that case is reached by queueing two tasks, throttling and dequeueing |
| `Vruntime.StepSimulates` | hw4/kernel/sched/fair.c:1085-1118 | each step on wrapped counters stands for the step on integers while compared times are less than half the range apart |
| `Vruntime.RunSimulates` | hw4/kernel/sched/fair.c:1085-1118 | so does every run of sleeping, waking, moving and running |
| `Vruntime.ClocksForward` | hw4/kernel/sched/fair.c:450-473 | over every run the clocks of all queues only move forward |
| `Vruntime.MoveKeepsOffset` | hw4/kernel/sched/fair.c:3099-3104 | from leaving one queue to joining another, wherever the task goes and however the clocks move, its distance from the clock is kept |
| `Vruntime.WakeBoundsOffset` | hw4/kernel/sched/fair.c:2335-2354 | a sleeper comes back at its old distance from the clock or at the threshold behind it, whichever is later |
| `Vruntime.ForkPlaces` | hw4/kernel/sched/fair.c:5194-5233 | parent and child share out the parent's time and the later of that and the end of the period; the child is first if asked for |
| `Semaphores.Semaphore.constructor` | hw3/sync.c:66-84 | a counter and an empty queue |
| `Semaphores.Semaphore.InsertNode` | hw3/sync.c:22-41 | the linked queue grows at its end, also when head still points to a freed node |
| `Semaphores.Semaphore.RemoveNode` | hw3/sync.c:44-51 | the linked queue loses its first node |
| `Semaphores.Semaphore.Down` | hw3/sync.c:109-127 | the linked semaphore does what the value does, take one or queue up at the end, and the code to return is 0 exactly when something was left |
| `Semaphores.Semaphore.TryDown` | hw3/sync.c:133-148 | take one or leave it |
| `Semaphores.Semaphore.Up` | hw3/sync.c:153-171 | hand over to the first waiter and leave the counter, or count if nobody waits |
| `Semaphores.Semaphore.DownAd` | hw3/sync_ad.c:120-144 | the same for the variant that counts first |
| `Semaphores.Semaphore.UpAd` | hw3/sync_ad.c:166-192 | the same for the variant that counts first |
| `Semaphores.Semaphore.TryDownAd` | hw3/sync_ad.c:146-163 | the variant's try succeeds exactly from zero on and may take the counter to -1 |
| `SemaphoreRuns.StepKeeps` | hw3/sync.c:109-171 | every critical section, wake-up and suspension keeps the accounting of who waits why |
| `SemaphoreRuns.RunsBalance` | hw3/sync.c:109-171 | in every run threads wait only while the counter is spent, initial count plus ups is count plus grants, and the queue is served in order of arrival |
| `SemaphoreRuns.NoLostWakeUp` | hw3/sthread.c:520-528 | in every run a suspending thread that is not queued finds its token or somebody is about to write it |
| `SemaphoreRuns.WhoReturnsHolds` | hw3/sync.c:109-127 | in every run whoever returns from down was granted the semaphore by that call and holds it; the code is 0 if the call found something left and -1 if it did not |
| `SemaphoreRuns.AtMostInitHeld` | hw3/sync.c:109-171 | if only holders call up, no more is held at any time than the initial count |
| `SemaphoreRuns.MutualExclusion` | hw3/sync.c:109-171 | from initial count 1 no two threads hold the semaphore at once |
| `SemaphoreRuns.BisimilarExactly` | hw3/sync_ad.c:120-192 | from related states both implementations give the same answers to a sequence of downs, tries and ups if and only if no try meets a counter of zero with nobody waiting |
| `SemaphoreRuns.BisimilarFromStart` | hw3/sync_ad.c:120-192 | from the start, for every initial count, downs and ups alone cannot tell them apart |
| `SemaphoreRuns.TryEntersTakenMutex` | hw3/sync_ad.c:146-163 | a mutex is taken and the variant's try still succeeds, where the other refuses |
| `UidCache.HashInTable` | hw5/kernel/user.c:38 | the hash is the sum of the uid and its quotient by the table size, modulo the table size, and so always the number of a bucket |
| `UidCache.FoundIsHashed` | hw5/kernel/user.c:78-91 | a lookup finds exactly the hashed structure with that namespace and uid |
| `UidCache.LookupTakesOne` | hw5/kernel/user.c:78-91 | a lookup that finds a structure makes its count one more and changes no other, and one that finds none changes nothing |
| `UidCache.HandedIsAskedFor` | hw5/kernel/user.c:139-181 | what a lookup or an allocation hands out is for the namespace and uid asked for |
| `UidCache.RefsMove` | hw5/kernel/user.c:97-181 | the references to a structure grow by one with each one handed out and shrink by one with each given up, and by nothing else |
| `UidCache.CountsMove` | hw5/kernel/user.c:97-137 | so does the count of a hashed structure, which leaves the table exactly when it reaches zero |
| `UidCache.HandedOutStaysHashed` | hw5/kernel/user.c:97-181 | in every run a structure of which more references have been handed out than given up is in the table and is what a lookup finds |
| `UidCache.StepKeeps` | hw5/kernel/user.c:97-181 | every critical section and every drop of a reference without the lock keeps the invariant |
| `UidCache.InsertKeeps` | hw5/kernel/user.c:159-174 | the second look before inserting keeps one entry per namespace and uid, and a structure made in vain is referred to by nobody |
| `UidCache.FreeLockedKeeps` | hw5/kernel/user.c:125-137 | the last reference, dropped under the lock, takes the entry out; one found again in the meantime stays |
| `UidCache.BehavesAsMap` | hw5/kernel/user.c:67-91 | every step changes the map that lookups see as a plain map would change: add the missing entry, take away the last holder's, or nothing |
| `UidCache.RunsAreSafe` | hw5/kernel/user.c:97-181 | in every reachable state what a chain holds is live, stands there once, in its own bucket, alone with its key, with a count equal to the references held or being given up and at least one |
| `UidCache.HeldStaysHashed` | hw5/kernel/user.c:125-181 | in every reachable state a held reference keeps its structure in the table |
| `UidCache.UidTable.HashFind` | hw5/kernel/user.c:78-91 | the loop finds the first structure with the uid and makes its count one more, or changes nothing |
| `UidCache.UidTable.InsertOrFind` | hw5/kernel/user.c:159-174 | the second critical section is the insertion step, and gives back a live structure for the uid |
| `UidCache.UidTable.DropLocked` | hw5/kernel/user.c:125-137 | the locked part of dropping a reference is the step that frees the last one |

## Left out

- Guard pages, CMA, MIGRATE_ISOLATE, bad-page checks, page poisoning, tracing and statistics of the page allocator; holes inside a zone.
- The pageblock type of a page that is freed is a parameter of the free path; `blockTypes` records what allocation stores.
- Zone selection, reclaim, memory hotplug and the per-user memory limit.
- Watermarks.ZoneWatermarkOk: takes the counter as a parameter; per-CPU counter drift is outside, so CheckedRmqueue asks for an exact counter.
- RunQueues.RunQueue.EnqueueTask: a queue is called empty by its nr_running where the code tests load.weight; FairQueues.LoadTellsEmpty shows the two tests agree for positive weights. Whether a queue is out of runtime is a parameter.
- RunQueues.RunQueue.Throttle: asks that the group is not the root, which `tg_set_cfs_bandwidth` never gives a quota (hw4/kernel/sched/core.c:7806), and that it is not throttled, which both callers test.
- Load averaging and share computation of groups (`update_cfs_load`, `update_cfs_shares`), `calc_delta_mine`, slices and preemption ticks; the weighted time, the sleeper threshold and the wakeup granularity are parameters.
- FairQueues.CfsRq.EnqueueEntity: asks that the virtual times of all queued entities stay within half of the 64-bit range, which is what the wrapped comparison needs; so do UpdateCurr, DequeueEntity and PutPrevEntity.
- FairQueues.CfsRq.ClearBuddies: the code with group scheduling off, where `for_each_sched_entity` is one round (hw4/kernel/sched/fair.c:368-369); with groups it is Hints.CpuHints.ClearBuddies.
- FairQueues.CfsRq.SetNextBuddy: the code with group scheduling off, where `for_each_sched_entity` is one round (hw4/kernel/sched/fair.c:368-369); with groups it is Hints.CpuHints.SetNextBuddy.
- FairQueues.CfsRq.SetLastBuddy: the code with group scheduling off, where `for_each_sched_entity` is one round (hw4/kernel/sched/fair.c:368-369); with groups it is Hints.CpuHints.SetLastBuddy.
- FairQueues.CfsRq.SetSkipBuddy: the code with group scheduling off, where `for_each_sched_entity` is one round (hw4/kernel/sched/fair.c:368-369); with groups it is Hints.CpuHints.SetSkipBuddy.
- Red-black colouring and rotation: after a node is linked or unlinked the tree may be any tree with the same order (`FairQueues.Reshape`).
- WakeUp: activating a task and writing its TASK_RUNNING state are one step, as both happen under the run queue's lock; `try_to_wake_up_local` for workers and the first wake-up of a forked task are not modelled.
- Quota: quota and slice do not change and no CPU goes offline; runtime is unbounded except for expiry times and the 64-bit sum in the distribution.
- Class changes and group moves of fair tasks, offline CPUs, and accounting on a queue that is throttled already.
- RtRuns.RtGroups.SetBandwidth: asks that the period in force and the one wanted are not zero, since the code divides by them (hw4/kernel/sched/core.c:7396); `sched_group_set_rt_period` makes sure of the latter, nothing of the former. Which groups have real-time tasks is a parameter.
- RtAdmission.TgRtSchedulable: the visitor with its loop; the walk takes functions and visits the function it is proved equal to.
- LoadAverage.SumFitsWord: arithmetic is unbounded; this and the peak of FixedPowerInt say when the machine's is the same.
- `sthread_sem_destroy`; thread creation and the thread list; hw3/netlock.c.
- The namespace counts and keyrings of user structures; a freed structure's number is never used again.
- Weak memory ordering and torn 32-bit reads of 64-bit clocks.
