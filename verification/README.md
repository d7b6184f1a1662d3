# Verified model of shbox

shbox is an SSH daemon that runs commands in per-sandbox process domains. This project models its
hand-written concurrent protocols and its descriptor and byte-level transformations in Dafny, and
proves what every run, every input or every reachable state satisfies.

- **Process-domain registry** (`DomainSlots`, `DomainMachine`, `DomainInvariant`, `DomainSystem`,
  `DomainTheorems`, `DomainRetry`, `DomainLaunches`, `DomainReleases`, `DomainShutdown`,
  `DomainWakeups`, `DomainNumbers`, `DomainRegistry`). Each lock-held section is a function on one
  sandbox's slot. `DomainRegistry` is the shared object whose methods perform those sections on the
  map, each taking the object from a state of the machine to the state after that step.
  `DomainMachine` interleaves them, per sandbox, with the work done outside the lock and with a
  kernel that forks, exits and fails at will; `DomainSystem` adds all sandboxes, shutdown and forced
  shutdown. One inductive invariant (`BoxInv`) carries the theorems.
- **Key store** (`KeyStore`, `KeyAnswers`, `KeyContents`, `AuthSnapshot`). Files are sequences of
  versions with on-disk identities and contents; requests, file changes and invalidations interleave freely.
- **Spawn** (`Handshake`, `ProcMaps`, `StatusRecords`, `KernelTurns`, `Descriptors`). Parent and child as two
  processes over three pipes, either of which may die at any point; the text comparison that reads
  the ID maps back; the status record and its loops; the descriptor table between fork and execve.
- **Seccomp compilation** (`Seccomp`). The rule map against the documented OR-of-ANDs meaning.
- **Admission, host bridges, host key** (`Admission`, `HostTasks`, `HostKeys`). Protocols for any
  number of threads or processes, with spurious compare-and-swap failures, deaths and power loss.
- **Codecs** (`Fingerprint`, `LittleEndian`, `ControlMessages`, `BrokerFrames`). Canonical unpadded
  base64 (sections 3.5 and 4 of RFC 4648), SCM_RIGHTS control buffers, broker request frames.

Protocols are state machines: `Enabled` says when a step may be taken, `Step` or `Apply` what it
does, `Runs(s, es, s')` that the events `es` lead from `s` to `s'`. A theorem about all runs from
the initial state takes an arbitrary `es`.

## What turned out not to hold

Each of these is kept as the code has it, with a failing run or input and the exact condition.

- A launch that publishes a generation is counted in before the mount namespace descriptor is
  duplicated (`linux.rs:613-630`). If the duplication fails, nothing counts it out again and the
  sandbox can never be released: `RetrySucceedsIffNoLeak`, `FirstLaunchCanWedge`,
  `WedgedInEveryFuture`. The condition is visible in the slot: `LeakIsVisible`. For the same reason
  no shutdown returns Ok then, and otherwise one can: `ShutdownSucceedsIffNoLeak`.
- Not every step that gives a waiter something to do notifies it: shutdown clears `accepting`
  (`linux.rs:1117`) and notifies only at line 1165, so a sleeping launch that would now be rejected
  sleeps on (`ShutdownStrandsSleeper`). An unnotified launch still has to wait if and only if
  launches are accepted (`SleeperWaitsIffAccepting`), and the window closes with the notification
  (`ShutdownWakesAll`, `ForceMarkWakesAll`).
- After a failed release the slot need not name the temp tree that still exists: a launch may have
  taken a pending tree and hold the marker when a release call waits for it and gives up
  (`FailedReleaseMayNameNothing`). Outside a teardown the slot names an existing tree if and only if
  it is not the marker; under the marker the tree is with the marker's owner
  (`DeletionKeepsOwnership`).
- A syscall number with both an unconditional and a conditional rule loses the unconditional one
  (`seccomp.rs:54-58`): `VerdictPreservedIff`, `CompiledMeansEffective`, `MixedLosesUnconditional`.
- On Linux the sequential `dup2` chain differs from the simultaneous remap when a later source is an
  earlier target, and `dup2(n, n)` keeps a close-on-exec flag: `SequentialIffSimultaneous`,
  `ExactIffNoKeptFlag`, `LinuxCycleDiffers`.
- A successful spawn does not imply that the program ran: a child killed without a word reads as
  clean (`SilentDeathLooksClean`). Success means it ran if and only if the child did not exit on
  the run before executing it (`SuccessMeansRanIff`). A status read that fails with anything but
  EINTR after execve turns a running program into an error (`BrokenReadAfterExec`); every other
  error means it never runs (`GivingUpPreventsExec`).
- A failure the child reported whole is not always the error returned: if the mapping handshake
  fails, the status pipe is never read and the refusal is returned instead
  (`RefusalHidesReport`). It is returned if and only if the handshake did not fail and no read did
  (`ErrorIsDecidedByEvents`).
- Key-store freshness rests on identities that never recur and on a quiet boot; both are necessary:
  `FreshIffIdentitiesNeverRecur`, `FreshIffBootIsQuiet`. The identity in the code uses
  `ctime_nsec` without the seconds and folds every failure of `stat` into "absent", and an absent
  file does recur. A file that exists only while it is loaded is served after it is gone
  (`ShortLivedFileIsServed`). In terms of contents, requests get current ones if and only if equal
  identities of two versions mean that the contents did not change in between
  (`CurrentIffIdentitiesTell`).
- A second caller of `join_all` may return while a bridge the first one drained still runs
  (`SecondJoinerReturnsEarly`). A return means that every accepted bridge is over if and only if
  there is at most one caller (`ReturnMeansOverIffOneCall`); the daemon has one (`server.rs:404`).
- A loader may return a host key whose link is not durable yet (`UnsyncedLinkMayBeReplaced`). What
  the path names, and what later calls return, is settled if and only if the link is on disk: the
  directory has been synced, or the link has come through a power loss (`PathSettledIffDurable`,
  `KeySettledIffDurable`). Process deaths alone break nothing.

## Reading decisions

- `linux.rs:429` binds a lock guard that is not visibly dropped before line 572 locks again. The
  model follows the intent stated at lines 418-423 and 569-570: the lock is free while a generation
  is created.
- At most one `release_sandbox_resources` call per sandbox is in progress at a time, counting the
  calls shutdown makes.
- Sizes and alignments are those of 64-bit Linux; integers are little-endian.
- Counters that the code keeps in machine words (generation numbers, bridge ids, `in_flight`,
  descriptor numbers) are unbounded here, except where wrap-around is the point.
- Clocks, randomness, file contents and the answers of the kernel are nondeterministic choices:
  event parameters in the machines, method parameters elsewhere.
- A descriptor's end-of-file at execve, which `Handshake` uses, is what `ReportClosesAtExec` states.

## Model

| member | source | states |
|---|---|---|
| DomainRegistries.DomainRegistry.constructor | crates/shbox/src/platform/linux.rs:121-138 | the registry starts empty, accepting, with the first generation number |
| DomainRegistries.DomainRegistry.LaunchFinished | crates/shbox/src/platform/linux.rs:144-202 | dropping a lease leaves exactly the slot that the counting-out and empty-cleanup rule gives; no other slot changes; an object that shows a state of the machine then shows the state after the lease drop |
| DomainRegistries.DomainRegistry.Join | crates/shbox/src/platform/linux.rs:434-530 | one pass of the launch loop: the decision for the slot found and the slot left behind; an object that shows a state of the machine then shows the state after the launch's pass |
| DomainRegistries.DomainRegistry.AllocateGeneration | crates/shbox/src/platform/linux.rs:651-681 | hands out the next number and never the same one again; an object that shows a state of the machine then shows the state after the allocation |
| DomainRegistries.DomainRegistry.PublishGeneration | crates/shbox/src/platform/linux.rs:577-612 | a creator replaces only its own marker or nothing, counting itself in; an object that shows a state of the machine then shows the state after the publication |
| DomainRegistries.DomainRegistry.RetractMarker | crates/shbox/src/platform/linux.rs:637-645 | a failed creator removes the marker and nothing else; an object that shows a state of the machine then shows the state after the abort |
| DomainRegistries.DomainRegistry.RestorePending | crates/shbox/src/platform/linux.rs:531-556 | a stale temp tree that could not be removed returns to the slot; an object that shows a state of the machine then shows the state after the failed cleanup |
| DomainRegistries.DomainRegistry.ExamineForRelease | crates/shbox/src/platform/linux.rs:858-996 | one pass of the release loop: its phase, the slot left behind, and the handles taken; an object that shows a state of the machine then shows the state after the release's pass |
| DomainRegistries.DomainRegistry.FinishPending | crates/shbox/src/platform/linux.rs:997-1031 | the deleter of a stale temp tree reports back only over its own marker; an object that shows a state of the machine then shows the state after the pending cleanup |
| DomainRegistries.DomainRegistry.FinishTeardown | crates/shbox/src/platform/linux.rs:1072-1099 | success removes the slot; failure restores what is left with the generation it had; an object that shows a state of the machine then shows the state after the teardown |
| DomainRegistries.DomainRegistry.StopAccepting | crates/shbox/src/platform/linux.rs:1117-1117 | no later launch is accepted; slots are untouched; an object that shows a state of the machine then shows the state after shutdown's or forced shutdown's store |
| DomainRegistries.DomainRegistry.CondemnAll | crates/shbox/src/platform/linux.rs:1119-1161 | every active slot becomes deleting with its handles, every other slot stays, and all ids are returned; an object that shows a state of the machine then shows the state after either shutdown's marking |
| DomainRegistries.LaunchFinishedIsStep | crates/shbox/src/platform/linux.rs:144-202 | what LaunchFinished leaves is what the machine's lease drop leaves, for an object that shows the machine's state |
| DomainRegistries.JoinIsStep | crates/shbox/src/platform/linux.rs:434-530 | the same for a pass of the launch loop |
| DomainRegistries.AllocationIsStep | crates/shbox/src/platform/linux.rs:651-681 | the same for the allocation of a generation number |
| DomainRegistries.PublicationIsStep | crates/shbox/src/platform/linux.rs:577-612 | the same for a publication, with the handles of its own generation |
| DomainRegistries.RetractionIsStep | crates/shbox/src/platform/linux.rs:637-645 | the same for a failed creator |
| DomainRegistries.RestorationIsStep | crates/shbox/src/platform/linux.rs:531-556 | the same for a stale temp tree put back |
| DomainRegistries.ExaminationIsStep | crates/shbox/src/platform/linux.rs:858-996 | the same for a pass of the release loop |
| DomainRegistries.PendingCleanupIsStep | crates/shbox/src/platform/linux.rs:997-1031 | the same for the end of a pending cleanup |
| DomainRegistries.TeardownIsStep | crates/shbox/src/platform/linux.rs:1072-1099 | the same for the end of a teardown |
| DomainRegistries.CondemnationIsStep | crates/shbox/src/platform/linux.rs:1119-1161 | the same for marking all slots, with or without the notification, and the ids visited are all the ids |
| DomainRegistries.MarkingIsStep | crates/shbox/src/platform/linux.rs:1119-1216 | the marking of a shutdown and of a forced shutdown are both steps of the machine |
| DomainRegistries.ShownSlotsAreSound | crates/shbox/src/platform/linux.rs:121-138 | of an object that shows a reachable state, counts cover live leases and an absent slot means no lease and no cgroup |
| DomainInvariant.StepKeeps | crates/shbox/src/platform/linux.rs:144-1099 | every step of every launch, waiter, deleter and process keeps the invariant of a sandbox |
| DomainInvariant.EnterKeeps | crates/shbox/src/platform/linux.rs:434-530 | joining, waiting, marking and rejecting keep it |
| DomainInvariant.PublishKeeps | crates/shbox/src/platform/linux.rs:577-636 | publishing keeps it, with or without the descriptor duplicated |
| DomainInvariant.LeaseDropKeeps | crates/shbox/src/platform/linux.rs:144-214 | dropping a lease keeps it, with or without retirement |
| DomainInvariant.TeardownStepKeeps | crates/shbox/src/platform/linux.rs:1039-1099 | every stage of a teardown keeps it, whichever operation fails |
| DomainInvariant.ExamineKeeps | crates/shbox/src/platform/linux.rs:858-996 | every phase of a release call keeps it |
| DomainSystem.InvKept | crates/shbox/src/platform/linux.rs:1116-1216 | steps of all sandboxes, shutdown and forced shutdown keep the system invariant |
| DomainSystem.NoNewSlot | crates/shbox/src/platform/linux.rs:434-439 | once launches are refused no slot appears, even from launches mid-creation, and a release that returns Ok leaves none |
| DomainSystem.OthersUntouched | crates/shbox/src/platform/linux.rs:121-138 | a step for one sandbox leaves the others alone, except that shutdown condemns and wakes all |
| DomainTheorems.LeaseAccounting | crates/shbox/src/platform/linux.rs:144-214 | in every reachable state a slot counts its live leases plus leaked launches, and a live lease keeps its cgroup and temp tree |
| DomainTheorems.LeaseDropIsExact | crates/shbox/src/platform/linux.rs:153-164 | the saturating subtraction never clamps and a lease never decrements another generation |
| DomainTheorems.CgroupRemovalSafe | crates/shbox/src/platform/linux.rs:165-202 | a published cgroup disappears only with no member process and no live lease |
| DomainTheorems.DropRetiresIff | crates/shbox/src/platform/linux.rs:144-202 | a dropped lease retires its generation if and only if it is the last one, nobody leaked, and the cgroup reads as empty and is unlinked; then the slot is gone or holds the temp tree left, otherwise the generation stays untouched |
| DomainTheorems.OneGeneration | crates/shbox/src/platform/linux.rs:448-519 | a sandbox has at most one existing published cgroup |
| DomainTheorems.GenerationsIncrease | crates/shbox/src/platform/linux.rs:571-592 | published generation numbers strictly increase |
| DomainNumbers.NumbersAreGlobal | crates/shbox/src/platform/linux.rs:651-681 | no two sandboxes ever use the same generation number |
| DomainTheorems.LeaseIdentity | crates/shbox/src/platform/linux.rs:448-519 | a launch gets a lease only on a generation with its own identity |
| DomainTheorems.LaunchDecisionExact | crates/shbox/src/platform/linux.rs:434-530 | in every reachable state, exactly when a launch joins, waits, creates, cleans or is rejected; the inconsistent-namespace rejection never happens |
| DomainLaunches.LaunchLeasedIff | crates/shbox/src/platform/linux.rs:434-647 | whatever runs beside it, a launch's call ends with a lease if and only if it was never rejected, did not give up waiting and none of its own operations failed |
| DomainLaunches.CreatorLeasedIff | crates/shbox/src/platform/linux.rs:559-647 | a launch that holds the marker, such as one that has removed a stale temp tree, ends with a lease if and only if no operation of its own fails from there on |
| DomainLaunches.WaiterJoins | crates/shbox/src/platform/linux.rs:460-530 | a launch that waited for a creator gets a lease once it finds a generation with its identity, and is counted in |
| DomainTheorems.MarkerHasOneOwner | crates/shbox/src/platform/linux.rs:531-566 | every marker has exactly one owner and only the owner is past it |
| DomainTheorems.OnlyOwnerMovesMarker | crates/shbox/src/platform/linux.rs:579-603 | a step that moves a marker belongs to its owner |
| DomainTheorems.DefensiveBranchesAreDead | crates/shbox/src/platform/linux.rs:579-603 | the competing-transition branch, the loop-again branch after a stale cleanup and the generation-0 fallback are unreachable |
| DomainTheorems.SleeperWaitsIffAccepting | crates/shbox/src/platform/linux.rs:858-1033 | an unnotified sleeping launch still has to wait if and only if launches are accepted, and is otherwise to be rejected; an unnotified release call still has to wait |
| DomainWakeups.ShutdownStrandsSleeper | crates/shbox/src/platform/linux.rs:1117-1165 | a run in which shutdown has cleared the flag and a sleeping launch, to be rejected, has not been notified |
| DomainWakeups.ShutdownWakesAll | crates/shbox/src/platform/linux.rs:1165-1176 | once shutdown has notified, no launch sleeps unnotified, now or later |
| DomainWakeups.ForceMarkWakesAll | crates/shbox/src/platform/linux.rs:1178-1216 | after a forced shutdown's section no launch sleeps unnotified in any continuation |
| DomainTheorems.DeletionKeepsOwnership | crates/shbox/src/platform/linux.rs:1072-1099 | after any release, failed or not, an existing cgroup of a published generation is named by the slot; an existing temp tree is named by the slot if and only if the slot is not the marker, and under the marker its owner is cleaning that tree; a held generation keeps its namespace descriptor |
| DomainRetry.FailedReleaseMayNameNothing | crates/shbox/src/platform/linux.rs:531-556 | the marker's case is reached: a release returned an error, the published temp tree exists and the slot names nothing |
| DomainTheorems.TempOutlivesCgroup | crates/shbox/src/platform/linux.rs:1039-1071 | the temp tree never goes before the cgroup |
| DomainTheorems.KillHitsExistingCgroup | crates/shbox/src/platform/linux.rs:938-996 | kill_all is issued only on a cgroup that still exists |
| DomainLaunches.CondemnedIff | crates/shbox/src/platform/linux.rs:938-996 | an active slot becomes deleting exactly by a release whose kill_all worked or by a shutdown's marking; a failed kill_all returns an error and leaves the slot as it was |
| DomainTheorems.ShutdownIsFinal | crates/shbox/src/platform/linux.rs:1116-1176 | after a shutdown that returned Ok the slot map is empty, every published cgroup is gone and no lease exists, in every continuation |
| DomainShutdown.ShutdownOkIffNothingFailed | crates/shbox/src/platform/linux.rs:1116-1176 | a shutdown that has ended returned Ok if and only if every kill of its marking worked and none of its release calls returned an error |
| DomainShutdown.ShutdownSucceedsIffNoLeak | crates/shbox/src/platform/linux.rs:1116-1176 | with nothing in progress and no lease, whatever is active or pending, some shutdown returns Ok if and only if no slot counts a launch in |
| DomainShutdown.ActiveSandboxShutsDown | crates/shbox/src/platform/linux.rs:1116-1176 | a reachable state with an active sandbox nobody uses from which shutdown returns Ok |
| DomainShutdown.AcceptingIff | crates/shbox/src/platform/linux.rs:434-439 | launches are accepted exactly as long as neither shutdown has cleared the flag; a launch that enters later is rejected whatever it finds |
| DomainRetry.RetrySucceedsIffNoLeak | crates/shbox/src/platform/linux.rs:938-1099 | with leases drained, every retry whose operations succeed has returned Ok with the slot absent or can still be brought to that, if and only if the slot counts nobody in; otherwise no run frees the sandbox |
| DomainRetry.LeakIsVisible | crates/shbox/src/platform/linux.rs:86-117 | with no live lease, a launch leaked if and only if the slot's in_flight is positive |
| DomainRetry.RunStaysOnTrack | crates/shbox/src/platform/linux.rs:938-1099 | every run of succeeding release steps stays on the way to Ok with the slot absent |
| DomainRetry.InterferenceCannotFailRelease | crates/shbox/src/platform/linux.rs:858-1099 | under every interference, a release call whose own operations succeed never returns an error, and the slot is absent at the moment it returns |
| DomainReleases.ReleaseOkIffNothingFailed | crates/shbox/src/platform/linux.rs:858-1099 | whatever runs beside it, a release call that has returned returned Ok if and only if none of its own operations failed and it never gave up waiting |
| DomainRetry.TeardownCompletes | crates/shbox/src/platform/linux.rs:1039-1099 | the progress half: from every stage of an unfailed teardown some run ends it with Ok and the slot absent |
| DomainRetry.WokenCompletes | crates/shbox/src/platform/linux.rs:858-937 | a release call that waited gets through once it looks again and finds neither a marker nor a counted launch |
| DomainRetry.WedgedInEveryFuture | crates/shbox/src/platform/linux.rs:613-630 | a sandbox with a leaked launch is never released in any continuation |
| DomainRetry.FirstLaunchCanWedge | crates/shbox/src/platform/linux.rs:613-630 | an isolated first launch whose duplication fails leads there |
| DomainRetry.InFlightEqualsLeases | crates/shbox/src/platform/linux.rs:613-636 | when no duplication fails, in_flight is exactly the number of live leases |
| DomainRetry.UndisturbedLaunch | crates/shbox/src/platform/linux.rs:434-681 | in an absent sandbox, or one with only a stale temp tree left, a launch whose operations succeed removes that tree, publishes the next generation under its identity and holds the one lease; other generations stay as they were |
| KeyStores.StepKeeps | crates/shbox/src/auth.rs:679-758 | every step of every request keeps the store and request invariants |
| KeyStores.LoadsAreBounded | crates/shbox/src/auth.rs:679-724 | over every run the loads are at most one plus file changes plus invalidations |
| KeyStores.InvalidationForcesLoad | crates/shbox/src/auth.rs:665-667 | a request that starts after an invalidation answers only after a load that began after it |
| KeyStores.SnapshotsMoveForward | crates/shbox/src/auth.rs:679-724 | a published snapshot is never replaced by an older one |
| KeyStores.QuietBootIsFresh | crates/shbox/src/auth.rs:730-758 | no request gets a snapshot older than the files at its start unless loading the newer state was rejected |
| KeyAnswers.AnswersAreLastAccepted | crates/shbox/src/auth.rs:730-758 | in every run each answer is exactly what the last accepted load before it read, or the boot load, as told by the run's file reads; a refused state is never served |
| KeyAnswers.SnapshotIsLastAccepted | crates/shbox/src/auth.rs:711-724 | the published snapshot is always what the last accepted load read |
| KeyAnswers.UndisturbedRequest | crates/shbox/src/auth.rs:679-758 | an undisturbed request gets the files as they are if a load is called for and both pass, else the snapshot there was; it loads at most once and takes the write guard only for a load |
| KeyStores.FreshIffIdentitiesNeverRecur | crates/shbox/src/auth.rs:771-782 | quiet boots are fresh in every run if and only if on-disk identities never recur |
| KeyStores.FreshIffBootIsQuiet | crates/shbox/src/auth.rs:623-639 | with such identities a boot is fresh if and only if nothing changed between its load and its observation |
| KeyContents.TellingIsCurrent | crates/shbox/src/auth.rs:679-758 | if equal identities mean unchanged contents, no request of any run gets contents other than those at its start or newer, unless loading them was rejected |
| KeyContents.ShortLivedFileIsServed | crates/shbox/src/auth.rs:699-718 | a file that changes under a load and changes back to the observed identity is served after it is gone |
| KeyContents.CurrentIffIdentitiesTell | crates/shbox/src/auth.rs:771-782 | quiet boots serve current contents in every run if and only if equal identities of two versions mean constant contents between them |
| AuthSnapshots.Merge | crates/shbox/src/auth.rs:463-511 | the merged snapshot gives every key the role its sources give it, lists it once, host keys first and exactly those counted; only an empty union is refused |
| AuthSnapshots.AddSource | crates/shbox/src/auth.rs:480-497 | a merge loop keeps known keys as they are and appends new ones in file order |
| AuthSnapshots.FileOrder | crates/shbox/src/auth.rs:480-497 | the keys a source contributes are listed in the order of their first occurrences in it |
| AuthSnapshots.MergedRole | crates/shbox/src/auth.rs:480-497 | for every key, the role is Admin if the host lists it, else Normal if the sandbox source does, else none |
| AuthSnapshots.KeyStore.constructor | crates/shbox/src/auth.rs:623-639 | the store starts with what boot loaded and observed |
| AuthSnapshots.KeyStore.Invalidate | crates/shbox/src/auth.rs:665-667 | the next check is forced |
| AuthSnapshots.KeyStore.UnchangedFastPath | crates/shbox/src/auth.rs:679-695 | the fast path is taken exactly when nothing is forced and both identities match |
| AuthSnapshots.KeyStore.RefreshUnderWriteGuard | crates/shbox/src/auth.rs:696-724 | the flag is consumed, identities are adopted even on a rejected load, only an accepted load replaces the snapshot |
| Handshake.MappingBarrier | crates/shbox-sandbox/src/linux/mod.rs:1153-1285 | an isolated child reaches execve only after both maps were read back as exactly the one leased row and setgroups as allowed, and they still are |
| Handshake.ErrorMeansNotExecuted | crates/shbox-sandbox/src/linux/mod.rs:886-948 | a spawn that returned an error never ran the program, now or later, unless that error is a status pipe that could not be read because a read failed |
| Handshake.GivingUpPreventsExec | crates/shbox-sandbox/src/linux/mod.rs:1033-1038 | from the moment the parent gives up no continuation runs the program, whether or not killing and reaping work; a refusal or a reported failure needs no assumption on reads |
| Handshake.ErrorsAreGenuine | crates/shbox-sandbox/src/linux/mod.rs:929-948 | the error returned is the failure the child reported whole; an unreadable status means the child died with its report cut short, or a read failed |
| Handshake.ErrorIsDecidedByEvents | crates/shbox-sandbox/src/linux/mod.rs:886-948 | from the events of the run alone: a refusal if and only if the handshake failed; otherwise, with unbroken reads, the child's own failure if its report was written whole and unreadable if it was cut |
| Handshake.RefusalHidesReport | crates/shbox-sandbox/src/linux/mod.rs:910-924 | a report written whole during a handshake that fails is not returned |
| Handshake.FailureIsReturned | crates/shbox-sandbox/src/linux/mod.rs:1040-1074 | a setup failure read in any two pieces is the error returned |
| Handshake.SuccessMeansRanOrDied | crates/shbox-sandbox/src/linux/mod.rs:924-948 | success with the program not run means the child died without a byte sent and never runs it later; an isolated one had its maps verified |
| Handshake.SuccessMeansRanIff | crates/shbox-sandbox/src/linux/mod.rs:933-942 | on every run that ends in success, the program ran if and only if the child did not exit before executing it |
| Handshake.IsolatedLaunchSucceeds | crates/shbox-sandbox/src/linux/mod.rs:886-948 | a mapper that writes the leased rows gets the program run and the spawn returns success |
| Handshake.BrokenReadAfterExec | crates/shbox-sandbox/src/linux/mod.rs:1055-1061 | the assumption on status reads is needed |
| Handshake.SilentDeathLooksClean | crates/shbox-sandbox/src/linux/mod.rs:1064-1066 | a child that dies before execve without reporting reads as clean |
| Handshake.StepKeeps | crates/shbox-sandbox/src/linux/child.rs:219-356 | every step of child, parent and kernel keeps the handshake invariant |
| ProcMaps.ReadBackIsExact | crates/shbox-sandbox/src/linux/mod.rs:1263-1285 | the field-wise comparison of the text succeeds exactly when the map is the one expected row, even though the read stops at 256 bytes |
| ProcMaps.ReadEntry | crates/shbox-sandbox/src/linux/mod.rs:1307-1345 | the read loop returns the first 256 bytes through partial and interrupted reads, or fails with a failing read |
| ProcMaps.LineRead | crates/shbox-sandbox/src/linux/mod.rs:1269-1276 | splitting a padded line yields its three decimal numbers and then the rest |
| StatusRecords.RecordParses | crates/shbox-sandbox/src/linux/child.rs:1142-1153 | a written record parses to the failure it was written for |
| StatusRecords.ReportFailure | crates/shbox-sandbox/src/linux/child.rs:219-247 | what reaches the pipe is a prefix of the record, all of it unless a write fails |
| StatusRecords.ReadChildFailure | crates/shbox-sandbox/src/linux/mod.rs:1040-1074 | the read loop judges exactly the bytes written, through partial and interrupted reads |
| StatusRecords.PrefixJudged | crates/shbox-sandbox/src/linux/mod.rs:1064-1073 | silence is clean, a cut report is refused, a whole one is the failure itself |
| Descriptors.DescriptorTable.DuplicateSources | crates/shbox-sandbox/src/macos/mod.rs:381-399 | three distinct snapshots above the standard slots, or the table exactly as it was; a stale source passes only as a number an earlier snapshot took |
| Descriptors.DescriptorTable.RemapStdio | crates/shbox-sandbox/src/macos/mod.rs:438-458 | for all source triples, aliases and cycles included, slots 0 to 2 take the files the sources named and nothing else changes |
| Descriptors.DescriptorTable.SequentialStdio | crates/shbox-sandbox/src/linux/child.rs:671-680 | the Linux remap is the sequential composition, and exactly when it succeeds |
| Descriptors.SequentialIffSimultaneous | crates/shbox-sandbox/src/linux/child.rs:671-680 | sequential and simultaneous remap agree if and only if no flag is kept and no needed source is overwritten |
| Descriptors.LinuxCycleDiffers | crates/shbox-sandbox/src/linux/child.rs:671-680 | a cycle through the standard slots comes out wrong |
| Descriptors.ChooseGuard | crates/shbox-sandbox/src/linux/mod.rs:1432-1448 | the guard is the least slot from three on at or above the saturating successor of every inherited and reserved descriptor |
| Descriptors.DescriptorTable.LinuxHygiene | crates/shbox-sandbox/src/linux/child.rs:491-534 | it succeeds exactly when the report pipe can move and close_range works, and then exactly the standard slots, the inherited numbers with close-on-exec cleared, and the report pipe in its guard slot remain; a failure leaves at most the report pipe duplicated |
| Descriptors.DescriptorTable.MacHygiene | crates/shbox-sandbox/src/macos/mod.rs:494-529 | the same descriptors remain up to the swept bound; what lies above it is left as it was |
| Descriptors.DescriptorTable.LinuxChild | crates/shbox-sandbox/src/linux/child.rs:491-549 | the chain goes through exactly when each source is open in its turn, the report pipe can move and close_range works, and then the table after exec is exactly the surviving standard slots and the inherited numbers with their original files, whatever the order of report fd and guard |
| Descriptors.ExactIffNoKeptFlag | crates/shbox-sandbox/src/linux/child.rs:671-680 | the new program finds exactly 0, 1, 2 and the inherited numbers if and only if no close-on-exec descriptor was mapped onto itself |
| Descriptors.SlotsExactIff | crates/shbox-sandbox/src/linux/child.rs:671-680 | the standard slots then name what their sources named at the start if and only if no needed source was overwritten |
| Descriptors.ReportClosesAtExec | crates/shbox-sandbox/src/linux/child.rs:515-521 | the parent sees end-of-file at execve exactly when no kept descriptor also names the report pipe |
| Descriptors.MacAgreesIff | crates/shbox-sandbox/src/macos/mod.rs:507-529 | the macOS sweep leaves what the Linux one leaves if and only if nothing above its bound needed closing or clearing |
| Seccomp.Compile | crates/shbox-sandbox/src/linux/seccomp.rs:43-94 | every mentioned number has an entry listing exactly its conditional rules; it fails exactly on an unknown name or a refused condition, naming the first |
| Seccomp.CompileConditions | crates/shbox-sandbox/src/linux/seccomp.rs:59-85 | conditions are translated one by one, in order, or the offending one is named |
| Seccomp.ConditionMeaning | crates/shbox-sandbox/src/policy.rs:330-366 | translated comparisons, masked and narrowed ones included, mean what is documented |
| Seccomp.CompiledMeansEffective | crates/shbox-sandbox/src/policy.rs:303-314 | for all policies, numbers and arguments the map has the OR-of-ANDs meaning of the rules without the unconditional rules of mixed numbers |
| Seccomp.UnmixedKeepsEveryRule | crates/shbox-sandbox/src/policy.rs:303-314 | without mixed numbers those are all the rules |
| Seccomp.VerdictPreservedIff | crates/shbox-sandbox/src/linux/seccomp.rs:54-58 | the documented verdict is given if and only if the number is not mixed or a conditional rule holds anyway |
| Seccomp.OrderIrrelevant | crates/shbox-sandbox/src/policy.rs:303-304 | the verdict does not depend on rule order |
| Seccomp.MixedLosesUnconditional | crates/shbox-sandbox/src/linux/seccomp.rs:54-58 | a concrete family of policies whose unconditional rule is lost |
| Admission.CountersBounded | crates/shbox/src/server.rs:49-104 | both counters stay between zero and their caps and the unauthenticated one never exceeds the total |
| Admission.NoUnderflow | crates/shbox/src/server.rs:67-73 | every decrement finds a positive counter |
| Admission.LeavesBucketOnce | crates/shbox/src/server.rs:263-280 | a slot lowers the unauthenticated counter at most once while it lives and exactly once by the time it is gone |
| Admission.AuthenticatedLeavesBucket | crates/shbox/src/server.rs:263-271 | once a thread has left authenticated, its slot, if it lives, is out of the unauthenticated bucket, then and ever after |
| Admission.UncontendedLogin | crates/shbox/src/server.rs:263-271 | an undisturbed call on a counted slot takes exactly one off the unauthenticated counter and leaves the total alone; on any other slot it changes nothing |
| Admission.UncontendedDrop | crates/shbox/src/server.rs:273-280 | an undisturbed drop takes one off the total, one off the unauthenticated counter exactly if the slot had not authenticated, and removes the slot |
| Admission.Quiescence | crates/shbox/src/server.rs:76-82 | with no call in progress the counters are exactly the live slots and those not authenticated |
| Admission.UncontendedAdmit | crates/shbox/src/server.rs:49-64 | below both caps an undisturbed call is admitted with one unit of each counter and one live slot |
| Admission.StepKeeps | crates/shbox/src/server.rs:49-104 | every atomic operation of every thread keeps the admission invariant |
| Admission.RefusedOnlyAtCap | crates/shbox/src/server.rs:49-64 | a call is refused only if one of the counters stood exactly at its cap during that call |
| Admission.AdmittedIffNotRefused | crates/shbox/src/server.rs:49-64 | a call of admit that has ended gave a slot if and only if it was never refused, through all spurious failures and lost races |
| Admission.RetrySeesCounter | crates/shbox/src/server.rs:88-104 | after a load or a failed exchange the next attempt is made with the counter's value, so an undisturbed one wins or is refused at the cap |
| Admission.Counter.CompareExchange | crates/shbox/src/server.rs:94-99 | the weak exchange swaps exactly on the expected value unless it fails spuriously |
| Admission.Counter.TryAcquire | crates/shbox/src/server.rs:88-104 | under any interference and spurious failures a grant is one swap from below the limit and a refusal leaves the counter alone after seeing the limit |
| HostTasks.IdsAreUnique | crates/shbox/src/server.rs:196-225 | distinct accepted futures get distinct ids, and every bridge is some accepted future's |
| HostTasks.EntriesAreExact | crates/shbox/src/server.rs:187-229 | the registry holds exactly the handles of bridges that are not over and that no joiner has taken |
| HostTasks.HandedBackOnlyIfClosed | crates/shbox/src/server.rs:196-234 | a future is handed back only on a run that closed the registry |
| HostTasks.NothingAfterClose | crates/shbox/src/server.rs:201-204 | after a close, in every continuation, each new future is handed back and no bridge is added |
| HostTasks.JoinedMeansOver | crates/shbox/src/server.rs:243-260 | when a joiner has returned every accepted bridge is over or its handle is with another joiner |
| HostTasks.SoleJoinerDrainsAll | crates/shbox/src/server.rs:243-260 | with one joiner its return means every accepted bridge is over, drained or finished before, in every continuation |
| HostTasks.SecondJoinerReturnsEarly | crates/shbox/src/server.rs:243-260 | with any two callers the second may return while an accepted bridge still runs |
| HostTasks.ReturnMeansOverIffOneCall | crates/shbox/src/server.rs:243-260 | for any set of callers, in every reachable state a return means every accepted bridge is over, if and only if there is at most one caller |
| HostTasks.JoinerReturns | crates/shbox/src/server.rs:243-260 | once all bridges are over a joiner gets to its return, drained or not |
| HostTasks.StepKeeps | crates/shbox/src/server.rs:187-260 | every lock-held section keeps the registry invariant |
| HostTasks.HostTaskRegistry.constructor | crates/shbox/src/server.rs:168-173 | the registry starts open and empty |
| HostTasks.HostTaskRegistry.Track | crates/shbox/src/server.rs:196-225 | a future is entered under a fresh id, or handed back once closed, and nothing else changes |
| HostTasks.HostTaskRegistry.Complete | crates/shbox/src/server.rs:227-229 | a finished bridge removes its own entry and nothing else |
| HostTasks.HostTaskRegistry.Close | crates/shbox/src/server.rs:231-234 | the registry closes; entries stay |
| HostTasks.HostTaskRegistry.Drain | crates/shbox/src/server.rs:245-258 | all entries are taken; done exactly when there were none |
| HostKeys.PublishedIsWhole | crates/shbox/src/hostkey.rs:118-139 | the published path names nothing or one complete synced key, through deaths and power losses |
| HostKeys.PublishedNeverChanges | crates/shbox/src/hostkey.rs:127-136 | a published key keeps its contents forever, and its path on every run that loses no unsynced link |
| HostKeys.PathSettledIffDurable | crates/shbox/src/hostkey.rs:144-147 | the path names the same key in every continuation if and only if the link is on disk |
| HostKeys.KeySettledIffDurable | crates/shbox/src/hostkey.rs:127-147 | every later success returns the published key if and only if the link is on disk |
| HostKeys.SuccessesAgree | crates/shbox/src/hostkey.rs:35-41 | all successful calls return the one key the path names |
| HostKeys.CreatorSuccessIsDurable | crates/shbox/src/hostkey.rs:129-147 | a creator that published and has answered left a link no power loss can drop |
| HostKeys.UndisturbedCreation | crates/shbox/src/hostkey.rs:90-153 | without a key an undisturbed creator returns its own, published on disk, with its temporary file removed |
| HostKeys.LoserReturnsPublished | crates/shbox/src/hostkey.rs:129-136 | a creator that finds the path taken returns the key found there and removes its temporary file |
| HostKeys.FailsOnlyForCause | crates/shbox/src/hostkey.rs:35-153 | a call fails only if one of its system calls failed, its process died, power was lost or all its names were taken |
| HostKeys.FailedCallNeverAnswers | crates/shbox/src/hostkey.rs:90-153 | a call one of whose system calls failed never returns a key |
| HostKeys.TakenNamesNeverAnswer | crates/shbox/src/hostkey.rs:102-153 | a call that met eight taken names never returns a key |
| HostKeys.TempLeftOnlyForCause | crates/shbox/src/hostkey.rs:118-143 | no call leaves a temporary file behind unless its process died, power was lost or the removal failed |
| HostKeys.UnsyncedLinkMayBeReplaced | crates/shbox/src/hostkey.rs:130-147 | a power loss before the directory sync can break agreement |
| HostKeys.StepKeeps | crates/shbox/src/hostkey.rs:90-153 | every file-system call, failure, death and power loss keeps the invariant |
| Fingerprints.Base64Value | crates/shbox/src/auth.rs:71-79 | a byte is found exactly when it is a base64 symbol, with that symbol's value |
| Fingerprints.ReadValues | crates/shbox/src/auth.rs:86-90 | the sextet of every character, or the first bad position |
| Fingerprints.Assemble | crates/shbox/src/auth.rs:91-111 | the 32 bytes are those the sextets carry |
| Fingerprints.Decode | crates/shbox/src/auth.rs:81-111 | length, characters and trailing bits are checked in this order, and accepted bodies give their digest |
| Fingerprints.EncodeThenDecode | crates/shbox/src/auth.rs:1034-1051 | every 32-byte digest survives encoding and decoding |
| Fingerprints.DecodeThenEncode | crates/shbox/src/auth.rs:81-111 | every accepted body is the encoding of its digest |
| Fingerprints.AcceptsExactlyEncodings | crates/shbox/src/auth.rs:68-111 | the accepted bodies are exactly the canonical encodings, and distinct bodies mean distinct digests |
| ControlMessages.AlignIsLeast | crates/shbox/src/platform/idmap_broker.rs:1072-1075 | align is the least word multiple at or above its input |
| ControlMessages.AlignByMask | crates/shbox/src/platform/idmap_broker.rs:1072-1075 | masking the low three bits off the sum computes the same number, bit by bit, on words of any width the sum fits in |
| ControlMessages.SpaceIsAlignedLength | crates/shbox/src/platform/idmap_broker.rs:1060-1070 | the space of a record is its aligned length |
| ControlMessages.BuildControl | crates/shbox/src/platform/idmap_broker.rs:704-734 | the sender's buffer is one laid-out record, or a zeroed header for an empty list |
| ControlMessages.CollectPayload | crates/shbox/src/platform/idmap_broker.rs:820-842 | the payload loop reads exactly the descriptors of the payload, refusing a negative one |
| ControlMessages.CollectControlFds | crates/shbox/src/platform/idmap_broker.rs:788-849 | on arbitrary bytes the walker terminates with the result of the record-by-record definition |
| ControlMessages.WalkRoundTrip | crates/shbox/src/platform/idmap_broker.rs:788-849 | walking any concatenation of well-formed records returns their descriptor lists in order |
| ControlMessages.SendReceive | crates/shbox/src/platform/idmap_broker.rs:704-734 | what is sent is received; the header of an empty list is refused |
| ControlMessages.WalkStaysInside | crates/shbox/src/platform/idmap_broker.rs:788-849 | every descriptor returned is non-negative and has bytes of its own in the buffer |
| LittleEndian.LeRoundTrip | crates/shbox/src/platform/idmap_broker.rs:1083-1115 | a stored field reads back |
| LittleEndian.LeReadsAnything | crates/shbox/src/platform/idmap_broker.rs:1091-1115 | any bytes read as a number that stores back to them |
| LittleEndian.Put | crates/shbox/src/platform/idmap_broker.rs:1083-1089 | storing a field changes its own bytes only |
| BrokerFrames.Encode | crates/shbox/src/platform/idmap_broker.rs:189-200 | the encoder produces the wire layout |
| BrokerFrames.EncodeThenDecode | crates/shbox/src/platform/idmap_broker.rs:622-651 | every request that fits decodes to itself |
| BrokerFrames.DecodeThenEncode | crates/shbox/src/platform/idmap_broker.rs:622-651 | every accepted frame is the encoding of its request |
| BrokerFrames.AcceptsExactlyFrames | crates/shbox/src/platform/idmap_broker.rs:622-651 | the decoder accepts exactly the frames of requests |

## Left out

- The PID-namespace supervisor: PID 1 can fail after PID 2 exists, so the handshake results do not carry over.
- `kill_all`, `is_populated`, `wait_until_empty` and `remove_empty` of the cgroup object: they appear as steps with true readings and failing unlinks, not as a class over a directory with its polling intervals.
- `HostProcessLimiter`: one counter over the same acquisition loop, a special case of the admission counters.
- `force_stop` of host bridges: it signals what is in the map at that moment and changes nothing in it.
- Broker responses and the mount operations behind them: one fixed layout without further structure.
- BPF code generation, Landlock, capability and securebits rules, PTYs, signals, sessions, resource limits: unseen libraries or kernel rules.
- Key-file, authorized-keys and config parsing, permission checks, XDG paths, CLI and logging: straight-line checks.
- Timeouts are "may give up" steps; no liveness is claimed beyond the existence of a successful retry.
- A failed removal of the runtime temp tree is assumed to leave it in place; what its destructor does later is not part of this model.
- Concurrent sections are functions on values in the machines; the class methods over the same functions state the in-place update one section at a time.
