# Verified model of Masakari's recovery protocols

Masakari recovers the virtual machines of a failed compute host.  Several engines do this at the
same time over one etcd store, and the parts of it that are hard to get right are protocols: a
limit on concurrent starts, optimistic updates of records, a restartable evacuation workflow, the
fencing of failed hosts, and the life of a notification.  This project models those parts, and three
self-contained algorithms, and proves what they promise.

`dafny verify dfyconfig.toml` checks everything.

## How it is modelled

A protocol is a state machine with one step for every etcd, lock, database or Nova call of every
thread, plus steps for time, lease expiry and crashes; `Exec` runs a list of steps, and the main
lemmas quantify over all of them.  Beside it, the program is a class or a set of methods with the
loops and branches of the source.  In StartLimiter, FencingStore (over the machine of FencingRecord),
FencingTask (over that of FencingLock), FailureSet, NotificationManager (over that of
NotificationLifecycle) and NotificationAdmission any number of steps of the others happen before every
call, and each call is proved to be an enabled step, so that the lemmas about runs hold of the
program.  In EtcdRecords each finished call is proved to be at most one operation of a run.  The staged
tasks and the Redfish client have no machine: their contracts are about one execution, with arbitrary
answers to every call.

| file | what it models |
|---|---|
| StartLimiter.dfy | the start slots of a destination host: lock, TTL leases, acquire and release |
| EtcdRecords.dfy | create-or-get, update and transition of records by compare-and-replace |
| StagedEngine.dfy, ReconcileTask.dfy, EvacuateTask.dfy, BatchedStartTask.dfy, StagedWorkflow.dfy | the three staged recovery tasks and a whole run of them |
| FailureSet.dfy | registering and collecting the set of failed hosts, with its cap |
| FencingRecord.dfy, FencingStore.dfy | the fencing record of a host: registration, transition, proof |
| FencingLock.dfy | the segment and host locks over time: create under a lease, delete by key, revoke |
| FencingTask.dfy, FencedRecovery.dfy | the fencing task: locks, clean-up and the final proof; and what a failure goes through before its evacuation |
| RedfishClient.dfy | one fencing attempt, the wait for a stable power state, the retries |
| NotificationLifecycle.dfy, NotificationManager.dfy | the status of a notification inside one engine process |
| NotificationAdmission.dfy | duplicate suppression when notifications are created |
| KeySpace.dfy | percent-encoding of key parts (section 2.1 of RFC 3986, over UTF-8) and the etcd keys |
| ClassHierarchy.dfy, VersionSweep.dfy, RegexRange.dfy | the class walk, the microversion check, the regex ranges |
| Wrappers.dfy, FencingTypes.dfy, FiniteSets.dfy | shared types, cardinality facts |

## What is assumed

- An etcd operation is atomic, and a Tooz lock excludes other holders until its owner releases it or is dead.
- Records are equal exactly when their JSON is equal: `dumps` sorts the keys.
- The hosts of a segment have unique names, so a host name stands for its uuid.
- Python's list sort is stable; `APIVersionRequest` values compare lexicographically.
- The handlers of the manager return a status; an exception that escapes from one is not modelled.
- `expected_power_state` is `Off` and the reads, poll interval and limits are at least 1, as the
  option definitions enforce.
- A registration of a host failure is identified by its owner and time stamp: two of them never put the same record.
- Where a statement needs it, it says so.  `CallsFitMargin` and `FitsLease` bound the time spent in
  calls by the start slots' lease and by the fencing locks' lease; `Fits` does so for a whole
  segment, whose failure set has at most `max_auto_fence_hosts_per_segment` hosts.  `StoreUp`,
  `OnlyUpdatesRaise` and `Smooth` are for what holds only when no call of the record store, none but
  its updates, or no call at all raises, and `Quiet` for what holds only when nobody else acts.  All
  times are those of the calls: the program compares neither `lock_ttl` nor `slot_lease_ttl` with them.

## What was found

- **Start limit.** doc/source/configuration/staged_recovery.rst:88-90 says that a lease of
  start_timeout + batch_delay prevents the reuse of a slot, and the code validates no more.  It is
  not enough: the bound holds if and only if the calls of a holder fit strictly inside what the
  lease leaves beyond the two waits (`LimitHoldsIffCallsFit`, `AcceptedTtlIsNotEnough`).
- **Fencing proof.** A FENCED record is always newer than the last registration, but all its
  readings may be older: a registration between the last reading and `mark_fenced` is overwritten
  (`OlderProofAccepted`).  The readings are newer if and only if the replaced record is the one
  that was there at the first reading; a test for FENCING would be enough, though more than is
  needed (`ProofFreshIffUnchanged`, `FencingTestNotNecessary`), and `mark_fenced` makes neither.
- **Restart.** A rerun never evacuates an instance again that it finds settled, and it starts the
  stopped ones, but only if no VMove is FAILED, even one of an earlier attempt
  (`Recover`, `OldFailureBlocks`).
- **Evacuation.** A thread ends `Broken`, and is dropped by the pool, if and only if a call of Nova
  before its try block raised, or its handler's save or mark_failed did (`EvacuateAndConfirm`).  The
  task may return although its VMove is still pending (`BrokenThreadHides`).
- **Batched start.** If `mark_failed` itself raises, the exception is dropped.  An instance ends neither
  ACTIVE nor FAILED if and only if its record had no destination or every update of it was refused
  (`UnfinishedIff`); the task may then return although the record is left at STARTING
  (`RefusedUpdateHides`).  Only originally active instances count for the verdict, so with
  start_only_originally_active off a failed start of another one goes unreported.
- **Fencing locks.** The locks keep engines apart, and power-offs under both of them, if and only if
  the whole failure set, one host after the other, fits inside one `lock_ttl`
  (`ProtectedIffFits`); the default of 300 seconds is compared with nothing.  A lock survives its
  task only if the answer of its create was lost or its delete was refused.
- **Start slots** survive their start exactly if the acquire lost its answer or the release was
  refused (`BatchedStartTask.Execute`).
- **Duplicate suppression** works if and only if a coordination backend is configured.
- **Versions.** A null end sorts first and counts down, so each method without an upper bound hides
  one overlap (`SweepDecides`, `UnboundedOverlapAccepted`); a refused method stays registered.

## Model

| member | source | states |
|---|---|---|
| StartLimiter.LimitHoldsIffCallsFit | masakari/engine/drivers/taskflow/staged_limiter.py:54-96 | for every lease time of at least one unit: in every run of any number of engines the starts in flight on every host stay within the largest limit in force, if and only if the calls of one holder fit strictly inside slot_lease_ttl - (start_timeout + batch_delay) |
| StartLimiter.StartsInFlightWithinLimit | masakari/engine/drivers/taskflow/staged_limiter.py:69-96 | with that margin, starts in flight <= live leases <= largest limit in force, in every interleaving with expiry, crashes and limit changes |
| StartLimiter.LiveSlotsWithinLimit | masakari/engine/drivers/taskflow/staged_limiter.py:81-92 | without any timing assumption, the live leases of a host never exceed the largest limit in force so far (the limit itself when it is fixed) |
| StartLimiter.CreationRespectsLimitRead | masakari/engine/drivers/taskflow/staged_limiter.py:81-90 | with a changing runtime limit, each lease creation leaves a count within the limit that was read in that critical section |
| StartLimiter.ReleaseDeletesOwnLease | masakari/engine/drivers/taskflow/staged_state_etcd.py:424-436 | with the margin, the delete by key of a release removes the caller's own lease, still live, no other holder has that key, and the lease named in the record it read there is the caller's own too |
| StartLimiter.OverrunBreaksLimit | masakari/engine/drivers/taskflow/staged_host_failure.py:340-383 | without the margin there is a run under limit 1 with two starts in flight |
| StartLimiter.AcceptedTtlIsNotEnough | masakari/engine/drivers/taskflow/staged_limiter.py:54-60 | the validated minimum slot_lease_ttl = start_timeout + batch_delay is accepted and breaks the limit, even with calls that take no time; the margin implies the validated condition |
| StartLimiter.PeakIsLargest | masakari/engine/drivers/taskflow/staged_limiter.py:65-67 | the recorded peak is the largest limit that any step of the run put in force |
| StartLimiter.HolderStep | masakari/engine/drivers/taskflow/staged_host_failure.py:340-383 | each step of anybody keeps every holder's own live lease (its key, its lease id, its expiry) |
| StartLimiter.CreateStep | masakari/engine/drivers/taskflow/staged_limiter.py:81-90 | creating a key inside the lock keeps the live leases of every host within the limit and keeps what other lock holders know of the count |
| StartLimiter.Acquire | masakari/engine/drivers/taskflow/staged_limiter.py:69-92 | every call acquire makes is an enabled step of the machine, whatever runs in between, and any of them may raise; the lock is held at no exit, a slot is held exactly when one is returned, and when no call raises an exception means that the granted lease ran out before the create; it waits only if in every round the live leases it listed had reached the limit it then read, or its key was there; when no call raises, nobody interferes and the host lock is free, it returns a slot if the host has room |
| StartLimiter.Round | masakari/engine/drivers/taskflow/staged_limiter.py:79-92 | one round under the lock ends with a slot whose key this thread created, or with an exception, or back in the retry loop, and back only if on the way the live leases of its listing were at least the limit in force at its read of the limit, or its key was present at its create; when no call raises, nobody interferes and the live leases are below the limit and the key is free, it returns a slot |
| StartLimiter.CreateTheKey | masakari/engine/drivers/taskflow/staged_state_etcd.py:382-406 | the create may be refused, raise, or lose its answer; then the thread has no slot although the key is there |
| StartLimiter.Release | masakari/engine/drivers/taskflow/staged_state_etcd.py:424-436 | the record at the key is read, the key deleted, whoever owns it, and the lease revoked that the record named, if there was one; the key stays only if the delete was refused; when no call raises the key is deleted, and a lease revoked exactly if one was found; with the margin the lease found is the caller's own |
| EtcdRecords.UpdateInstanceState | masakari/engine/drivers/taskflow/staged_state_etcd.py:317-334 | a successful update patches the exact predecessor record, after all foreign writes of the call; a conflict is raised only after at least 8 foreign writes of that key; a missing record is NotFound; with a patch of the workflow the call is at most one operation of the runs of WriteOnceFields |
| EtcdRecords.TransitionInstanceState | masakari/engine/drivers/taskflow/staged_state_etcd.py:336-359 | the same for transitions, which are declined exactly when the step they read is not an expected one |
| EtcdRecords.PatchRound | masakari/engine/drivers/taskflow/staged_state_etcd.py:320-332 | a lost replace means that somebody wrote the key between the get and the replace |
| EtcdRecords.CreateOrGetInstanceState | masakari/engine/drivers/taskflow/staged_state_etcd.py:219-228 | an existing record is never overwritten; the result is what the key holds afterwards; only an absent key gets the base record: it names its notification and its instance, is DISCOVERED, unattempted and without an error, by this owner and at a time of the call, and holds every value given |
| EtcdRecords.BaseStateIsNew | masakari/engine/drivers/taskflow/staged_state_etcd.py:201-217 | the fields of a new record, one by one: a value given for a field overrides its default, and there are no others |
| EtcdRecords.WriteOnceFields | masakari/engine/drivers/taskflow/staged_state_etcd.py:317-359 | over every run of all engines, original_vm_state and every other field outside the workflow's patches keep the value of their creation |
| EtcdRecords.IsOperation | masakari/engine/drivers/taskflow/staged_state_etcd.py:317-359 | a finished call of the loops is at most one operation of such a run, so the runs are those of the program |
| EtcdRecords.PatchedFields | masakari/engine/drivers/taskflow/staged_state_etcd.py:325-329 | patched fields take the patch's values and every other field survives |
| EtcdRecords.Client.Replace | masakari/engine/drivers/taskflow/staged_state_etcd.py:331 | compare-and-replace over foreign writes: it writes exactly when the key still holds the value read |
| StagedEngine.PatchedView | masakari/engine/drivers/taskflow/staged_state_etcd.py:317-334 | no patch of the workflow changes the original state of a record |
| StagedEngine.Engine.Update | masakari/engine/drivers/taskflow/staged_state_etcd.py:317-334 | every single write of the workflow keeps the invariant that a record waiting for its start has a destination, so a crash at any point keeps it; the record changes exactly if the call is not refused and the record is there, and the call is logged with its step and its reply |
| StagedEngine.NoneWrittenIff | masakari/engine/drivers/taskflow/staged_state_etcd.py:317-334 | no update of an instance took effect if and only if all of them were refused |
| StagedEngine.Engine.Transition | masakari/engine/drivers/taskflow/staged_state_etcd.py:336-359 | a transition moves the step exactly when it is an expected one, and never into EVACUATED_STOPPED |
| ReconcileTask.Execute | masakari/engine/drivers/taskflow/staged_host_failure.py:143-154 | after a normal return every record is what folding Nova's answers over the VMoves makes of it |
| ReconcileTask.ReconcileOne | masakari/engine/drivers/taskflow/staged_host_failure.py:108-141 | one VMove: the record is created if missing and its step, destination and current state follow the server, with the rewriting of final steps, the destination being the host that Nova reports |
| ReconcileTask.SettledIsSkipped | masakari/engine/drivers/taskflow/staged_host_failure.py:127-136 | an instance seen active or stopped off its source host ends at a step that the evacuation skips, whatever its record said and whatever its other VMoves showed |
| ReconcileTask.LastSettledDecides | masakari/engine/drivers/taskflow/staged_host_failure.py:127-136 | the last such sighting decides: ACTIVE iff it ran, EVACUATED_STOPPED iff it was stopped and may be started, IGNORED otherwise |
| ReconcileTask.OriginalKept | masakari/engine/drivers/taskflow/staged_host_failure.py:108-118 | reconciling never changes the original state of an existing record |
| ReconcileTask.ActiveNotIgnored | masakari/engine/drivers/taskflow/staged_host_failure.py:127-136 | an originally active instance is IGNORED after reconciling only if its record said so before |
| ReconcileTask.OthersKept | masakari/engine/drivers/taskflow/staged_host_failure.py:147-154 | records of instances without a VMove are left alone |
| EvacuateTask.Execute | masakari/engine/drivers/taskflow/staged_host_failure.py:270-306 | no instance recorded as evacuated is evacuated again, none twice, and only those with a pending or ongoing VMove; FailedMoves is raised exactly when some VMove is FAILED at the end, and failures of earlier runs stay; on a normal return earlier records are untouched and every target was skipped or confirmed, unless its thread ended Broken; when no call raises, no thread does and every target not evacuated before is evacuated; when Nova is down all do, and the task still returns; when no call raises, it returns if and only if no row was FAILED before and every evacuation made was confirmed |
| EvacuateTask.EvacuateAndConfirm | masakari/engine/drivers/taskflow/staged_host_failure.py:213-268 | one green thread: skipped without a call, or confirmed off its source with the row SUCCEEDED and the record ACTIVE or EVACUATED_STOPPED, or FAILED on both; Broken if and only if GetServer or the lock raised before the try block, and then nothing is changed, or the save or the mark_failed of the handler raised; a server stays locked only if an exception left the thread; when no call raises, a thread that evacuates ends confirmed if Nova's answers after its call confirm it in time, and FAILED if not |
| EvacuateTask.BrokenThreadHides | masakari/engine/drivers/taskflow/staged_host_failure.py:213-219 | a concrete run: Nova refuses every call, and the task returns normally with its VMove still PENDING and no evacuation asked for |
| EvacuateTask.TryEvacuate | masakari/engine/drivers/taskflow/staged_host_failure.py:221-257 | the try block: an instance at a skipped step costs no evacuate call and leaves record and row unchanged |
| EvacuateTask.HandleFailure | masakari/engine/drivers/taskflow/staged_host_failure.py:258-263 | the row says FAILED before the record does; the handler returns exactly if its save and its update return and the record is there |
| EvacuateTask.WaitForConfirmation | masakari/engine/drivers/taskflow/staged_host_failure.py:176-198 | it returns exactly if some answer of Nova, the first or one of the configured polls, shows the server off its source host and stopped or active, every call up to it returned, and no earlier answer of the loop says error; what it returns is the first such answer |
| EvacuateTask.TargetRows | masakari/engine/drivers/taskflow/staged_host_failure.py:164-174 | one row for every instance with a pending or ongoing row: the last ongoing one, or else the last pending one |
| EvacuateTask.RunTargets | masakari/engine/drivers/taskflow/staged_host_failure.py:291-296 | over all threads: rows and records without a thread are untouched, and the outcome of each thread still stands at the end |
| BatchedStartTask.Execute | masakari/engine/drivers/taskflow/staged_host_failure.py:385-417 | every listed EVACUATED_STOPPED instance ends IGNORED, or where the updates of its start leave it; all other records stay; starts are of candidates only, once each; every slot whose acquire returned is released, and a slot stays held exactly if its acquire lost the answer or its release was refused; FailedStarts is raised exactly when some originally active instance is FAILED at the end; on a normal return an originally active candidate is ACTIVE exactly if it had a destination and not all its updates were refused; when the store is up all candidates end ACTIVE or FAILED, and when only updates raise all are started; when the store is up, a candidate ends ACTIVE if and only if its start call was made in this run and the first decisive answer after it was active |
| BatchedStartTask.WaitForStart | masakari/engine/drivers/taskflow/staged_host_failure.py:322-338 | it returns exactly if some answer of Nova, the first or one of the configured polls, is active or error and every call up to it returned; what it returns is the first such answer |
| BatchedStartTask.StartOne | masakari/engine/drivers/taskflow/staged_host_failure.py:340-383 | one start ends at the step of its last update that took effect, ACTIVE only after a start call, or on the way if none did, and at STARTING if nothing but updates raised; without a destination nothing happens; the release is called on every way out once the acquire returned; the update of the try block says ACTIVE exactly if the first decisive answer of Nova was active, and FAILED if it was error, so when the store is up the record ends ACTIVE exactly then; the slot asked for is one of the record's destination |
| BatchedStartTask.UnfinishedIff | masakari/engine/drivers/taskflow/staged_host_failure.py:355-373 | a candidate ends neither ACTIVE nor FAILED if and only if it had no destination or every update of its record was refused |
| BatchedStartTask.RefusedUpdateHides | masakari/engine/drivers/taskflow/staged_host_failure.py:340-417 | a concrete run: only updates of records are refused, the originally active instance is started, and the task returns normally with its record left at STARTING |
| BatchedStartTask.SlotsStep | masakari/engine/drivers/taskflow/staged_host_failure.py:374-383 | one more start keeps the account of the slots: who holds one after any starts, however their limiter calls ended |
| BatchedStartTask.Choose | masakari/engine/drivers/taskflow/staged_host_failure.py:389-399 | the candidates are exactly the listed EVACUATED_STOPPED instances that may be started, each once, and the others of that step become IGNORED |
| BatchedStartTask.Accounting | masakari/engine/drivers/taskflow/staged_host_failure.py:385-417 | where every record of the notification ends follows from the choice and the updates of the threads |
| BatchedStartTask.ActiveUnlessRefused | masakari/engine/drivers/taskflow/staged_host_failure.py:408-417 | when no originally active instance is FAILED, an originally active candidate is ACTIVE exactly if it had a destination and not every update of its record was refused |
| BatchedStartTask.Verdict | masakari/engine/drivers/taskflow/staged_host_failure.py:408-417 | the final listing raises exactly for an originally active FAILED instance |
| StagedWorkflow.Recover | masakari/engine/drivers/taskflow/staged_host_failure.py:102-417 | a whole run from any records and rows: what Reconcile saw settled is never evacuated; when BatchedStart is reached every such stopped, originally active instance is a candidate and is accounted for; BatchedStart is not reached while any VMove is FAILED, and when no call raises that is the only reason; when no call raises and the run returns, every originally active instance with a pending or ongoing VMove ends ACTIVE, unless its record said IGNORED before the run |
| StagedWorkflow.TargetsBrought | masakari/engine/drivers/taskflow/staged_host_failure.py:291-306 | after evacuations that returned, no thread Broken, every originally active target is ACTIVE or waits for its start, unless it was IGNORED before |
| StagedWorkflow.StillCandidates | masakari/engine/drivers/taskflow/staged_host_failure.py:385-399 | the evacuations keep as candidates what Reconcile left EVACUATED_STOPPED |
| StagedWorkflow.OldFailureBlocks | masakari/engine/drivers/taskflow/staged_host_failure.py:298-306 | a concrete rerun: no call raises, an originally active evacuated instance still waits for its start afterwards, and the run raised before any start because the row of another instance says FAILED from an earlier attempt |
| FailureSet.CapOverRuns | masakari/engine/drivers/taskflow/fenced_host_failure.py:87-121 | any successful collections of one segment whose records still count at the last registrant's listing are together within the cap and leave the required survivors |
| FailureSet.CapExceededOnlyByAge | masakari/engine/drivers/taskflow/fencing_state_etcd.py:186-211 | more successes than the cap need a record that no longer counted at a later listing |
| FailureSet.ListingStep | masakari/engine/drivers/taskflow/fenced_host_failure.py:90-99 | register-before-list: whoever registered no later than a listing engine is in its listing, kept by every step |
| FailureSet.Collector.Execute | masakari/engine/drivers/taskflow/fenced_host_failure.py:87-121 | every call is an enabled step of the machine and any may raise; the failure is registered before the listing, which contains it; the set is returned exactly when it is within the cap, mapped and leaves enough survivors; otherwise the first failing check is named |
| FailureSet.GroupHosts | masakari/engine/drivers/taskflow/fenced_host_failure.py:96-102 | the grouped hosts are those of the recent failures of the segment and the failed host itself, and nobody else: a record of another event, or older than the window, puts no host into the set |
| FailureSet.FailureSetHosts | masakari/engine/drivers/taskflow/fencing_state_etcd.py:186-211 | a host is in the failure set if and only if it is the failed one or some record of the segment for it is of the event (window 0) or not older than the window |
| FailureSet.ListRecentFailures | masakari/engine/drivers/taskflow/fencing_state_etcd.py:186-211 | exactly the rows of the event (window 0) or not older than the window |
| FencingRecord.FencedCarriesProof | masakari/engine/drivers/taskflow/fencing_state_etcd.py:217-263 | in every run, whatever the leases do, a FENCED record says Off with at least the required reads and was recorded after the latest registration |
| FencingRecord.ProofFreshIffUnchanged | masakari/engine/drivers/taskflow/fencing_state_etcd.py:153-263 | when the section fits the lease: the readings behind a FENCED record began after the latest registration if and only if the record that mark_fenced replaced was the very record that was there at the first reading; that it was still FENCING suffices |
| FencingRecord.MarkIsFreshIffUnchanged | masakari/engine/drivers/taskflow/fencing_state_etcd.py:238-263 | the same as tests the engine could make on the record it holds before its replace |
| FencingRecord.OlderProofAccepted | masakari/engine/drivers/taskflow/fencing_state_etcd.py:256-263 | a run in which a proof is accepted all of whose readings were made before the latest registration |
| FencingRecord.FencingTestNotNecessary | masakari/engine/drivers/taskflow/redfish_fencing.py:254-281 | a run in which the replaced record is no longer FENCING and every reading is nevertheless newer than the latest registration |
| FencingRecord.OneFencerAtATime | masakari/engine/drivers/taskflow/fenced_host_failure.py:149-184 | if the time from the grant of the lease to the delete of the key stays below lock_ttl, two engines are never inside one host's fencing section, whichever calls raise |
| FencingRecord.GatherStep | masakari/engine/drivers/taskflow/fencing_state_etcd.py:153-184 | between the transition and the mark the record is FENCING if nobody registered since the transition and FENCE_REQUIRED if somebody did |
| FencingRecord.ReadStep | masakari/engine/drivers/taskflow/fencing_state_etcd.py:166-184 | from the first reading to the mark the record is the one of the first reading exactly if nobody registered since |
| FencingStore.Store.RegisterHostFailure | masakari/engine/drivers/taskflow/fencing_state_etcd.py:166-184 | the put rests on a record that was there during the call and overwrites whatever is there by then; a raising call comes before the put or after it |
| FencingStore.Store.TransitionToFencing | masakari/engine/drivers/taskflow/fencing_state_etcd.py:217-236 | success leaves the record FENCING by this engine, giving up means the record was in no expected state; at most 8 rounds of two calls, and without raising calls a conflict takes all 8; with nobody else about and no call raising it succeeds exactly if the record asks for fencing |
| FencingStore.Store.MarkFenced | masakari/engine/drivers/taskflow/fencing_state_etcd.py:238-263 | a return means that the record is FENCED by this event with these readings; at most 8 rounds |
| FencingStore.Store.MarkFenceFailed | masakari/engine/drivers/taskflow/fencing_state_etcd.py:265-271 | it always gets to the release; a replace that hit leaves FENCE_FAILED by this event and this engine; when no call raises, only a missing record or 8 rounds lost to others prevent it |
| FencingStore.Store.FenceOne | masakari/engine/drivers/taskflow/fenced_host_failure.py:149-184 | every operation is an enabled step of the machine and any may raise; on every way out the engine is outside the section, and the lock key is its own only if the create lost its answer or the delete was refused; if it fenced the host, the record was FENCED on the way; with nobody else about and no call raising it does exactly if the lock is free and the record is FENCED already, or asks for fencing and the power-off is proved |
| FencingLock.ProtectedIffFits | masakari/engine/drivers/taskflow/fenced_host_failure.py:149-202 | for every lock_ttl of at least one unit: in every run no two tasks are inside one segment or one host, and hosts are powered off only by the owner of both keys, if and only if the time outside hosts plus the time with all hosts of a full failure set is below lock_ttl |
| FencingLock.OwnerRun | masakari/engine/drivers/taskflow/fencing_state_etcd.py:295-349 | with that budget, whoever is inside a section owns its key under its own lease, although the delete is by key |
| FencingLock.KeysStay | masakari/engine/drivers/taskflow/fencing_state_etcd.py:333-349 | with that budget, no step of others takes a key whose lease has not run out |
| FencingLock.SectionFits | masakari/engine/drivers/taskflow/fenced_host_failure.py:186-202 | a segment section takes the time outside hosts plus at most the budget of each host |
| FencingLock.Overrun | masakari/engine/drivers/taskflow/fenced_host_failure.py:149-202 | without that budget there are runs that power a host off without the segment's lock and that have two tasks in one segment |
| FencingLock.HostFits | masakari/engine/drivers/taskflow/fenced_host_failure.py:149-152 | the budget of the segment section implies the one that the fencing record asks of a single host |
| FencingTask.Engine.Execute | masakari/engine/drivers/taskflow/fenced_host_failure.py:186-202 | every lock operation is an enabled step of the lock machine; on every way out the task is in no section and owns nothing beyond what it owned but for keys left by a lost create or a refused delete; when the sections fit lock_ttl, hosts are powered off only under both locks and every deleted key is the task's own; hosts are taken in order up to the first failure; a failed power-off is marked and its client closed before the key goes; a normal return has read every host FENCED and Off; when no call raises and the segment's key was taken, it returns if and only if the loop got through and every record read after it proves its host fenced, and the loop ends early only at a host whose key was somebody's, whose lease ran out, or whose try failed |
| FencingTask.Engine.FenceOne | masakari/engine/drivers/taskflow/fenced_host_failure.py:149-184 | the same for one host and its lock |
| FencingTask.Engine.TryFence | masakari/engine/drivers/taskflow/fenced_host_failure.py:158-175 | it returns exactly if the transition returns and then either the record was to be fenced and configuration, client, power-off and mark all succeed, or the record read next is FENCED; it refuses a host only if its record was not to be fenced when the transition was tried |
| FencingTask.Engine.AssertHostsFenced | masakari/engine/drivers/taskflow/fencing_state_etcd.py:273-293 | it returns exactly when every record read is FENCED with verified power state Off, and raises otherwise only for a call that did |
| FencingTask.Engine.AcquireLock | masakari/engine/drivers/taskflow/fencing_state_etcd.py:295-313 | the lock is taken for lock_ttl, or somebody had it on the way, or an exception is raised, which leaves the key only if the create took effect |
| FencingTask.Engine.ReleaseLock | masakari/engine/drivers/taskflow/fencing_state_etcd.py:333-349 | the key is deleted whoever owns it; it is the task's own when the sections fit lock_ttl, and then it is still there if the delete was refused |
| FencingTask.Engine.OwnsBoth | masakari/engine/drivers/taskflow/fenced_host_failure.py:149-202 | in every run of sections that fit, a task in the section of a host owns the keys of the host and of its segment |
| FencedRecovery.Recover | masakari/engine/drivers/taskflow/fenced_host_failure.py:87-214 | whoever gets past the assertion has a failure set with its own failure in it, within the cap and with the survivors left, and has read each of its hosts as FENCED and Off; when no call raises it gets past exactly if the set is accepted and, with the segment's key taken, every host is fenced and both readings of all hosts say so |
| RedfishClient.Client.FenceOff | masakari/engine/drivers/taskflow/redfish_fencing.py:300-313 | at most max_attempts resets, each sent right after a payload that identified the host and allowed the reset type; only request errors are retried; every failed attempt failed for what it saw last; a normal return carries the proof of its last readings, with the target of the reset sent before them or advertised by the payload that made it needless; no failed attempt had a row of readings that got stable, so it returns if and only if the row of its last attempt did, and a time-out leaves a row that was read and a wait whose time is over |
| RedfishClient.Client.WaitForPowerOff | masakari/engine/drivers/taskflow/redfish_fencing.py:254-281 | a proof at, and only at, the first payload completing the required row of expected readings, all identified, asked for before the deadline; a time-out means no such point; terminates lexicographically |
| RedfishClient.Client.FenceOnce | masakari/engine/drivers/taskflow/redfish_fencing.py:283-298 | at most one reset, and the wait begins only with the power off already or the reset sent; it returns exactly if the row of its wait gets stable, and times out only with a row that was read and after the time of the wait |
| RedfishClient.Client.ValidateSystemIdentity | masakari/engine/drivers/taskflow/redfish_fencing.py:210-228 | accepted exactly when every configured guard matches |
| RedfishClient.Client.ReadSystem | masakari/engine/drivers/taskflow/redfish_fencing.py:242-245 | a returned payload has a valid identity; a mismatch was read, not returned |
| RedfishClient.Client.Authenticate | masakari/engine/drivers/taskflow/redfish_fencing.py:169-199 | success means authenticated, nothing but plain requests is sent, and it is done once |
| RedfishClient.TrailingExpected | masakari/engine/drivers/taskflow/redfish_fencing.py:261-277 | the counter counts payloads that do show the expected state |
| RedfishClient.OneMorePayload | masakari/engine/drivers/taskflow/redfish_fencing.py:261-277 | the counter after one more payload, and when the row is first complete |
| RedfishClient.AttemptAppend | masakari/engine/drivers/taskflow/redfish_fencing.py:300-313 | one more attempt behind a request error keeps the promises of the whole log |
| RedfishClient.Client.Close | masakari/engine/drivers/taskflow/redfish_fencing.py:201-208 | afterwards no session is remembered, whatever the delete answered, and nothing else is sent |
| RedfishClient.FenceAndClose | masakari/engine/drivers/taskflow/fenced_host_failure.py:170-184 | the client is closed on every way out of the power-off |
| NotificationLifecycle.RecoveredAtMostTwice | masakari/engine/manager.py:276-336 | in any run of one engine process, whatever rows earlier processes left, the handler of a notification is started at most once from NEW copies, at most once from an ERROR copy, and from no other |
| NotificationLifecycle.RecoveredTwice | masakari/engine/manager.py:410-446 | the bound is met: the retry does run the handler a second time |
| NotificationLifecycle.SettledAfterRetry | masakari/engine/manager.py:410-446 | after the retry, of a row in ERROR from an earlier process too, the row is FAILED, IGNORED or FINISHED whenever the periodic thread is idle |
| NotificationLifecycle.OneHandlerPerHost | masakari/utils.py:263-284 | two handlers never run at once for notifications of one host, whatever rows the process found |
| NotificationLifecycle.ErrorStep | masakari/engine/manager.py:360-474 | once a handler ran from an ERROR copy, no step of anybody lets it run from one again |
| NotificationLifecycle.NewStep | masakari/engine/manager.py:289-304 | once a handler ran from a NEW copy, no thread is or gets cleared to start it from one again |
| NotificationLifecycle.WriteHasReason | masakari/engine/manager.py:276-474 | in every run every change of a status has its reason: FAILED is written to an overdue row of the expiry task or one just re-read in ERROR, ERROR to one just read as RUNNING or for a handler that returned it, RUNNING by a thread that just passed the guard, FINISHED and IGNORED for a handler that returned them or a disabled segment; nothing is written NEW |
| NotificationManager.Process.ProcessLocked | masakari/engine/manager.py:276-336 | _process_notification: a NEW copy is skipped, and no handler started by this thread, exactly when the row read under the lock has left NEW; otherwise this thread saves RUNNING, starts the handler exactly once, and saves its result; the lock is released both ways; with nobody else about it is blocked exactly by a taken lock, and the only row it writes ends as the handler says |
| NotificationManager.Process.Guard | masakari/engine/manager.py:286-304 | the guard against recovering twice: cleared exactly when the copy is not NEW or the row, read again under the lock, still is |
| NotificationManager.Process.Recover | masakari/engine/manager.py:306-332 | this thread saves RUNNING, starts the handler exactly once, gets its result and saves exactly its status |
| NotificationManager.Process.ProcessNotification | masakari/engine/manager.py:338-354 | a disabled segment makes the row IGNORED without processing; otherwise it is processed from a NEW copy |
| NotificationManager.Process.ProcessUnfinished | masakari/engine/manager.py:410-446 | exactly the rows in ERROR or NEW are listed, and the task ends with all of them gone through; with nobody else about and no lock taken every listed row ends as its handler says, FAILED if that is ERROR again, or stays NEW while it is young, and no other row is written |
| NotificationManager.Process.GiveUp | masakari/engine/manager.py:427-440 | the row is read again after the processing and saved as FAILED if and only if it is in ERROR then |
| NotificationManager.Process.CheckExpired | masakari/engine/manager.py:448-474 | exactly the unsettled rows are listed and gone through; the step of each listed row writes FAILED to it if it is overdue and nothing if it is not, and the task makes no other writes, with or without others in between; with nobody else about just the overdue rows are FAILED at the end |
| NotificationManager.Process.ProcessStale | masakari/engine/manager.py:360-408 | all stale notifications are gone through; each was not RUNNING when it was read or is saved as ERROR; with nobody else about just the rows found RUNNING are in ERROR at the end |
| NotificationManager.Process.ListByStatus | masakari/engine/manager.py:411-417 | one copy of each row with such a status |
| NotificationAdmission.SuppressedIffLocked | masakari/ha/api.py:274-341 | from any stored notifications that are so to begin with, host notifications with equal payload stay more than the detection interval apart, in creation order, if and only if a coordination backend is configured |
| NotificationAdmission.Api.CreateNotification | masakari/ha/api.py:295-337 | every call is an enabled step of the machine; a row is stored, once, exactly when the host is known, in service, and nothing stored duplicated it at the check; with the lock nothing duplicates it when it is stored either; the lock is released on every way out; with nobody else about it is blocked exactly by a taken lock and adds no other row |
| NotificationAdmission.Api.IsDuplicateNotification | masakari/ha/api.py:274-293 | true exactly when a stored row has the same type, host and payload and was generated since the interval began, so a different payload is never refused as a duplicate |
| NotificationAdmission.PassedStep | masakari/ha/api.py:339-341 | what the duplicate check found still holds when the row is stored, because the lock is held |
| ClassHierarchy.WalkClassHierarchy | masakari/utils.py:122-132 | for every acyclic hierarchy: every proper descendant exactly once, each class after all its direct subclasses |
| ClassHierarchy.DescendantsFirst | masakari/utils.py:122-132 | so every class comes after every class that descends from it |
| ClassHierarchy.Walker.Visit | masakari/utils.py:126-132 | one subclass of the loop: encountered once, drilled down, then yielded; the number of unencountered classes decreases |
| VersionSweep.SweepCounts | masakari/api/openstack/wsgi.py:972-999 | for every list whatever, ends below starts included: an intersection is reported exactly when at some end point the intervals started exceed the intervals ended by more than one |
| VersionSweep.SweepDecides | masakari/api/openstack/wsgi.py:972-999 | so for lists whose ends are missing or not below their starts: exactly when at some end point the open intervals exceed one by more than the number of methods without an upper bound |
| VersionSweep.BoundedSweepDecides | masakari/api/openstack/wsgi.py:972-999 | for bounded lists: reported exactly when an interval starts within another, touching points in list order |
| VersionSweep.ReportedShareVersion | masakari/api/openstack/wsgi.py:972-999 | a reported intersection is real: two closed intervals share a version |
| VersionSweep.StrictOverlapReported | masakari/api/openstack/wsgi.py:972-999 | two intervals overlapping in more than an end point are reported |
| VersionSweep.AcceptedDispatchUnique | masakari/api/api_version_request.py:155-178 | in an accepted bounded list a version strictly inside one interval matches no other method |
| VersionSweep.UnboundedOverlapAccepted | masakari/api/openstack/wsgi.py:972-999 | with null ends the check is blind: two methods serving all versions from 1.0 on are accepted |
| VersionSweep.CheckForVersionsIntersection | masakari/api/openstack/wsgi.py:972-999 | the loop computes exactly what the sweep specification says |
| VersionSweep.Registry.Register | masakari/api/openstack/wsgi.py:917-953 | accepted exactly when no intersection is reported; the list is then the same methods by descending start; a refused method stays appended; accepted bounded lists dispatch unambiguously |
| VersionSweep.Registry.Select | masakari/api/openstack/wsgi.py:862-889 | the selected method matches; no method is skipped; inside an interval of an unambiguous list it is that interval's method |
| VersionSweep.SortsDescending | masakari/api/openstack/wsgi.py:951 | sorting by start in reverse order gives descending starts |
| KeyCodec.RoundTrip | masakari/engine/drivers/taskflow/staged_state_etcd.py:69-74 | decoding an encoded key part gives it back, for every string |
| KeyCodec.NoSlash | masakari/engine/drivers/taskflow/staged_state_etcd.py:69-70 | an encoded key part has no slash in it |
| KeyCodec.EncodeInjective | masakari/engine/drivers/taskflow/staged_state_etcd.py:69-70 | different key parts have different encodings |
| KeySpace.StagedKeysInjective | masakari/engine/drivers/taskflow/staged_state_etcd.py:143-164 | different records of the staged store never share a key, across kinds too |
| KeySpace.NotificationQueryExact | masakari/engine/drivers/taskflow/staged_state_etcd.py:149-151 | the prefix query of a notification returns exactly its instances |
| KeySpace.StartLeaseQueryExact | masakari/engine/drivers/taskflow/staged_state_etcd.py:153-161 | the prefix query of a host returns exactly its start leases |
| KeySpace.FencingKeysInjective | masakari/engine/drivers/taskflow/fencing_state_etcd.py:101-122 | different records and locks of the fencing store never share a key |
| KeySpace.FailuresQueryExact | masakari/engine/drivers/taskflow/fencing_state_etcd.py:101-110 | the prefix query of a segment returns exactly its failures |
| RegexRange.BuildRegexRange | masakari/api/validation/parameter_types.py:60-116 | for every character predicate and scan length, the class body is well-formed, reads back as maximal disjoint ranges in order, and matches exactly the wanted characters, or exactly the others when inverted |
| RegexRange.ValidChar | masakari/api/validation/parameter_types.py:89-101 | the branches together decide: wanted, or not wanted when inverted |

## Left out

- Liveness of acquire under unfair scheduling, and at-most-once processing across engines: the program does not provide them.
- Green threads of the two pools run one after the other in EvacuateTask and BatchedStartTask: they work on different records and rows, so their order does not matter; the slots they compete for are modelled in StartLimiter.
- Outside writers during a staged run: the workflow is modelled without interference, which is what its restart promises; the loops under interference are in EtcdRecords.
- Asynchronous cancellation of a green thread (GreenletExit, KeyboardInterrupt) and loss of the process are crashes: steps of the machines, and arbitrary initial states of the staged workflow, but not a path through the try statements.
- EvacuateTask.WaitForConfirmation: the time-outs of the polling loops are a number of polls; poll intervals are not modelled.
- EvacuateTask.Begin: the aggregate and service calls that make a reserved host ready are one call that may raise.
- FencingTask.Engine.Execute: the compare-and-replace loops behind the record updates are single calls here; they are modelled in FencingRecord and FencingStore.
- FencingStore.Store.FenceOne: the Redfish requests of fence_off are the first reading and the return here; they are modelled in RedfishClient.
- StartLimiter.Acquire: a schedule lists what the other threads do before each call, and the retry loop ends with it; that a waiting thread is admitted is claimed only when nobody interferes, not under contention.
- NotificationManager.Process.ProcessStale: the coordination lock per notification around the read and the save is not modelled; the statements hold without it.
- The Boolean results, messages and VMove time stamps that no branch depends on, logging and progress notifications.
- JSON and ISO time stamps of records: datatypes and integer seconds; re.escape and the Unicode categories: tokens and an arbitrary predicate.
- etcd3gw, tooz, taskflow, SQLAlchemy, requests and Nova themselves: only their contracts and arbitrary answers.
- The staged admin configuration commands, REST controllers, schemas, policies and migrations, and the non-staged evacuation: validation branch by branch, without a property across them.
