/**
 * A whole run of the staged workflow: Reconcile, EvacuateToStopped and BatchedStart, one after the
 * other, each only if the one before returned.
 *
 * Nothing is said about the records and rows a run begins with, so every statement here holds
 * after a crash of an earlier run at any point whatever.
 */
module StagedWorkflow {
  import opened Wrappers

  import opened EtcdRecords
  import opened StagedEngine
  import R = ReconcileTask
  import E = EvacuateTask
  import B = BatchedStartTask

  /** The evacuate calls of this run. */
  function NewCalls(before: seq<string>, after: seq<string>): seq<string>
    requires before <= after
  {
    after[|before|..]
  }

  /** No instance that Reconcile saw active or stopped off its source host is evacuated again. */
  ghost predicate NotAgain(rows: seq<VMove>, seen: seq<Server>, calls: seq<string>) {
    && |seen| <= |rows|
    && forall i :: 0 <= i < |seen| && R.Settled(rows[i], seen[i]) ==> rows[i].instance !in calls
  }

  /**
   * Every instance that Reconcile saw last, among the settled ones, stopped and that may be
   * started is a start candidate.
   */
  ghost predicate CandidatesAgain(config: Config, rows: seq<VMove>, seen: seq<Server>, ready: map<string, View>) {
    && |seen| <= |rows|
    && forall i :: 0 <= i < |seen| && R.LastSettled(rows, seen, i) && !IsActive(seen[i]) ==>
                     rows[i].instance in ready && (B.Candidate(config, ready[rows[i].instance]) <==> Wanted(config, ready[rows[i].instance]))
  }

  /** In particular every stopped instance that was recorded as originally active. */
  ghost predicate OriginallyActiveAgain(config: Config, rows: seq<VMove>, seen: seq<Server>, before: map<string, View>,
                                        ready: map<string, View>) {
    && |seen| <= |rows|
    && forall i :: 0 <= i < |seen| && R.LastSettled(rows, seen, i) && !IsActive(seen[i])
                   && rows[i].instance in before && OriginallyActive(before[rows[i].instance]) ==>
                     rows[i].instance in ready && B.Candidate(config, ready[rows[i].instance])
  }

  /** An instance without a pending or ongoing row has the record that Reconcile left. */
  ghost predicate UntargetedKept(rows: seq<VMove>, middle: map<string, View>, after: map<string, View>) {
    forall x :: (forall j :: 0 <= j < |rows| && rows[j].instance == x ==> !E.Targeted(rows[j])) ==>
                  (x in middle <==> x in after) && (x in middle ==> after[x] == middle[x])
  }

  lemma SkipsAll(config: Config, views: map<string, View>, rows: seq<VMove>, seen: seq<Server>)
    requires |seen| <= |rows|
    ensures forall i :: 0 <= i < |seen| && R.Settled(rows[i], seen[i]) ==>
                          E.EvacuatedBefore(R.ReconciledAll(config, views, rows, seen), rows[i].instance)
  {
    forall i | 0 <= i < |seen| && R.Settled(rows[i], seen[i])
      ensures E.EvacuatedBefore(R.ReconciledAll(config, views, rows, seen), rows[i].instance)
    {
      R.SettledIsSkipped(config, views, rows, seen, i);
    }
  }

  /** The evacuations leave alone what Reconcile settled. */
  lemma StillCandidates(config: Config, views: map<string, View>, rows: seq<VMove>, seen: seq<Server>,
                        ready: map<string, View>)
    requires |seen| <= |rows|
    requires var middle := R.ReconciledAll(config, views, rows, seen);
             forall x :: E.EvacuatedBefore(middle, x) ==> x in ready && ready[x] == middle[x]
    ensures CandidatesAgain(config, rows, seen, ready) && OriginallyActiveAgain(config, rows, seen, views, ready)
  {
    forall i | 0 <= i < |seen| && R.LastSettled(rows, seen, i) && !IsActive(seen[i])
      ensures rows[i].instance in ready && (B.Candidate(config, ready[rows[i].instance]) <==> Wanted(config, ready[rows[i].instance]))
    {
      R.LastSettledDecides(config, views, rows, seen, i);
      R.SettledIsSkipped(config, views, rows, seen, i);
      assert E.EvacuatedBefore(R.ReconciledAll(config, views, rows, seen), rows[i].instance);
    }
    forall i | 0 <= i < |seen| && R.LastSettled(rows, seen, i) && !IsActive(seen[i])
               && rows[i].instance in views && OriginallyActive(views[rows[i].instance])
      ensures rows[i].instance in ready && B.Candidate(config, ready[rows[i].instance])
    {
      R.OriginalKept(config, views, rows, seen, rows[i].instance);
      R.SettledIsSkipped(config, views, rows, seen, i);
      assert E.EvacuatedBefore(R.ReconciledAll(config, views, rows, seen), rows[i].instance);
    }
  }

  /** Every targeted instance that was active originally is active, or waits for its start, or was ignored before. */
  ghost predicate ActiveOrWaiting(rows: seq<VMove>, before: map<string, View>, after: map<string, View>) {
    forall j :: 0 <= j < |rows| && E.Targeted(rows[j]) ==>
                  rows[j].instance in after && (OriginallyActive(after[rows[j].instance]) ==>
                                                  Brought(after[rows[j].instance].step) || IgnoredBefore(before, rows[j].instance))
  }

  predicate Brought(step: Value) { step == ACTIVE || step == EVACUATED_STOPPED }

  predicate IgnoredBefore(before: map<string, View>, x: string) {
    x in before && before[x].step == IGNORED
  }

  /** In the end it is active, or was ignored before. */
  ghost predicate ActiveAgain(rows: seq<VMove>, before: map<string, View>, after: map<string, View>) {
    forall j :: 0 <= j < |rows| && E.Targeted(rows[j]) ==>
                  rows[j].instance in after && (OriginallyActive(after[rows[j].instance]) ==>
                                                  after[rows[j].instance].step == ACTIVE || IgnoredBefore(before, rows[j].instance))
  }

  lemma TargetsBrought(config: Config, rows: seq<VMove>, before: map<string, View>, seen: seq<Server>, targets: seq<nat>,
                       ends: seq<E.End>, rowsAfter: seq<VMove>, after: map<string, View>)
    requires |seen| <= |rows| && E.DistinctInstances(rows, targets) && E.RowsAfter(targets, |targets|, rows, rowsAfter)
    requires var middle := R.ReconciledAll(config, before, rows, seen);
             forall x :: E.EvacuatedBefore(middle, x) ==> x in after && after[x] == middle[x]
    requires E.SkippedBefore(targets, ends, rows, R.ReconciledAll(config, before, rows, seen))
    requires forall j :: 0 <= j < |rows| && E.Targeted(rows[j]) ==> E.Ran(rows, targets, |targets|, rows[j].instance)
    requires |ends| == |targets| && E.NoneBroken(ends)
    requires forall l :: 0 <= l < |ends| ==>
               !ends[l].Failed? && targets[l] < |rowsAfter| && E.EndStands(ends[l], rowsAfter[targets[l]], after)
    ensures ActiveOrWaiting(rows, before, after)
  {
    forall j | 0 <= j < |rows| && E.Targeted(rows[j])
      ensures rows[j].instance in after
      ensures OriginallyActive(after[rows[j].instance]) ==>
                Brought(after[rows[j].instance].step) || IgnoredBefore(before, rows[j].instance)
    {
      var x := rows[j].instance;
      var l :| 0 <= l < |targets| && rows[targets[l]].instance == x;
      assert E.SameMove(rows[targets[l]], rowsAfter[targets[l]]);
      assert E.EndStands(ends[l], rowsAfter[targets[l]], after) && !ends[l].Broken?;
      if ends[l].Skipped? {
        R.ActiveNotIgnored(config, before, rows, seen, x);
      }
    }
  }

  lemma StartedActive(config: Config, rows: seq<VMove>, before: map<string, View>, ready: map<string, View>,
                      after: map<string, View>,
                      writes: seq<RecordWrite>, onlyUpdatesRaise: bool, candidates: seq<string>)
    requires ActiveOrWaiting(rows, before, ready) && B.Accounted(config, ready, after, writes, onlyUpdatesRaise)
    requires !B.OriginalFailed(after) && B.AllFinal(candidates, after)
    requires forall x :: x in ready && B.Candidate(config, ready[x]) ==> x in candidates
    ensures ActiveAgain(rows, before, after)
  {
    forall j | 0 <= j < |rows| && E.Targeted(rows[j])
      ensures rows[j].instance in after
      ensures OriginallyActive(after[rows[j].instance]) ==>
                after[rows[j].instance].step == ACTIVE || IgnoredBefore(before, rows[j].instance)
    {
      var x := rows[j].instance;
      assert x in ready && after[x].original == ready[x].original;
      if OriginallyActive(after[x]) && ready[x].step == EVACUATED_STOPPED {
        assert B.Candidate(config, ready[x]) && x in candidates;
        assert x in after && OriginallyActive(after[x]) && !(after[x].step == FAILED);
      }
    }
  }

  /** What EvacuateToStopped makes of the records that Reconcile left. */
  ghost predicate EvacuatedAfter(config: Config, rows: seq<VMove>, before: map<string, View>, seen: seq<Server>,
                                 rowsAfter: seq<VMove>, after: map<string, View>) {
    && |seen| == |rows| && CandidatesAgain(config, rows, seen, after)
    && OriginallyActiveAgain(config, rows, seen, before, after)
    && !E.HasFailedRow(rowsAfter) && !E.HasFailedRow(rows)
  }

  /** EvacuateToStopped, after Reconcile. */
  method EvacuateNext(e: Engine, reservedHost: bool, ghost rows: seq<VMove>, ghost before: map<string, View>,
                      ghost seen: seq<Server>)
    returns (r: Result<()>)
    requires rows == e.vmoves && |seen| == |rows| && e.Views() == R.ReconciledAll(e.config, before, rows, seen)
    modifies e`calls, e`records, e`writes, e`vmoves, e`evacuated, e`evacuatedAt, e`resets, e`lockedServers
    ensures old(e.evacuated) <= e.evacuated
    ensures NotAgain(rows, seen, NewCalls(old(e.evacuated), e.evacuated))
    ensures r.Ok? ==> EvacuatedAfter(e.config, rows, before, seen, e.vmoves, e.Views())
    ensures r.Ok? && e.Smooth() ==> ActiveOrWaiting(rows, before, e.Views())
    ensures e.config.enabled && e.Smooth() ==> (r.Ok? <==> !E.HasFailedRow(e.vmoves))
    ensures UntargetedKept(rows, R.ReconciledAll(e.config, before, rows, seen), e.Views())
    ensures AllPlaced(old(e.Views())) ==> AllPlaced(e.Views())
  {
    ghost var middle := e.Views();
    SkipsAll(e.config, before, rows, seen);
    ghost var targets, ends;
    r, targets, ends := E.Execute(e, reservedHost);
    NoneAgain(rows, seen, targets, middle, old(e.evacuated), e.evacuated);
    NotTargetedKept(rows, targets, middle, e.Views());
    if r.Ok? {
      StillCandidates(e.config, before, rows, seen, e.Views());
      if e.Smooth() { TargetsBrought(e.config, rows, before, seen, targets, ends, e.vmoves, e.Views()); }
    }
  }

  /** Reconcile and EvacuateToStopped. */
  method ReconcileAndEvacuate(e: Engine, reservedHost: bool) returns (r: Result<()>, ghost seen: seq<Server>)
    modifies e`calls, e`records, e`writes, e`vmoves, e`evacuated, e`evacuatedAt, e`resets, e`lockedServers
    ensures old(e.evacuated) <= e.evacuated
    ensures NotAgain(old(e.vmoves), seen, NewCalls(old(e.evacuated), e.evacuated))
    ensures forall i :: 0 <= i < |seen| ==> e.Answered(seen[i])
    ensures r.Ok? ==> EvacuatedAfter(e.config, old(e.vmoves), old(e.Views()), seen, e.vmoves, e.Views())
    ensures e.config.enabled && e.Smooth() ==>
              && |seen| == |old(e.vmoves)| && (r.Ok? <==> !E.HasFailedRow(e.vmoves))
              && UntargetedKept(old(e.vmoves), R.ReconciledAll(e.config, old(e.Views()), old(e.vmoves), seen), e.Views())
    ensures e.Smooth() && r.Ok? ==> ActiveOrWaiting(old(e.vmoves), old(e.Views()), e.Views())
    ensures AllPlaced(old(e.Views())) ==> AllPlaced(e.Views())
  {
    ghost var rows0, views0 := e.vmoves, e.Views();
    r, seen := R.Execute(e);
    if r.Err? {
      assert NewCalls(e.evacuated, e.evacuated) == [];
      return;
    }
    r := EvacuateNext(e, reservedHost, rows0, views0, seen);
  }

  /**
   * One run.  seen is what Reconcile saw; started says that BatchedStart was reached, with the
   * records ready then.  From any records and rows:
   *
   * - no instance that Reconcile saw settled is evacuated, whatever happens later in the run;
   * - when BatchedStart is reached, every such stopped instance that may be started is a candidate
   *   with the original state its record had before, and what becomes of it is accounted for;
   * - BatchedStart is not reached while some row says FAILED, even from an earlier run, and when
   *   no call raises that is the only reason;
   * - if no call raises and the run returns, every instance with a pending or ongoing row that was
   *   active originally ends ACTIVE, unless its record said IGNORED before the run.
   */
  method Recover(e: Engine, reservedHost: bool)
    returns (r: Result<()>, ghost seen: seq<Server>, ghost started: bool, ghost ready: map<string, View>, ghost writes: seq<RecordWrite>)
    modifies e
    ensures |writes| <= |e.writes| && writes == e.writes[|e.writes| - |writes|..]
    ensures old(e.evacuated) <= e.evacuated
    ensures NotAgain(old(e.vmoves), seen, NewCalls(old(e.evacuated), e.evacuated))
    ensures started ==> |seen| == |old(e.vmoves)| && CandidatesAgain(e.config, old(e.vmoves), seen, ready)
                          && OriginallyActiveAgain(e.config, old(e.vmoves), seen, old(e.Views()), ready)
    ensures started ==> !E.HasFailedRow(e.vmoves) && !E.HasFailedRow(old(e.vmoves))
    ensures !started ==> r.Err? && e.started == old(e.started)
    ensures e.config.enabled && e.Smooth() ==> (started <==> !E.HasFailedRow(e.vmoves))
    ensures e.config.enabled && e.Smooth() && AllPlaced(old(e.Views())) && started ==> B.Decided(r)
    ensures started && B.Decided(r) ==>
              B.Accounted(e.config, ready, e.Views(), writes, e.OnlyUpdatesRaise()) && (r.Err? <==> B.OriginalFailed(e.Views()))
    ensures e.config.enabled && e.Smooth() && AllPlaced(old(e.Views())) && r.Ok? ==>
              ActiveAgain(old(e.vmoves), old(e.Views()), e.Views())
    ensures |seen| <= |old(e.vmoves)| && forall i :: 0 <= i < |seen| ==> e.Answered(seen[i])
    ensures e.config.enabled && e.Smooth() && !started ==>
              |seen| == |old(e.vmoves)|
              && UntargetedKept(old(e.vmoves), R.ReconciledAll(e.config, old(e.Views()), old(e.vmoves), seen), e.Views())
    ensures AllPlaced(old(e.Views())) ==> AllPlaced(e.Views())
    ensures e.Smooth() ==> e.slots.held <= old(e.slots.held)
  {
    started, ready, writes := false, map[], [];
    r, seen := ReconcileAndEvacuate(e, reservedHost);
    if r.Err? { return; }
    started, ready := true, e.Views();
    ghost var candidates, writes0 := [], e.writes;
    r, candidates := B.Execute(e);
    writes := B.NewWrites(writes0, e.writes);
    if r.Ok? && e.Smooth() && AllPlaced(ready) {
      StartedActive(e.config, old(e.vmoves), old(e.Views()), ready, e.Views(), writes, e.OnlyUpdatesRaise(), candidates);
    }
  }

  lemma NoneAgain(rows: seq<VMove>, seen: seq<Server>, targets: seq<nat>, middle: map<string, View>,
                  calls0: seq<string>, calls: seq<string>)
    requires |seen| <= |rows| && E.DistinctInstances(rows, targets)
    requires forall i :: 0 <= i < |seen| && R.Settled(rows[i], seen[i]) ==> E.EvacuatedBefore(middle, rows[i].instance)
    requires E.CallsAfter(targets, |targets|, rows, middle, calls0, calls)
    ensures NotAgain(rows, seen, NewCalls(calls0, calls))
  {
    forall i | 0 <= i < |seen| && R.Settled(rows[i], seen[i]) ensures rows[i].instance !in NewCalls(calls0, calls) {
      assert E.EvacuatedBefore(middle, rows[i].instance);
      assert forall m :: |calls0| <= m < |calls| ==> calls[m] == NewCalls(calls0, calls)[m - |calls0|];
    }
  }

  lemma NotTargetedKept(rows: seq<VMove>, targets: seq<nat>, middle: map<string, View>, after: map<string, View>)
    requires E.DistinctInstances(rows, targets) && forall k :: 0 <= k < |targets| ==> E.StandsFor(rows, targets[k])
    requires E.OthersKept(targets, |targets|, rows, middle, after)
    ensures UntargetedKept(rows, middle, after)
  {
    forall x | forall j :: 0 <= j < |rows| && rows[j].instance == x ==> !E.Targeted(rows[j])
      ensures !E.Ran(rows, targets, |targets|, x)
    {
      forall l | 0 <= l < |targets| ensures rows[targets[l]].instance != x {
        assert E.StandsFor(rows, targets[l]);
      }
    }
  }

  /** vm-1 was evacuated; the evacuation of vm-2 failed in an earlier attempt. */
  const OLD_ROWS: seq<VMove> := [
    VMove("vm-1", "vm-1", Some("host-a"), Some("host-b"), SucceededMove),
    VMove("vm-2", "vm-2", Some("host-a"), None, FailedMove)]

  /** vm-1 was active originally and waits for its start. */
  const OLD_VIEWS: map<string, View> := map["vm-1" := View(EVACUATED_STOPPED, Text("active"), Text("stopped"), Some(Text("host-b")))]

  const STOPPED_ON_B: Server := Server(Some("host-b"), Text("stopped"), Null, Null, false)

  lemma StillWaiting(config: Config, seen: seq<Server>, after: map<string, View>)
    requires |seen| == 2 && seen[0] == STOPPED_ON_B
    requires UntargetedKept(OLD_ROWS, R.ReconciledAll(config, OLD_VIEWS, OLD_ROWS, seen), after)
    ensures "vm-1" in after && OriginallyActive(after["vm-1"]) && after["vm-1"].step == EVACUATED_STOPPED
  {
    assert OLD_ROWS[1].instance != OLD_ROWS[0].instance;
    R.LastSettledDecides(config, OLD_VIEWS, OLD_ROWS, seen, 0);
    R.OriginalKept(config, OLD_VIEWS, OLD_ROWS, seen, "vm-1");
  }

  /**
   * So the restart is not unconditional.  Here no call of the rerun raises; vm-1 was active, was
   * evacuated and is stopped on its new host, and after the rerun its record still waits for its
   * start.  But the rerun raises before any start, because the row of another instance says FAILED
   * from an earlier attempt.
   */
  method OldFailureBlocks(config: Config)
    returns (e: Engine, returned: bool, ghost started: bool, ghost rows: seq<VMove>, ghost records: map<string, View>)
    requires config.enabled
    ensures rows == OLD_ROWS && records == OLD_VIEWS
    ensures e.Smooth() && e.config == config
    ensures !returned && !started && e.started == [] && E.HasFailedRow(e.vmoves)
    ensures "vm-1" in e.Views() && OriginallyActive(e.Views()["vm-1"]) && e.Views()["vm-1"].step == EVACUATED_STOPPED
  {
    var vm1 := map["step" := EVACUATED_STOPPED, "original_vm_state" := Text("active"),
                   "current_vm_state" := Text("stopped"), "dest_host" := Text("host-b")];
    e := new Engine(config, "engine", "notification", k => World(Fine, Fine, Fine, Fine, STOPPED_ON_B, 0), map["vm-1" := vm1], OLD_ROWS);
    rows, records := e.vmoves, e.Views();
    assert ViewOf(vm1) == OLD_VIEWS["vm-1"];
    assert records == OLD_VIEWS;
    assert OLD_ROWS[1].status.FailedMove? && E.HasFailedRow(OLD_ROWS);
    var r;
    ghost var seen, ready, writes;
    r, seen, started, ready, writes := Recover(e, false);
    returned := r.Ok?;
    assert !started && e.Answered(seen[0]);
    StillWaiting(config, seen, e.Views());
  }
}
