/**
 * ReconcileStagedRecoveryTask: before a run acts, every record of the notification is brought in
 * line with where Nova says the instance is.
 */
module ReconcileTask {
  import opened Wrappers

  import opened EtcdRecords
  import opened StagedEngine

  /** The server runs on some other host than the one the VMove evacuates. */
  ghost predicate Moved(vm: VMove, s: Server) {
    s.host.Some? && s.host.value != "" && s.host != vm.source
  }

  /** The server is off its source host and active or stopped: it was evacuated already. */
  ghost predicate Settled(vm: VMove, s: Server) {
    Moved(vm, s) && (IsActive(s) || IsStopped(s))
  }

  /** The record after it was created, if it was missing. */
  ghost function Known(views: map<string, View>, vm: VMove, s: Server): View {
    if vm.instance in views then views[vm.instance] else View(DISCOVERED, s.vm, s.vm, Some(NullableText(vm.dest)))
  }

  /** One VMove reconciled with what Nova answered for it. */
  ghost function Reconciled(config: Config, views: map<string, View>, vm: VMove, s: Server): map<string, View> {
    var v := Known(views, vm, s);
    views[vm.instance := View(if !Settled(vm, s) then v.step
                              else if IsActive(s) then ACTIVE
                              else if Wanted(config, v) then EVACUATED_STOPPED else IGNORED,
                              v.original, s.vm, if Moved(vm, s) then Some(NullableText(s.host)) else v.dest)]
  }

  /** All of them, in order. */
  ghost function ReconciledAll(config: Config, views: map<string, View>, vmoves: seq<VMove>, seen: seq<Server>): map<string, View>
    requires |seen| <= |vmoves|
    decreases |seen|
  {
    if seen == [] then views
    else
      var n := |seen| - 1;
      Reconciled(config, ReconciledAll(config, views, vmoves, seen[..n]), vmoves[n], seen[n])
  }

  lemma OneMoreReconciled(config: Config, views: map<string, View>, vmoves: seq<VMove>, seen: seq<Server>, s: Server)
    requires |seen| < |vmoves|
    ensures ReconciledAll(config, views, vmoves, seen + [s])
         == Reconciled(config, ReconciledAll(config, views, vmoves, seen), vmoves[|seen|], s)
  {
    assert (seen + [s])[..|seen|] == seen;
  }

  // ---------------------------------------------------------------- the task

  /** _reconcile_state_from_server */
  method ReconcileState(e: Engine, vm: VMove, server: Server, current: Record) returns (r: Result<()>)
    requires vm.instance in e.Views() && e.Views()[vm.instance] == ViewOf(current)
    modifies e`calls, e`records, e`writes
    ensures r.Ok? ==> e.Views() == Reconciled(e.config, old(e.Views()), vm, server)
    ensures r.Err? ==> r.error.Raised?
    ensures e.StoreUp() ==> r.Ok?
    ensures AllPlaced(old(e.Views())) ==> AllPlaced(e.Views())
  {
    var patch := map["current_vm_state" := server.vm, "current_task_state" := server.task,
                     "current_power_state" := server.power];
    if server.host.Some? && server.host.value != "" && server.host != vm.source {
      patch := patch["dest_host" := NullableText(server.host)];
      if IsActive(server) {
        patch := patch["step" := ACTIVE];
      } else if IsStopped(server) {
        if e.config.startOnlyOriginallyActive && Lookup(current, "original_vm_state") != Text("active") {
          patch := patch["step" := IGNORED];
        } else {
          patch := patch["step" := EVACUATED_STOPPED];
        }
      }
      r := e.Update(vm.instance, patch);
    } else if Lookup(current, "current_vm_state") != server.vm {
      r := e.Update(vm.instance, patch);
    } else {
      r := Ok(());
    }
  }

  /** _initial_state_values, for a record that does not exist yet. */
  method GetRecord(e: Engine, vm: VMove, s: Server) returns (r: Result<Record>)
    modifies e`calls, e`records
    ensures r.Ok? ==> e.Views() == old(e.Views())[vm.instance := Known(old(e.Views()), vm, s)]
    ensures r.Ok? ==> vm.instance in e.Views() && e.Views()[vm.instance] == ViewOf(r.value)
    ensures r.Err? ==> r.error.Raised?
    ensures e.StoreUp() ==> r.Ok?
    ensures AllPlaced(old(e.Views())) ==> AllPlaced(e.Views())
  {
    r := e.CreateOrGet(vm.instance, map[
      "instance_name" := Text(vm.name), "source_host" := NullableText(vm.source), "dest_host" := NullableText(vm.dest),
      "original_vm_state" := s.vm, "original_task_state" := s.task, "original_power_state" := s.power,
      "current_vm_state" := s.vm, "step" := DISCOVERED]);
  }

  lemma CreatedThenReconciled(config: Config, views: map<string, View>, vm: VMove, s: Server)
    ensures Reconciled(config, views[vm.instance := Known(views, vm, s)], vm, s) == Reconciled(config, views, vm, s)
  {
  }

  /** The body of the loop of execute. */
  method ReconcileOne(e: Engine, vm: VMove) returns (r: Result<Server>)
    modifies e`calls, e`records, e`writes
    ensures r.Ok? ==> e.Views() == Reconciled(e.config, old(e.Views()), vm, r.value) && e.Answered(r.value)
    ensures r.Err? ==> r.error.Raised?
    ensures e.Smooth() ==> r.Ok?
    ensures AllPlaced(old(e.Views())) ==> AllPlaced(e.Views())
  {
    r := e.GetServer(vm.instance);
    if r.Err? { return; }
    var s := r.value;
    var current := GetRecord(e, vm, s);
    if current.Err? { return Err(current.error); }
    CreatedThenReconciled(e.config, old(e.Views()), vm, s);
    var reconciled := ReconcileState(e, vm, s, current.value);
    if reconciled.Err? { return Err(reconciled.error); }
  }

  /** execute; seen are Nova's answers, VMove by VMove. */
  method Execute(e: Engine) returns (r: Result<()>, ghost seen: seq<Server>)
    modifies e`calls, e`records, e`writes
    ensures |seen| <= |e.vmoves| && forall i :: 0 <= i < |seen| ==> e.Answered(seen[i])
    ensures r.Ok? ==> |seen| == |e.vmoves| && e.Views() == ReconciledAll(e.config, old(e.Views()), e.vmoves, seen)
    ensures AllPlaced(old(e.Views())) ==> AllPlaced(e.Views())
    ensures e.config.enabled && e.Smooth() ==> r.Ok?
  {
    seen := [];
    if !e.config.enabled { return Err(Disabled), seen; }
    var available := e.Call();
    var listed := e.Call();
    if !available.Fine? || !listed.Fine? { return Err(Raised), seen; }
    for i := 0 to |e.vmoves|
      invariant |seen| == i && forall j :: 0 <= j < i ==> e.Answered(seen[j])
      invariant e.Views() == ReconciledAll(e.config, old(e.Views()), e.vmoves, seen)
      invariant AllPlaced(old(e.Views())) ==> AllPlaced(e.Views())
    {
      var one := ReconcileOne(e, e.vmoves[i]);
      if one.Err? { return Err(one.error), seen; }
      OneMoreReconciled(e.config, old(e.Views()), e.vmoves, seen, one.value);
      seen := seen + [one.value];
    }
    return Ok(()), seen;
  }

  // ---------------------------------------------------------------- what it establishes

  /**
   * An instance that was seen off its source host, active or stopped, ends at a step that
   * EvacuateToStopped skips, whatever its record said before and whatever its other VMoves showed.
   */
  lemma {:induction false} SettledIsSkipped(config: Config, views: map<string, View>, vmoves: seq<VMove>,
                                            seen: seq<Server>, i: nat)
    requires i < |seen| <= |vmoves| && Settled(vmoves[i], seen[i])
    ensures var after := ReconciledAll(config, views, vmoves, seen);
            vmoves[i].instance in after && Skips(after[vmoves[i].instance].step)
    decreases |seen|
  {
    if i < |seen| - 1 {
      SettledIsSkipped(config, views, vmoves, seen[..|seen| - 1], i);
    }
  }

  /** No later VMove of the same instance found it settled. */
  ghost predicate LastSettled(vmoves: seq<VMove>, seen: seq<Server>, i: nat)
    requires i < |seen| <= |vmoves|
  {
    && Settled(vmoves[i], seen[i])
    && forall j :: i < j < |seen| && vmoves[j].instance == vmoves[i].instance ==> !Settled(vmoves[j], seen[j])
  }

  /** The original state is the one the record had, or else the one first seen. */
  lemma {:induction false} OriginalKept(config: Config, views: map<string, View>, vmoves: seq<VMove>,
                                        seen: seq<Server>, x: string)
    requires |seen| <= |vmoves| && x in views
    ensures var after := ReconciledAll(config, views, vmoves, seen);
            x in after && after[x].original == views[x].original
    decreases |seen|
  {
    if seen != [] {
      OriginalKept(config, views, vmoves, seen[..|seen| - 1], x);
    }
  }

  /**
   * The last time an instance was seen settled decides its step: ACTIVE if it ran,
   * EVACUATED_STOPPED if it was stopped and is wanted, IGNORED otherwise.
   */
  lemma {:induction false} LastSettledDecides(config: Config, views: map<string, View>, vmoves: seq<VMove>,
                                              seen: seq<Server>, i: nat)
    requires i < |seen| <= |vmoves| && LastSettled(vmoves, seen, i)
    ensures var after := ReconciledAll(config, views, vmoves, seen);
            var x := vmoves[i].instance;
            && x in after
            && (after[x].step == ACTIVE <==> IsActive(seen[i]))
            && (after[x].step == EVACUATED_STOPPED <==> !IsActive(seen[i]) && Wanted(config, after[x]))
            && (after[x].step == IGNORED <==> !IsActive(seen[i]) && !Wanted(config, after[x]))
    decreases |seen|
  {
    if i < |seen| - 1 {
      var n := |seen| - 1;
      assert forall j :: i < j < n ==> seen[..n][j] == seen[j];
      LastSettledDecides(config, views, vmoves, seen[..n], i);
      assert vmoves[n].instance == vmoves[i].instance ==> !Settled(vmoves[n], seen[n]);
    }
  }

  /** Records of instances without a VMove are left alone. */
  lemma {:induction false} OthersKept(config: Config, views: map<string, View>, vmoves: seq<VMove>, seen: seq<Server>,
                                      x: string)
    requires |seen| <= |vmoves| && forall i :: 0 <= i < |seen| ==> vmoves[i].instance != x
    ensures var after := ReconciledAll(config, views, vmoves, seen);
            (x in after <==> x in views) && (x in views ==> after[x] == views[x])
    decreases |seen|
  {
    if seen != [] {
      OthersKept(config, views, vmoves, seen[..|seen| - 1], x);
    }
  }

  /** An originally active instance is IGNORED only if its record said so before. */
  lemma {:induction false} ActiveNotIgnored(config: Config, views: map<string, View>, vmoves: seq<VMove>,
                                            seen: seq<Server>, x: string)
    requires |seen| <= |vmoves|
    ensures var after := ReconciledAll(config, views, vmoves, seen);
            x in after && OriginallyActive(after[x]) && after[x].step == IGNORED ==> x in views && views[x].step == IGNORED
    decreases |seen|
  {
    if seen != [] {
      ActiveNotIgnored(config, views, vmoves, seen[..|seen| - 1], x);
    }
  }
}
