/**
 * EvacuateToStoppedTask: every pending or ongoing VMove is evacuated to a stopped instance, unless
 * its record says that this was done before.
 *
 * The green threads of the pool work on different instances and different rows, so they are run
 * one after the other here.
 */
module EvacuateTask {
  import opened Wrappers

  import opened EtcdRecords
  import opened StagedEngine

  predicate Targeted(vm: VMove) { vm.status.PendingMove? || vm.status.OngoingMove? }

  /** How the body of one green thread ended; what it leaves behind is said by EndHolds. */
  datatype End =
    | Skipped                     // the record says that the instance was evacuated before
    | Confirmed(server: Server)
    | Failed                      // the failure is on the row and on the record
    | Broken                      // an exception before the try block or in the handler

  /** Evacuated: off its source, stopped or active.  A missing host is not the source either. */
  ghost predicate ConfirmedBy(vm: VMove, s: Server) {
    s.host != vm.source && (s.vm == Text("active") || s.vm == Text("stopped") || s.vm == Text("shutoff"))
  }

  /** Poll k, counted from this call, is the first to confirm the evacuation; no poll of the loop before it saw an error. */
  ghost predicate ConfirmedAt(e: Engine, vm: VMove, call: nat, k: nat) {
    && ConfirmedBy(vm, e.world(call + k).server)
    && (forall j :: call <= j <= call + k ==> e.world(j).nova.Fine?)
    && (forall j :: call <= j < call + k ==> !ConfirmedBy(vm, e.world(j).server))
    && (forall j :: call < j < call + k ==> e.world(j).server.vm != Text("error"))
  }

  /** Some poll in time confirms the evacuation. */
  ghost predicate Confirms(e: Engine, vm: VMove, call: nat) {
    exists k :: 0 <= k <= e.config.evacuationPolls && ConfirmedAt(e, vm, call, k)
  }

  /** What an ended thread leaves: the row, the record and the evacuate calls. */
  ghost predicate EndHolds(end: End, vm: VMove, before: map<string, View>, after: map<string, View>,
                           calls: seq<string>, callsAfter: seq<string>) {
    var x := vm.instance;
    match end
    case Skipped => EvacuatedBefore(before, x) && after == before && callsAfter == calls
    case Confirmed(s) =>
      && x in after && after[x] == ConfirmedView(after[x].original, s)
      && vm.status.SucceededMove? && ConfirmedBy(vm, s) && callsAfter == calls + [x]
      && (s.host.Some? && s.host.value != "" ==> vm.dest == s.host)
    case Failed => x in after && after[x].step == FAILED && vm.status.FailedMove?
    case Broken => true
  }

  /** The record of an instance whose evacuation was confirmed by this answer. */
  ghost function ConfirmedView(original: Value, s: Server): View {
    View(if s.vm == Text("active") then ACTIVE else EVACUATED_STOPPED, original, s.vm, Some(NullableText(s.host)))
  }

  /** An instance that was evacuated before: no call, and its record stays unless the row says FAILED. */
  ghost predicate LeftAlone(vm: VMove, before: map<string, View>, after: map<string, View>,
                            calls: seq<string>, callsAfter: seq<string>) {
    vm.instance in before && Skips(before[vm.instance].step) ==>
      callsAfter == calls && (after == before || vm.status.FailedMove?)
  }

  /** _wait_for_evacuation_confirmation: the first answer that confirms, if one comes in time. */
  method WaitForConfirmation(e: Engine, vm: VMove) returns (r: Result<Server>)
    modifies e`calls
    ensures r.Ok? <==> Confirms(e, vm, old(e.calls))
    ensures r.Ok? ==> ConfirmedBy(vm, r.value)
                      && exists k :: 0 <= k <= e.config.evacuationPolls && ConfirmedAt(e, vm, old(e.calls), k)
                                     && r.value == e.world(old(e.calls) + k).server
    ensures r.Err? ==> r.error.Raised?
  {
    ghost var call := e.calls;
    r := e.GetServer(vm.instance);
    if r.Err? { return; }
    if r.value.host != vm.source && (IsStopped(r.value) || IsActive(r.value)) {
      assert ConfirmedAt(e, vm, call, 0);
      return;
    }
    for poll := 0 to e.config.evacuationPolls
      invariant e.calls == call + poll + 1
      invariant forall j :: call <= j <= call + poll ==> e.world(j).nova.Fine? && !ConfirmedBy(vm, e.world(j).server)
      invariant forall j :: call < j <= call + poll ==> e.world(j).server.vm != Text("error")
    {
      r := e.GetServer(vm.instance);
      if r.Err? {
        NotConfirmed(e, vm, call, poll + 1);
        return;
      }
      if r.value.host != vm.source && (IsStopped(r.value) || IsActive(r.value)) {
        assert ConfirmedAt(e, vm, call, poll + 1);
        return;
      }
      if r.value.vm == Text("error") {
        NotConfirmed(e, vm, call, poll + 1);
        return Err(Raised);
      }
    }
    return Err(Raised);
  }

  /** What is not confirmed up to a poll that fails is never confirmed. */
  lemma NotConfirmed(e: Engine, vm: VMove, call: nat, n: nat)
    requires n > 0 && forall j :: call <= j < call + n ==> !ConfirmedBy(vm, e.world(j).server)
    requires !e.world(call + n).nova.Fine?
             || (e.world(call + n).server.vm == Text("error") && !ConfirmedBy(vm, e.world(call + n).server))
    ensures !Confirms(e, vm, call)
  {
    forall k: nat ensures !ConfirmedAt(e, vm, call, k) {
      if k > n {
        assert call <= call + n <= call + k && call < call + n < call + k;
      }
    }
  }

  /** Nova would not evacuate from this state. */
  ghost predicate NeedsReset(s: Server) {
    (s.vm != Text("active") && s.vm != Text("error") && s.vm != Text("stopped")) || s.task != Null
  }

  /** _prepare_instance_for_evacuate: a state that Nova would not evacuate from is reset. */
  method Prepare(e: Engine, x: string, s: Server) returns (r: Result<()>)
    modifies e`calls, e`resets
    ensures e.resets == old(e.resets) + if NeedsReset(s) then [x] else []
    ensures e.CallsUp() ==> r.Ok?
    ensures r.Err? ==> r.error.Raised?
  {
    if (s.vm != Text("active") && s.vm != Text("error") && s.vm != Text("stopped")) || s.task != Null {
      var reset := e.ResetServer(x);
      if !reset.Fine? { return Err(Raised); }
      var again := e.GetServer(x);
      if again.Err? { return Err(Raised); }
    }
    return Ok(());
  }

  /**
   * evacuate_instance_stopped, once the row says ONGOING, so that a later run finds it among its
   * targets, and the record is no longer DISCOVERED.
   */
  method CallEvacuate(e: Engine, i: nat) returns (r: Result<()>)
    requires i < |e.vmoves| && e.vmoves[i].status.OngoingMove?
    requires e.vmoves[i].instance in e.Views() && e.Views()[e.vmoves[i].instance].step != DISCOVERED
    modifies e`calls, e`evacuated, e`evacuatedAt
    ensures e.evacuated == old(e.evacuated) + [e.vmoves[i].instance] && e.calls == old(e.calls) + 1
    ensures e.evacuatedAt == old(e.evacuatedAt)[e.vmoves[i].instance := old(e.calls)]
    ensures r.Ok? <==> e.world(old(e.calls)).nova.Fine?
  {
    var called := e.EvacuateServer(e.vmoves[i].instance);
    r := if called.Fine? then Ok(()) else Err(Raised);
  }

  /** Only x's last evacuation may have another number than before. */
  ghost predicate OnlyAt(x: string, before: map<string, nat>, after: map<string, nat>) {
    (forall y :: y in before ==> y in after) && forall y :: y in before && y != x ==> after[y] == before[y]
  }

  /** The row is marked, the instance evacuated and the outcome awaited. */
  method EvacuateAndWait(e: Engine, i: nat, vm: VMove) returns (r: Result<Server>, copy: VMove)
    requires i < |e.vmoves| && vm == e.vmoves[i] && vm.instance in e.Views() && e.Views()[vm.instance].step != DISCOVERED
    modifies e`calls, e`vmoves, e`evacuated, e`evacuatedAt
    ensures OnlyRow(i, old(e.vmoves), e.vmoves) && copy == vm.(dest := copy.dest, status := copy.status)
    ensures OnlyAt(vm.instance, old(e.evacuatedAt), e.evacuatedAt)
    ensures e.evacuated == old(e.evacuated) || e.evacuated == old(e.evacuated) + [vm.instance]
    ensures r.Ok? ==> e.evacuated == old(e.evacuated) + [vm.instance] && ConfirmedBy(vm, r.value)
    ensures e.Smooth() ==> e.evacuated == old(e.evacuated) + [vm.instance]
    ensures r.Ok? || e.Smooth() ==> vm.instance in e.evacuatedAt
                                    && (r.Ok? <==> Confirms(e, vm, e.evacuatedAt[vm.instance] + 1))
    ensures r.Ok? ==> e.vmoves[i] == copy && copy.status.SucceededMove?
                      && copy.dest == if r.value.host.Some? && r.value.host.value != "" then r.value.host else vm.dest
    ensures r.Err? ==> r.error.Raised?
  {
    copy := vm.(status := OngoingMove);
    var ongoing := e.Save(i, copy);
    if ongoing.Err? { return Err(Raised), copy; }
    var called := CallEvacuate(e, i);
    if called.Err? { return Err(Raised), copy; }
    r := WaitForConfirmation(e, vm);
    if r.Err? { return r, copy; }
    var host := r.value.host;
    copy := copy.(status := SucceededMove, dest := if host.Some? && host.value != "" then host else copy.dest);
    var succeeded := e.Save(i, copy);
    if succeeded.Err? { r := Err(Raised); }
  }

  /** The record after a confirmed evacuation. */
  method Confirm(e: Engine, vm: VMove, s: Server) returns (r: Result<()>)
    requires vm.instance in e.Views()
    modifies e`calls, e`records, e`writes
    ensures vm.instance in e.Views()
    ensures r.Ok? ==> e.Views()[vm.instance] == ConfirmedView(old(e.Views())[vm.instance].original, s)
    ensures OnlyOf(vm.instance, old(e.Views()), e.Views())
    ensures AllPlaced(old(e.Views())) ==> AllPlaced(e.Views())
    ensures e.StoreUp() ==> r.Ok?
  {
    r := e.Update(vm.instance, map["step" := if IsActive(s) then ACTIVE else EVACUATED_STOPPED,
                                   "dest_host" := NullableText(s.host), "current_vm_state" := s.vm]);
  }

  /** The preparation and the transition, whose result is ignored. */
  method MarkEvacuating(e: Engine, x: string, s: Server) returns (r: Result<()>)
    requires x in e.Views()
    modifies e`calls, e`records, e`resets
    ensures e.resets == old(e.resets) + if NeedsReset(s) then [x] else []
    ensures x in e.Views() && (r.Ok? ==> e.Views()[x].step != DISCOVERED)
    ensures OnlyOf(x, old(e.Views()), e.Views())
    ensures AllPlaced(old(e.Views())) ==> AllPlaced(e.Views())
    ensures e.Smooth() && x in old(e.Views()) ==> r.Ok?
  {
    r := Prepare(e, x, s);
    if r.Err? { return; }
    assert "DISCOVERED" in {"DISCOVERED", "EVACUATING"};
    var moved := e.Transition(x, {"DISCOVERED", "EVACUATING"}, "EVACUATING");
    if moved.Err? { r := Err(Raised); }
  }

  /** The record of the instance, created from what Nova says now if Reconcile did not see it. */
  method GetRecord(e: Engine, vm: VMove, s: Server) returns (r: Result<Value>)
    modifies e`calls, e`records
    ensures vm.instance in old(e.Views()) ==> e.Views() == old(e.Views())
    ensures OnlyOf(vm.instance, old(e.Views()), e.Views())
    ensures vm.instance !in old(e.Views()) && vm.instance in e.Views() ==>
              e.Views()[vm.instance] == View(DISCOVERED, s.vm, s.vm, None)
    ensures r.Ok? ==> vm.instance in e.Views() && e.Views()[vm.instance].step == r.value
    ensures e.Smooth() ==> r.Ok?
    ensures AllPlaced(old(e.Views())) ==> AllPlaced(e.Views())
  {
    var current := e.CreateOrGet(vm.instance, map[
      "instance_name" := Text(vm.name), "source_host" := NullableText(vm.source), "original_vm_state" := s.vm,
      "original_task_state" := s.task, "original_power_state" := s.power, "current_vm_state" := s.vm,
      "step" := DISCOVERED]);
    r := if current.Ok? then Ok(Lookup(current.value, "step")) else Err(Raised);
  }

  /** A new evacuate call came after the reset that the state asked for. */
  ghost predicate ResetFirst(x: string, s: Server, calls: seq<string>, callsAfter: seq<string>, resets: seq<string>,
                             resetsAfter: seq<string>) {
    callsAfter != calls ==> resetsAfter == resets + if NeedsReset(s) then [x] else []
  }

  /** When nothing raises, the end of an evacuation follows from Nova's answers after the call. */
  ghost predicate AsAnswered(e: Engine, confirmed: bool, vm: VMove, at: map<string, nat>) {
    vm.instance in at && (confirmed <==> Confirms(e, vm, at[vm.instance] + 1))
  }

  /** The try block from the preparation on. */
  method EvacuateFresh(e: Engine, i: nat, vm: VMove, s: Server) returns (r: Result<Server>, copy: VMove)
    requires i < |e.vmoves| && vm == e.vmoves[i] && vm.instance in e.Views()
    modifies e`calls, e`records, e`writes, e`vmoves, e`evacuated, e`evacuatedAt, e`resets
    ensures OnlyRow(i, old(e.vmoves), e.vmoves) && copy == vm.(dest := copy.dest, status := copy.status)
    ensures OnlyOf(vm.instance, old(e.Views()), e.Views()) && OnlyAt(vm.instance, old(e.evacuatedAt), e.evacuatedAt)
    ensures AllPlaced(old(e.Views())) ==> AllPlaced(e.Views())
    ensures e.evacuated == old(e.evacuated) || e.evacuated == old(e.evacuated) + [vm.instance]
    ensures ResetFirst(vm.instance, s, old(e.evacuated), e.evacuated, old(e.resets), e.resets)
    ensures e.Smooth() ==> e.evacuated == old(e.evacuated) + [vm.instance] && AsAnswered(e, r.Ok?, vm, e.evacuatedAt)
    ensures r.Ok? ==> e.vmoves[i] == copy && AsAnswered(e, true, vm, e.evacuatedAt)
                      && EndHolds(Confirmed(r.value), copy, old(e.Views()), e.Views(), old(e.evacuated), e.evacuated)
  {
    copy := vm;
    var evacuating := MarkEvacuating(e, vm.instance, s);
    if evacuating.Err? { return Err(Raised), copy; }
    r, copy := EvacuateAndWait(e, i, vm);
    if r.Err? { return; }
    var updated := Confirm(e, vm, r.value);
    if updated.Err? { r := Err(Raised); }
  }

  /** A record made by this thread has the state that Nova reported first. */
  ghost predicate CreatedFrom(x: string, s: Server, before: map<string, View>, after: map<string, View>) {
    x !in before && x in after ==> after[x].original == s.vm
  }

  /** The try block of _evacuate_and_confirm; end is of interest when it did not raise. */
  method TryEvacuate(e: Engine, i: nat, vm: VMove, s: Server) returns (r: Result<End>, copy: VMove)
    requires i < |e.vmoves| && vm == e.vmoves[i]
    modifies e`calls, e`records, e`writes, e`vmoves, e`evacuated, e`evacuatedAt, e`resets
    ensures OnlyRow(i, old(e.vmoves), e.vmoves) && copy == vm.(dest := copy.dest, status := copy.status)
    ensures OnlyOf(vm.instance, old(e.Views()), e.Views()) && OnlyAt(vm.instance, old(e.evacuatedAt), e.evacuatedAt)
    ensures AllPlaced(old(e.Views())) ==> AllPlaced(e.Views())
    ensures CreatedFrom(vm.instance, s, old(e.Views()), e.Views())
    ensures ResetFirst(vm.instance, s, old(e.evacuated), e.evacuated, old(e.resets), e.resets)
    ensures r.Ok? ==> !r.value.Broken? && !r.value.Failed? && e.vmoves[i] == copy
                      && (r.value.Skipped? ==> e.vmoves == old(e.vmoves))
                      && EndHolds(r.value, copy, old(e.Views()), e.Views(), old(e.evacuated), e.evacuated)
    ensures EvacuatedBefore(old(e.Views()), vm.instance) ==>
              e.evacuated == old(e.evacuated) && e.Views() == old(e.Views()) && e.vmoves == old(e.vmoves)
    ensures e.evacuated == old(e.evacuated) || e.evacuated == old(e.evacuated) + [vm.instance]
    ensures e.Smooth() ==> vm.instance in e.Views()
                           && if EvacuatedBefore(old(e.Views()), vm.instance) then r == Ok(Skipped)
                              else r != Ok(Skipped) && e.evacuated == old(e.evacuated) + [vm.instance]
                                   && AsAnswered(e, r.Ok?, vm, e.evacuatedAt)
  {
    var step := GetRecord(e, vm, s);
    if step.Err? { return Err(Raised), vm; }
    if Skips(step.value) { return Ok(Skipped), vm; }
    var server;
    server, copy := EvacuateFresh(e, i, vm, s);
    r := if server.Ok? then Ok(Confirmed(server.value)) else Err(Raised);
  }

  /** The handler whose first call is this one returns: the row is saved, and the record, which must be there, updated. */
  ghost predicate HandlerReturns(e: Engine, call: nat, known: bool) {
    e.world(call).other.Fine? && known && e.world(call + 1).update.Fine?
  }

  /** The except block: the row says FAILED before the record does. */
  method HandleFailure(e: Engine, i: nat, vm: VMove, copy: VMove) returns (r: Result<()>, marked: VMove)
    requires i < |e.vmoves| && SameMove(vm, e.vmoves[i]) && SameMove(vm, copy)
    modifies e`calls, e`records, e`writes, e`vmoves
    ensures OnlyRow(i, old(e.vmoves), e.vmoves) && SameMove(vm, marked) && marked.status.FailedMove?
    ensures OnlyOf(vm.instance, old(e.Views()), e.Views())
    ensures AllPlaced(old(e.Views())) ==> AllPlaced(e.Views())
    ensures e.Views() == old(e.Views()) || e.vmoves[i].status.FailedMove?
    ensures vm.instance in e.Views() <==> vm.instance in old(e.Views())
    ensures r.Ok? ==> e.vmoves[i] == marked && vm.instance in e.Views() && e.Views()[vm.instance].step == FAILED
    ensures r.Ok? <==> HandlerReturns(e, old(e.calls), vm.instance in e.Views())
  {
    marked := copy.(status := FailedMove);
    r := e.Save(i, marked);
    if r.Err? { return; }
    r := e.MarkFailed(vm.instance, "evacuation failed");
  }

  /** The two differ in status and destination at most. */
  predicate SameMove(a: VMove, b: VMove) {
    b == a.(dest := b.dest, status := b.status)
  }

  /** What a thread does when nothing raises: it evacuates, unless that was done before. */
  ghost predicate Complete(end: End, x: string, before: map<string, View>, calls: seq<string>, callsAfter: seq<string>) {
    && !end.Broken? && (end.Skipped? <==> EvacuatedBefore(before, x))
    && (!end.Skipped? ==> callsAfter == calls + [x])
  }

  /** And it is confirmed exactly if Nova's answers after the call confirm it in time. */
  ghost predicate EndAnswered(e: Engine, end: End, vm: VMove, at: map<string, nat>) {
    !end.Skipped? ==> AsAnswered(e, end.Confirmed?, vm, at)
  }

  /** What a thread may change, but for the records' other fields. */
  datatype Moves = Moves(rows: seq<VMove>, views: map<string, View>, evacuated: seq<string>, at: map<string, nat>,
                         resets: seq<string>)

  ghost function Moved(e: Engine): Moves
    reads e`vmoves, e`records, e`evacuated, e`evacuatedAt, e`resets
  {
    Moves(e.vmoves, e.Views(), e.evacuated, e.evacuatedAt, e.resets)
  }

  /** What the thread of row i leaves when it entered its try block, after Nova reported this server. */
  ghost predicate Left(e: Engine, i: nat, s: Server, end: End, a: Moves, b: Moves)
  {
    && i < |a.rows| && OnlyRow(i, a.rows, b.rows)
    && var x := a.rows[i].instance;
       && OnlyOf(x, a.views, b.views) && (AllPlaced(a.views) ==> AllPlaced(b.views))
       && EndHolds(end, b.rows[i], a.views, b.views, a.evacuated, b.evacuated)
       && LeftAlone(b.rows[i], a.views, b.views, a.evacuated, b.evacuated) && (end.Skipped? ==> b.rows == a.rows)
       && (b.evacuated == a.evacuated || b.evacuated == a.evacuated + [x])
       && OnlyAt(x, a.at, b.at) && CreatedFrom(x, s, a.views, b.views)
       && ResetFirst(x, s, a.evacuated, b.evacuated, a.resets, b.resets)
       && (e.Smooth() ==> Complete(end, x, a.views, a.evacuated, b.evacuated) && EndAnswered(e, end, a.rows[i], b.at))
  }

  /** One more save of the row, by the finally block. */
  lemma SavedAgain(e: Engine, i: nat, s: Server, end: End, a: Moves, b: Moves, copy: VMove)
    requires Left(e, i, s, end, a, b) && SameMove(b.rows[i], copy)
    requires if end.Broken? then copy.status.FailedMove? else copy == b.rows[i]
    ensures Left(e, i, s, end, a, b.(rows := b.rows[i := copy]))
  {
  }

  /** Try block and handler together. */
  method GuardedEvacuate(e: Engine, i: nat, vm: VMove, s: Server)
    returns (end: End, raised: bool, copy: VMove, ghost handler: Option<nat>)
    requires i < |e.vmoves| && vm == e.vmoves[i]
    modifies e`calls, e`records, e`writes, e`vmoves, e`evacuated, e`evacuatedAt, e`resets
    ensures SameMove(vm, copy) && Left(e, i, s, end, old(Moved(e)), Moved(e))
    ensures if end.Broken? then copy.status.FailedMove? else copy == e.vmoves[i]
    ensures raised <==> end.Broken?
    ensures Handled(e, end, handler, vm.instance in e.Views())
  {
    var tried;
    tried, copy := TryEvacuate(e, i, vm, s);
    if tried.Ok? { return tried.value, false, copy, None; }
    handler := Some(e.calls);
    var handled;
    handled, copy := HandleFailure(e, i, vm, copy);
    return if handled.Ok? then Failed else Broken, handled.Err?, copy, handler;
  }

  /** The handler was entered if and only if the thread ended Failed, or Broken when the handler raised. */
  ghost predicate Handled(e: Engine, end: End, handler: Option<nat>, known: bool) {
    match handler
    case Some(call) => if HandlerReturns(e, call, known) then end.Failed? else end.Broken?
    case None => end.Skipped? || end.Confirmed?
  }

  /** Before the try block GetServer or the lock of the server raised; call is the number of GetServer. */
  ghost predicate NotEntered(e: Engine, call: nat) {
    !e.world(call).nova.Fine? || (!e.world(call).server.locked && !e.world(call + 1).nova.Fine?)
  }

  /** The try statement: body, handler, and the first step of the finally block. */
  method EvacuateAndSave(e: Engine, i: nat, vm: VMove, s: Server)
    returns (end: End, raised: bool, saved: bool, ghost handler: Option<nat>)
    requires i < |e.vmoves| && vm == e.vmoves[i]
    modifies e`calls, e`records, e`writes, e`vmoves, e`evacuated, e`evacuatedAt, e`resets
    ensures Left(e, i, s, end, old(Moved(e)), Moved(e))
    ensures (raised <==> end.Broken?) && Handled(e, end, handler, vm.instance in e.Views())
    ensures end.Broken? && saved ==> e.vmoves[i].status.FailedMove?
    ensures e.OthersUp() ==> saved
  {
    var copy;
    end, raised, copy, handler := GuardedEvacuate(e, i, vm, s);
    ghost var middle := Moved(e);
    var r := e.Save(i, copy);
    saved := r.Ok?;
    SavedAgain(e, i, s, end, old(Moved(e)), middle, copy);
    assert Moved(e) == middle || Moved(e) == middle.(rows := middle.rows[i := copy]);
  }

  method LockServer(e: Engine, x: string) returns (r: Result<()>)
    modifies e`calls, e`lockedServers
    ensures r.Ok? ==> e.lockedServers == old(e.lockedServers) + {x}
    ensures r.Ok? <==> e.world(old(e.calls)).nova.Fine?
  {
    var reply := e.CallNova();
    if !reply.Refused? { e.lockedServers := e.lockedServers + {x}; }
    r := if reply.Fine? then Ok(()) else Err(Raised);
  }

  method UnlockServer(e: Engine, x: string) returns (r: Result<()>)
    modifies e`calls, e`lockedServers
    ensures r.Ok? ==> e.lockedServers == old(e.lockedServers) - {x}
    ensures e.Smooth() ==> r.Ok?
  {
    var reply := e.CallNova();
    if !reply.Refused? { e.lockedServers := e.lockedServers - {x}; }
    r := if reply.Fine? then Ok(()) else Err(Raised);
  }

  /**
   * _evacuate_and_confirm, the body of one green thread.  raised says that an exception left it,
   * which the pool drops; a server that it locked stays locked only then.  The end is Broken if and
   * only if GetServer or the lock raised, and then nothing is changed, or the handler was entered, by
   * its call number, and the save of its row or its mark_failed raised.
   */
  method EvacuateAndConfirm(e: Engine, i: nat) returns (end: End, raised: bool, ghost handler: Option<nat>)
    requires i < |e.vmoves|
    modifies e`calls, e`records, e`writes, e`vmoves, e`evacuated, e`evacuatedAt, e`resets, e`lockedServers
    ensures end.Broken? ==> raised
    ensures e.Smooth() ==> !raised
    ensures !NotEntered(e, old(e.calls)) ==> Left(e, i, e.world(old(e.calls)).server, end, old(Moved(e)), Moved(e))
    ensures !raised ==> e.lockedServers <= old(e.lockedServers)
    ensures |e.vmoves| == |old(e.vmoves)|
    ensures end.Broken? && handler.Some? && e.OthersUp() ==> e.vmoves[i].status.FailedMove?
    ensures if NotEntered(e, old(e.calls))
            then end.Broken? && Moved(e) == old(Moved(e))
            else Handled(e, end, handler, old(e.vmoves)[i].instance in e.Views())
  {
    var vm := e.vmoves[i];
    handler := None;
    var server := e.GetServer(vm.instance);
    if server.Err? { return Broken, true, handler; }
    if !server.value.locked {
      var locked := LockServer(e, vm.instance);
      if locked.Err? { return Broken, true, handler; }
    }
    var saved;
    end, raised, saved, handler := EvacuateAndSave(e, i, vm, server.value);
    if !saved { return end, true, handler; }
    if !server.value.locked {
      var unlocked := UnlockServer(e, vm.instance);
      if unlocked.Err? { return end, true, handler; }
    }
  }

  // ---------------------------------------------------------------- the targets

  /** Row t stands for its instance: the last ongoing row, or else the last pending one. */
  ghost predicate StandsFor(rows: seq<VMove>, t: nat) {
    && t < |rows| && Targeted(rows[t])
    && forall j :: 0 <= j < |rows| && Targeted(rows[j]) && rows[j].instance == rows[t].instance && j != t ==>
                     if rows[j].status == rows[t].status then j < t else rows[t].status.OngoingMove?
  }

  ghost predicate DistinctInstances(rows: seq<VMove>, targets: seq<nat>) {
    && (forall k :: 0 <= k < |targets| ==> targets[k] < |rows|)
    && (forall k, l :: 0 <= k < l < |targets| ==> rows[targets[k]].instance != rows[targets[l]].instance)
  }

  /** The pending rows below p and the ongoing rows below o went into the dictionary. */
  predicate Entered(vm: VMove, j: nat, p: nat, o: nat) {
    (vm.status.PendingMove? && j < p) || (vm.status.OngoingMove? && j < o)
  }

  ghost predicate Collected(rows: seq<VMove>, p: nat, o: nat, dict: map<string, nat>) {
    && (forall x :: x in dict ==> dict[x] < |rows| && rows[dict[x]].instance == x && Entered(rows[dict[x]], dict[x], p, o))
    && (forall j :: 0 <= j < |rows| && Entered(rows[j], j, p, o) ==>
          rows[j].instance in dict && NotAfter(rows, j, dict[rows[j].instance]))
  }

  /** Row j was entered no later than row t. */
  predicate NotAfter(rows: seq<VMove>, j: nat, t: nat)
    requires j < |rows|
  {
    t < |rows| && (j == t || if rows[j].status == rows[t].status then j < t else rows[t].status.OngoingMove?)
  }

  /** One pass over a listing by status: by_instance[vmove.instance_uuid] = vmove. */
  method Collect(rows: seq<VMove>, ongoing: bool, before: map<string, nat>) returns (dict: map<string, nat>)
    requires if ongoing then Collected(rows, |rows|, 0, before) else Collected(rows, 0, 0, before)
    ensures if ongoing then Collected(rows, |rows|, |rows|, dict) else Collected(rows, |rows|, 0, dict)
  {
    dict := before;
    var i := 0;
    while i < |rows|
      invariant i <= |rows|
      invariant if ongoing then Collected(rows, |rows|, i, dict) else Collected(rows, i, 0, dict)
    {
      if rows[i].status == (if ongoing then OngoingMove else PendingMove) {
        dict := dict[rows[i].instance := i];
      }
      i := i + 1;
    }
  }

  /** _get_target_vmoves: one row for every instance that has a pending or an ongoing row. */
  method TargetRows(rows: seq<VMove>) returns (targets: seq<nat>)
    ensures DistinctInstances(rows, targets)
    ensures forall k :: 0 <= k < |targets| ==> StandsFor(rows, targets[k])
    ensures forall j :: 0 <= j < |rows| && Targeted(rows[j]) ==>
              exists k :: 0 <= k < |targets| && rows[targets[k]].instance == rows[j].instance
  {
    var dict := Collect(rows, false, map[]);
    dict := Collect(rows, true, dict);
    var order := Keys(dict);
    targets := seq(|order|, k requires 0 <= k < |order| && order[k] in dict => dict[order[k]]);
    TargetsStand(rows, dict, order, targets);
  }

  lemma TargetsStand(rows: seq<VMove>, dict: map<string, nat>, order: seq<string>, targets: seq<nat>)
    requires Collected(rows, |rows|, |rows|, dict) && forall x :: x in order <==> x in dict
    requires |targets| == |order| && forall k :: 0 <= k < |order| ==> order[k] in dict && targets[k] == dict[order[k]]
    ensures forall k :: 0 <= k < |targets| ==> StandsFor(rows, targets[k])
    ensures forall j :: 0 <= j < |rows| && Targeted(rows[j]) ==>
              exists k :: 0 <= k < |targets| && rows[targets[k]].instance == rows[j].instance
  {
    forall j | 0 <= j < |rows| && Targeted(rows[j]) ensures Entered(rows[j], j, |rows|, |rows|) {}
    forall k | 0 <= k < |targets| ensures StandsFor(rows, targets[k]) {
      assert order[k] in dict;
    }
    forall j | 0 <= j < |rows| && Targeted(rows[j])
      ensures exists k :: 0 <= k < |targets| && rows[targets[k]].instance == rows[j].instance
    {
      var k :| 0 <= k < |order| && order[k] == rows[j].instance;
      assert rows[targets[k]].instance == rows[j].instance;
    }
  }

  // ---------------------------------------------------------------- the task

  /** x is the instance of one of the first k targets. */
  ghost predicate Ran(rows: seq<VMove>, targets: seq<nat>, k: nat, x: string)
    requires DistinctInstances(rows, targets) && k <= |targets|
  {
    exists l :: 0 <= l < k && rows[targets[l]].instance == x
  }

  ghost predicate EvacuatedBefore(views: map<string, View>, x: string) {
    x in views && (views[x].step == EVACUATED_STOPPED || views[x].step == ACTIVE || views[x].step == IGNORED)
  }

  /** After k threads: rows that had no thread are as they were. */
  ghost predicate RowsAfter(targets: seq<nat>, k: nat, rows0: seq<VMove>, rows: seq<VMove>)
    requires k <= |targets|
  {
    && |rows| == |rows0| && (forall j :: 0 <= j < |rows| ==> SameMove(rows0[j], rows[j]))
    && (forall j :: 0 <= j < |rows| && j !in targets[..k] ==> rows[j] == rows0[j])
  }

  /** Records of instances that had no thread are as they were. */
  ghost predicate OthersKept(targets: seq<nat>, k: nat, rows0: seq<VMove>, views0: map<string, View>,
                             views: map<string, View>)
    requires DistinctInstances(rows0, targets) && k <= |targets|
  {
    forall y :: !Ran(rows0, targets, k, y) ==> (y in views0 <==> y in views) && (y in views0 ==> views[y] == views0[y])
  }

  /** An instance evacuated before keeps its record, unless its row says FAILED. */
  ghost predicate BeforeKept(vm: VMove, views0: map<string, View>, views: map<string, View>) {
    EvacuatedBefore(views0, vm.instance) ==>
      vm.status.FailedMove? || (vm.instance in views && views[vm.instance] == views0[vm.instance])
  }

  ghost predicate ViewsAfter(targets: seq<nat>, k: nat, rows0: seq<VMove>, rows: seq<VMove>,
                             views0: map<string, View>, views: map<string, View>)
    requires DistinctInstances(rows0, targets) && k <= |targets| && |rows| == |rows0|
  {
    && OthersKept(targets, k, rows0, views0, views)
    && forall l :: 0 <= l < k ==> BeforeKept(rows[targets[l]], views0, views)
  }

  /** The evacuate calls made: each for another instance, of a thread, and not evacuated before. */
  ghost predicate CallsAfter(targets: seq<nat>, k: nat, rows0: seq<VMove>, views0: map<string, View>,
                             calls0: seq<string>, calls: seq<string>)
    requires DistinctInstances(rows0, targets) && k <= |targets|
  {
    && calls0 <= calls
    && (forall m :: |calls0| <= m < |calls| ==> Ran(rows0, targets, k, calls[m]) && !EvacuatedBefore(views0, calls[m]))
    && (forall m, n :: |calls0| <= m < n < |calls| ==> calls[m] != calls[n])
  }

  /** Every instance of the first k targets was evacuated now or before. */
  ghost predicate AllCalled(targets: seq<nat>, k: nat, rows0: seq<VMove>, views0: map<string, View>, calls: seq<string>)
    requires DistinctInstances(rows0, targets) && k <= |targets|
  {
    forall l :: 0 <= l < k ==> EvacuatedBefore(views0, rows0[targets[l]].instance) || rows0[targets[l]].instance in calls
  }

  /** What the end of a thread still means when all have run. */
  ghost predicate EndStands(end: End, vm: VMove, views: map<string, View>) {
    match end
    case Skipped => vm.instance in views && Skips(views[vm.instance].step)
    case Confirmed(s) =>
      && vm.instance in views && views[vm.instance] == ConfirmedView(views[vm.instance].original, s)
      && vm.status.SucceededMove? && ConfirmedBy(vm, s)
      && (s.host.Some? && s.host.value != "" ==> vm.dest == s.host)
    case Failed => vm.instance in views && views[vm.instance].step == FAILED && vm.status.FailedMove?
    case Broken => true
  }

  lemma RowsStep(targets: seq<nat>, k: nat, rows0: seq<VMove>, rows: seq<VMove>, after: seq<VMove>)
    requires DistinctInstances(rows0, targets) && k < |targets| && RowsAfter(targets, k, rows0, rows)
    requires OnlyRow(targets[k], rows, after)
    ensures RowsAfter(targets, k + 1, rows0, after)
    ensures forall l :: 0 <= l < k ==> after[targets[l]] == rows[targets[l]]
    ensures rows[targets[k]] == rows0[targets[k]]
  {
    assert targets[..k + 1] == targets[..k] + [targets[k]];
    assert forall l :: 0 <= l < k ==> rows0[targets[l]].instance != rows0[targets[k]].instance;
    assert targets[k] !in targets[..k];
  }

  lemma OthersStep(targets: seq<nat>, k: nat, rows0: seq<VMove>, views0: map<string, View>, views: map<string, View>,
                   viewsAfter: map<string, View>)
    requires DistinctInstances(rows0, targets) && k < |targets| && OthersKept(targets, k, rows0, views0, views)
    requires OnlyOf(rows0[targets[k]].instance, views, viewsAfter)
    ensures OthersKept(targets, k + 1, rows0, views0, viewsAfter)
  {
    forall y | !Ran(rows0, targets, k + 1, y)
      ensures (y in views0 <==> y in viewsAfter) && (y in views0 ==> viewsAfter[y] == views0[y])
    {
      assert y != rows0[targets[k]].instance;
      assert !Ran(rows0, targets, k, y);
    }
  }

  lemma ViewsStep(targets: seq<nat>, k: nat, rows0: seq<VMove>, rows: seq<VMove>, after: seq<VMove>,
                  views0: map<string, View>, views: map<string, View>, viewsAfter: map<string, View>,
                  calls: seq<string>, callsAfter: seq<string>)
    requires DistinctInstances(rows0, targets) && k < |targets| && RowsAfter(targets, k, rows0, rows)
    requires OnlyRow(targets[k], rows, after) && ViewsAfter(targets, k, rows0, rows, views0, views)
    requires OnlyOf(rows0[targets[k]].instance, views, viewsAfter)
    requires LeftAlone(after[targets[k]], views, viewsAfter, calls, callsAfter)
    ensures ViewsAfter(targets, k + 1, rows0, after, views0, viewsAfter)
  {
    RowsStep(targets, k, rows0, rows, after);
    OthersStep(targets, k, rows0, views0, views, viewsAfter);
    forall l | 0 <= l < k + 1 ensures BeforeKept(after[targets[l]], views0, viewsAfter) {
      if l < k {
        EarlierKept(targets, k, l, rows0, rows, views0, views, viewsAfter);
      } else {
        assert !Ran(rows0, targets, k, rows0[targets[k]].instance);
      }
    }
  }

  lemma EarlierKept(targets: seq<nat>, k: nat, l: nat, rows0: seq<VMove>, rows: seq<VMove>,
                    views0: map<string, View>, views: map<string, View>, viewsAfter: map<string, View>)
    requires DistinctInstances(rows0, targets) && l < k < |targets| && RowsAfter(targets, k, rows0, rows)
    requires BeforeKept(rows[targets[l]], views0, views) && OnlyOf(rows0[targets[k]].instance, views, viewsAfter)
    ensures BeforeKept(rows[targets[l]], views0, viewsAfter)
  {
    assert SameMove(rows0[targets[l]], rows[targets[l]]);
  }

  lemma CallsStep(targets: seq<nat>, k: nat, rows0: seq<VMove>, views0: map<string, View>, calls0: seq<string>,
                  calls: seq<string>, callsAfter: seq<string>)
    requires DistinctInstances(rows0, targets) && k < |targets| && CallsAfter(targets, k, rows0, views0, calls0, calls)
    requires callsAfter == calls || callsAfter == calls + [rows0[targets[k]].instance]
    requires EvacuatedBefore(views0, rows0[targets[k]].instance) ==> callsAfter == calls
    ensures CallsAfter(targets, k + 1, rows0, views0, calls0, callsAfter)
  {
    var x := rows0[targets[k]].instance;
    assert !Ran(rows0, targets, k, x);
    assert Ran(rows0, targets, k + 1, x);
    forall y | Ran(rows0, targets, k, y) ensures Ran(rows0, targets, k + 1, y) {}
  }

  /** The threads that skipped their instance found it evacuated before. */
  ghost predicate SkippedBefore(targets: seq<nat>, ends: seq<End>, rows0: seq<VMove>, views0: map<string, View>)
    requires DistinctInstances(rows0, targets)
  {
    forall l :: 0 <= l < |ends| && l < |targets| && ends[l].Skipped? ==> EvacuatedBefore(views0, rows0[targets[l]].instance)
  }

  /** A thread that skipped its instance left the row. */
  ghost predicate SkippedKept(targets: seq<nat>, ends: seq<End>, rows0: seq<VMove>, rows: seq<VMove>) {
    forall l :: 0 <= l < |ends| && l < |targets| && targets[l] < |rows0| && targets[l] < |rows| && ends[l].Skipped? ==>
                  rows[targets[l]].status == rows0[targets[l]].status
  }

  ghost predicate NoneBroken(ends: seq<End>) {
    forall l :: 0 <= l < |ends| ==> !ends[l].Broken?
  }

  ghost predicate AllBroken(ends: seq<End>) {
    forall l :: 0 <= l < |ends| ==> ends[l].Broken?
  }

  /** The state after the first k threads. */
  ghost predicate Progress(targets: seq<nat>, k: nat, rows0: seq<VMove>, rows: seq<VMove>, views0: map<string, View>,
                           views: map<string, View>, calls0: seq<string>, calls: seq<string>, ends: seq<End>)
    requires DistinctInstances(rows0, targets) && k <= |targets|
  {
    && RowsAfter(targets, k, rows0, rows) && ViewsAfter(targets, k, rows0, rows, views0, views)
    && CallsAfter(targets, k, rows0, views0, calls0, calls)
    && |ends| == k && SkippedBefore(targets, ends, rows0, views0) && SkippedKept(targets, ends, rows0, rows)
    && forall l :: 0 <= l < k ==> EndStands(ends[l], rows[targets[l]], views)
  }

  /** One more thread. */
  method RunOne(e: Engine, targets: seq<nat>, k: nat, ghost rows0: seq<VMove>, ghost views0: map<string, View>,
                ghost calls0: seq<string>, ghost ends0: seq<End>) returns (ghost end: End)
    requires DistinctInstances(rows0, targets) && k < |targets|
    requires Progress(targets, k, rows0, e.vmoves, views0, e.Views(), calls0, e.evacuated, ends0)
    modifies e`calls, e`records, e`writes, e`vmoves, e`evacuated, e`evacuatedAt, e`resets, e`lockedServers
    ensures Progress(targets, k + 1, rows0, e.vmoves, views0, e.Views(), calls0, e.evacuated, ends0 + [end])
    ensures AllPlaced(old(e.Views())) ==> AllPlaced(e.Views())
    ensures OnlyAt(rows0[targets[k]].instance, old(e.evacuatedAt), e.evacuatedAt)
    ensures e.Smooth() ==> !end.Broken? && EndAnswered(e, end, rows0[targets[k]], e.evacuatedAt)
                           && (end.Skipped? <==> EvacuatedBefore(views0, rows0[targets[k]].instance))
                           && (AllCalled(targets, k, rows0, views0, old(e.evacuated)) ==>
                                 AllCalled(targets, k + 1, rows0, views0, e.evacuated))
    ensures e.NovaDown() ==>
              end.Broken? && e.vmoves == old(e.vmoves) && e.Views() == old(e.Views()) && e.evacuated == old(e.evacuated)
  {
    ghost var rows, views, calls := e.vmoves, e.Views(), e.evacuated;
    RowsStep(targets, k, rows0, rows, rows);
    StillBefore(targets, k, rows0, rows, views0, views);
    var got, raised;
    ghost var handler;
    got, raised, handler := EvacuateAndConfirm(e, targets[k]);
    end := got;
    RowsStep(targets, k, rows0, rows, e.vmoves);
    ViewsStep(targets, k, rows0, rows, e.vmoves, views0, views, e.Views(), calls, e.evacuated);
    CallsStep(targets, k, rows0, views0, calls0, calls, e.evacuated);
    EndsStep(targets, k, rows0, rows, e.vmoves, views, e.Views(), ends0, end, calls, e.evacuated);
  }

  /** Every end follows from Nova's answers after the evacuate call of its instance. */
  ghost predicate SkipsExactly(targets: seq<nat>, ends: seq<End>, rows0: seq<VMove>, views0: map<string, View>)
    requires DistinctInstances(rows0, targets)
  {
    forall l :: 0 <= l < |ends| && l < |targets| ==>
                  (ends[l].Skipped? <==> EvacuatedBefore(views0, rows0[targets[l]].instance))
  }

  ghost predicate AllAnswered(e: Engine, targets: seq<nat>, rows0: seq<VMove>, ends: seq<End>, at: map<string, nat>)
    requires DistinctInstances(rows0, targets)
  {
    forall l :: 0 <= l < |ends| && l < |targets| ==> EndAnswered(e, ends[l], rows0[targets[l]], at)
  }

  lemma AnsweredStep(e: Engine, targets: seq<nat>, k: nat, rows0: seq<VMove>, ends: seq<End>, end: End,
                     at: map<string, nat>, after: map<string, nat>)
    requires DistinctInstances(rows0, targets) && |ends| == k < |targets| && AllAnswered(e, targets, rows0, ends, at)
    requires OnlyAt(rows0[targets[k]].instance, at, after) && EndAnswered(e, end, rows0[targets[k]], after)
    ensures AllAnswered(e, targets, rows0, ends + [end], after)
  {
    forall l | 0 <= l < k + 1 ensures EndAnswered(e, (ends + [end])[l], rows0[targets[l]], after) {
      if l < k {
        assert EndAnswered(e, ends[l], rows0[targets[l]], at);
        assert rows0[targets[l]].instance != rows0[targets[k]].instance;
      }
    }
  }

  /** The threads of the pool. */
  method RunTargets(e: Engine, targets: seq<nat>) returns (ghost ends: seq<End>)
    requires DistinctInstances(e.vmoves, targets)
    modifies e`calls, e`records, e`writes, e`vmoves, e`evacuated, e`evacuatedAt, e`resets, e`lockedServers
    ensures Progress(targets, |targets|, old(e.vmoves), e.vmoves, old(e.Views()), e.Views(), old(e.evacuated), e.evacuated, ends)
    ensures AllPlaced(old(e.Views())) ==> AllPlaced(e.Views())
    ensures e.Smooth() ==> AllCalled(targets, |targets|, old(e.vmoves), old(e.Views()), e.evacuated) && NoneBroken(ends)
                           && AllAnswered(e, targets, old(e.vmoves), ends, e.evacuatedAt)
                           && SkipsExactly(targets, ends, old(e.vmoves), old(e.Views()))
    ensures e.NovaDown() ==>
              AllBroken(ends) && e.vmoves == old(e.vmoves) && e.Views() == old(e.Views()) && e.evacuated == old(e.evacuated)
  {
    ends := [];
    ghost var rows0, views0, calls0 := e.vmoves, e.Views(), e.evacuated;
    for k := 0 to |targets|
      invariant Progress(targets, k, rows0, e.vmoves, views0, e.Views(), calls0, e.evacuated, ends)
      invariant AllPlaced(views0) ==> AllPlaced(e.Views())
      invariant e.Smooth() ==> AllCalled(targets, k, rows0, views0, e.evacuated) && NoneBroken(ends)
                               && AllAnswered(e, targets, rows0, ends, e.evacuatedAt)
                               && SkipsExactly(targets, ends, rows0, views0)
      invariant e.NovaDown() ==> AllBroken(ends) && e.vmoves == rows0 && e.Views() == views0 && e.evacuated == calls0
    {
      ghost var at := e.evacuatedAt;
      ghost var end := RunOne(e, targets, k, rows0, views0, calls0, ends);
      if e.Smooth() { AnsweredStep(e, targets, k, rows0, ends, end, at, e.evacuatedAt); }
      ends := ends + [end];
    }
  }

  /** A record whose thread has not run is the one of the beginning. */
  lemma StillBefore(targets: seq<nat>, k: nat, rows0: seq<VMove>, rows: seq<VMove>,
                    views0: map<string, View>, views: map<string, View>)
    requires DistinctInstances(rows0, targets) && k < |targets| && |rows| == |rows0|
    requires ViewsAfter(targets, k, rows0, rows, views0, views)
    ensures EvacuatedBefore(views0, rows0[targets[k]].instance) <==> EvacuatedBefore(views, rows0[targets[k]].instance)
  {
    assert !Ran(rows0, targets, k, rows0[targets[k]].instance);
  }

  /** The ends of earlier threads stand: this one touches another row and another record. */
  lemma EndsStep(targets: seq<nat>, k: nat, rows0: seq<VMove>, rows: seq<VMove>, after: seq<VMove>,
                 views: map<string, View>, viewsAfter: map<string, View>, ends: seq<End>, end: End,
                 calls: seq<string>, callsAfter: seq<string>)
    requires DistinctInstances(rows0, targets) && k < |targets| && RowsAfter(targets, k, rows0, rows)
    requires OnlyRow(targets[k], rows, after) && OnlyOf(rows0[targets[k]].instance, views, viewsAfter)
    requires |ends| == k && forall l :: 0 <= l < k ==> EndStands(ends[l], rows[targets[l]], views)
    requires EndHolds(end, after[targets[k]], views, viewsAfter, calls, callsAfter)
    ensures forall l :: 0 <= l < k + 1 ==> EndStands((ends + [end])[l], after[targets[l]], viewsAfter)
  {
    RowsStep(targets, k, rows0, rows, after);
    forall l | 0 <= l < k + 1 ensures EndStands((ends + [end])[l], after[targets[l]], viewsAfter) {
      if l < k {
        assert EndStands(ends[l], rows[targets[l]], views);
        assert SameMove(rows0[targets[l]], rows[targets[l]]);
        assert rows[targets[l]].instance != rows0[targets[k]].instance;
      }
    }
  }

  ghost predicate HasFailedRow(rows: seq<VMove>) {
    exists j :: 0 <= j < |rows| && rows[j].status.FailedMove?
  }

  /**
   * execute.  An instance whose record says that it was evacuated before is not evacuated again,
   * no instance is evacuated twice, and only instances with a pending or ongoing row are.  The
   * task raises FailedMoves exactly when some row of the notification says FAILED at the end, and
   * rows that said so at the beginning still do: failures of earlier runs are never forgotten.  On
   * a normal return the records of instances evacuated before are untouched, and every target was
   * skipped or confirmed, unless its thread ended Broken; when no call raises, none did, every
   * target that was not evacuated before is evacuated, and it ends Confirmed exactly if Nova's answers
   * after the call confirm it in time, so the task returns exactly if they all do and no row was
   * FAILED before.  When Nova is down, all of them end Broken, nothing is changed, and the task still
   * returns.
   */
  method Execute(e: Engine, reservedHost: bool)
    returns (r: Result<()>, ghost targets: seq<nat>, ghost ends: seq<End>)
    modifies e`calls, e`records, e`writes, e`vmoves, e`evacuated, e`evacuatedAt, e`resets, e`lockedServers
    ensures DistinctInstances(old(e.vmoves), targets) && forall k :: 0 <= k < |targets| ==>
              StandsFor(old(e.vmoves), targets[k])
    ensures CallsAfter(targets, |targets|, old(e.vmoves), old(e.Views()), old(e.evacuated), e.evacuated)
    ensures AllPlaced(old(e.Views())) ==> AllPlaced(e.Views())
    ensures RowsAfter(targets, |targets|, old(e.vmoves), e.vmoves)
    ensures OthersKept(targets, |targets|, old(e.vmoves), old(e.Views()), e.Views())
    ensures r.Ok? ==> !HasFailedRow(e.vmoves)
    ensures r == Err(FailedMoves) ==> HasFailedRow(e.vmoves)
    ensures HasFailedRow(old(e.vmoves)) ==> r.Err? && HasFailedRow(e.vmoves)
    ensures r.Ok? ==> forall x :: EvacuatedBefore(old(e.Views()), x) ==> x in e.Views() && e.Views()[x] == old(e.Views())[x]
    ensures r.Ok? ==> forall j :: 0 <= j < |old(e.vmoves)| && Targeted(old(e.vmoves)[j]) ==>
                        Ran(old(e.vmoves), targets, |targets|, old(e.vmoves)[j].instance)
    ensures e.config.enabled && e.Smooth() ==> (r.Ok? <==> !HasFailedRow(e.vmoves))
                                               && AllCalled(targets, |targets|, old(e.vmoves), old(e.Views()), e.evacuated)
    ensures r.Ok? ==> |ends| == |targets| && forall l :: 0 <= l < |ends| ==>
                        !ends[l].Failed? && targets[l] < |e.vmoves| && EndStands(ends[l], e.vmoves[targets[l]], e.Views())
    ensures SkippedBefore(targets, ends, old(e.vmoves), old(e.Views())) && (e.Smooth() ==> NoneBroken(ends))
    ensures e.Smooth() ==> AllAnswered(e, targets, old(e.vmoves), ends, e.evacuatedAt)
    ensures e.config.enabled && e.Smooth() ==>
              (r.Ok? <==> !HasFailedRow(old(e.vmoves))
                          && AllConfirmed(e, targets, old(e.vmoves), old(e.Views()), e.evacuatedAt))
    ensures e.NovaDown() ==>
              AllBroken(ends) && e.vmoves == old(e.vmoves) && e.Views() == old(e.Views()) && e.evacuated == old(e.evacuated)
    ensures e.config.enabled && e.NovaDown() && e.OthersUp() && !reservedHost ==> (r.Ok? <==> !HasFailedRow(old(e.vmoves)))
  {
    ends := [];
    var rows;
    r, rows := Begin(e, reservedHost);
    targets := rows;
    if r.Err? { return; }
    ends := RunAll(e, rows);
    r := Judge(e);
  }

  /** The threads, and what follows for the task. */
  method RunAll(e: Engine, targets: seq<nat>) returns (ghost ends: seq<End>)
    requires DistinctInstances(e.vmoves, targets) && forall k :: 0 <= k < |targets| ==> StandsFor(e.vmoves, targets[k])
    modifies e`calls, e`records, e`writes, e`vmoves, e`evacuated, e`evacuatedAt, e`resets, e`lockedServers
    ensures RowsAfter(targets, |targets|, old(e.vmoves), e.vmoves)
    ensures OthersKept(targets, |targets|, old(e.vmoves), old(e.Views()), e.Views())
    ensures CallsAfter(targets, |targets|, old(e.vmoves), old(e.Views()), old(e.evacuated), e.evacuated)
    ensures AllPlaced(old(e.Views())) ==> AllPlaced(e.Views())
    ensures |ends| == |targets| && SkippedBefore(targets, ends, old(e.vmoves), old(e.Views()))
    ensures HasFailedRow(old(e.vmoves)) ==> HasFailedRow(e.vmoves)
    ensures !HasFailedRow(e.vmoves) ==>
              && (forall x :: EvacuatedBefore(old(e.Views()), x) ==> x in e.Views() && e.Views()[x] == old(e.Views())[x])
              && forall l :: 0 <= l < |ends| ==>
                   !ends[l].Failed? && targets[l] < |e.vmoves| && EndStands(ends[l], e.vmoves[targets[l]], e.Views())
    ensures e.Smooth() ==>
              && AllCalled(targets, |targets|, old(e.vmoves), old(e.Views()), e.evacuated) && NoneBroken(ends)
              && AllAnswered(e, targets, old(e.vmoves), ends, e.evacuatedAt)
              && (!HasFailedRow(e.vmoves) <==> !HasFailedRow(old(e.vmoves))
                                               && AllConfirmed(e, targets, old(e.vmoves), old(e.Views()), e.evacuatedAt))
    ensures e.NovaDown() ==>
              AllBroken(ends) && e.vmoves == old(e.vmoves) && e.Views() == old(e.Views()) && e.evacuated == old(e.evacuated)
  {
    ghost var rows0, views0 := e.vmoves, e.Views();
    ends := RunTargets(e, targets);
    FailedRowsStay(targets, rows0, e.vmoves);
    if e.Smooth() { ReturnsIff(e, targets, rows0, e.vmoves, ends, views0, e.Views(), e.evacuatedAt); }
    if !HasFailedRow(e.vmoves) {
      RecordsStay(targets, rows0, e.vmoves, views0, e.Views());
      EndsNotFailed(targets, ends, e.vmoves, e.Views());
    }
  }

  /** The rows are listed again, and the task raises for those that say FAILED. */
  method Judge(e: Engine) returns (r: Result<()>)
    modifies e`calls
    ensures r.Ok? ==> !HasFailedRow(e.vmoves)
    ensures r.Err? ==> r.error.Raised? || (r.error.FailedMoves? && HasFailedRow(e.vmoves))
    ensures e.OthersUp() ==> (r.Ok? <==> !HasFailedRow(e.vmoves))
  {
    var listed := e.Call();
    if !listed.Fine? { return Err(Raised); }
    if exists j :: 0 <= j < |e.vmoves| && e.vmoves[j].status.FailedMove? { return Err(FailedMoves); }
    return Ok(());
  }

  /** Every target was evacuated before, or Nova's answers after the call confirmed its evacuation in time. */
  ghost predicate AllConfirmed(e: Engine, targets: seq<nat>, rows0: seq<VMove>, views0: map<string, View>, at: map<string, nat>)
    requires DistinctInstances(rows0, targets)
  {
    forall l :: 0 <= l < |targets| ==>
                  EvacuatedBefore(views0, rows0[targets[l]].instance) || AsAnswered(e, true, rows0[targets[l]], at)
  }

  /** So when no call raises, some row is FAILED in the end unless all that were evacuated are confirmed. */
  lemma ReturnsIff(e: Engine, targets: seq<nat>, rows0: seq<VMove>, rows: seq<VMove>, ends: seq<End>,
                   views0: map<string, View>, views: map<string, View>, at: map<string, nat>)
    requires DistinctInstances(rows0, targets) && RowsAfter(targets, |targets|, rows0, rows) && |ends| == |targets|
    requires forall k :: 0 <= k < |targets| ==> StandsFor(rows0, targets[k])
    requires NoneBroken(ends) && SkippedBefore(targets, ends, rows0, views0) && SkippedKept(targets, ends, rows0, rows)
    requires forall l :: 0 <= l < |ends| ==> EndStands(ends[l], rows[targets[l]], views)
    requires SkipsExactly(targets, ends, rows0, views0) && AllAnswered(e, targets, rows0, ends, at)
    ensures !HasFailedRow(rows) <==>
            !HasFailedRow(rows0) && AllConfirmed(e, targets, rows0, views0, at)
  {
    FailedIff(targets, rows0, rows, ends, views);
    forall l | 0 <= l < |targets|
      ensures ends[l].Failed? <==> !(EvacuatedBefore(views0, rows0[targets[l]].instance) || AsAnswered(e, true, rows0[targets[l]], at))
    {
      assert EndAnswered(e, ends[l], rows0[targets[l]], at) && !ends[l].Broken?;
    }
  }

  /** When no thread ends Broken, no row is FAILED exactly if none was before and no thread failed. */
  lemma FailedIff(targets: seq<nat>, rows0: seq<VMove>, rows: seq<VMove>, ends: seq<End>, views: map<string, View>)
    requires DistinctInstances(rows0, targets) && RowsAfter(targets, |targets|, rows0, rows) && |ends| == |targets|
    requires forall k :: 0 <= k < |targets| ==> StandsFor(rows0, targets[k])
    requires NoneBroken(ends) && SkippedKept(targets, ends, rows0, rows)
    requires forall l :: 0 <= l < |ends| ==> EndStands(ends[l], rows[targets[l]], views)
    ensures HasFailedRow(rows) <==> HasFailedRow(rows0) || exists l :: 0 <= l < |ends| && ends[l].Failed?
  {
    FailedRowsStay(targets, rows0, rows);
    if l :| 0 <= l < |ends| && ends[l].Failed? {
      assert EndStands(ends[l], rows[targets[l]], views);
    }
    if j :| 0 <= j < |rows| && rows[j].status.FailedMove? {
      assert targets[..|targets|] == targets;
      if j in targets {
        var l :| 0 <= l < |targets| && targets[l] == j;
        assert EndStands(ends[l], rows[targets[l]], views) && !ends[l].Broken?;
        assert StandsFor(rows0, targets[l]);
      }
    }
  }

  /** What execute does before the threads: the targets, and the reserved host made ready. */
  method Begin(e: Engine, reservedHost: bool) returns (r: Result<()>, targets: seq<nat>)
    modifies e`calls
    ensures DistinctInstances(e.vmoves, targets) && forall k :: 0 <= k < |targets| ==> StandsFor(e.vmoves, targets[k])
    ensures r.Err? ==> targets == [] && r.error != FailedMoves
    ensures e.config.enabled && e.OthersUp() && (e.CallsUp() || !reservedHost) ==> r.Ok?
    ensures r.Ok? ==> forall j :: 0 <= j < |e.vmoves| && Targeted(e.vmoves[j]) ==>
                        Ran(e.vmoves, targets, |targets|, e.vmoves[j].instance)
  {
    if !e.config.enabled { return Err(Disabled), []; }
    var available := e.Call();
    var pending := e.Call();
    var ongoing := e.Call();
    if !available.Fine? || !pending.Fine? || !ongoing.Fine? { return Err(Raised), []; }
    if reservedHost {
      var prepared := e.CallNova();
      if !prepared.Fine? { return Err(Raised), []; }
    }
    targets := TargetRows(e.vmoves);
    r := Ok(());
  }

  lemma EndsNotFailed(targets: seq<nat>, ends: seq<End>, rows: seq<VMove>, views: map<string, View>)
    requires |ends| == |targets| && forall l :: 0 <= l < |targets| ==> targets[l] < |rows|
    requires !HasFailedRow(rows) && forall l :: 0 <= l < |ends| ==> EndStands(ends[l], rows[targets[l]], views)
    ensures forall l :: 0 <= l < |ends| ==> !ends[l].Failed?
  {
    forall l | 0 <= l < |ends| ensures !ends[l].Failed? {
      assert EndStands(ends[l], rows[targets[l]], views);
    }
  }

  lemma FailedRowsStay(targets: seq<nat>, rows0: seq<VMove>, rows: seq<VMove>)
    requires RowsAfter(targets, |targets|, rows0, rows)
    requires forall k :: 0 <= k < |targets| ==> StandsFor(rows0, targets[k])
    ensures HasFailedRow(rows0) ==> HasFailedRow(rows)
  {
    if HasFailedRow(rows0) {
      var j :| 0 <= j < |rows0| && rows0[j].status.FailedMove?;
      assert j !in targets[..|targets|];
      assert rows[j] == rows0[j];
    }
  }

  lemma RecordsStay(targets: seq<nat>, rows0: seq<VMove>, rows: seq<VMove>, views0: map<string, View>,
                    views: map<string, View>)
    requires DistinctInstances(rows0, targets) && RowsAfter(targets, |targets|, rows0, rows) && !HasFailedRow(rows)
    requires ViewsAfter(targets, |targets|, rows0, rows, views0, views)
    ensures forall x :: EvacuatedBefore(views0, x) ==> x in views && views[x] == views0[x]
  {
    forall x | EvacuatedBefore(views0, x) ensures x in views && views[x] == views0[x] {
      if Ran(rows0, targets, |targets|, x) {
        var l :| 0 <= l < |targets| && rows0[targets[l]].instance == x;
        assert BeforeKept(rows[targets[l]], views0, views);
        assert SameMove(rows0[targets[l]], rows[targets[l]]);
      }
    }
  }

  /** vm-1 waits for its evacuation. */
  const ONE_ROW: seq<VMove> := [VMove("vm-1", "vm-1", Some("host-a"), None, PendingMove)]

  const ON_A: Server := Server(Some("host-a"), Text("active"), Null, Null, false)

  /**
   * So a normal return does not mean that the instances were evacuated.  Here Nova refuses every
   * call and nothing else raises: the task returns, its one VMove still PENDING and no evacuation
   * asked for.
   */
  method BrokenThreadHides(config: Config) returns (e: Engine, returned: bool)
    requires config.enabled
    ensures e.config == config && e.NovaDown() && e.StoreUp() && e.OthersUp()
    ensures returned && e.vmoves == ONE_ROW && ONE_ROW[0].status.PendingMove? && e.evacuated == []
  {
    e := new Engine(config, "engine", "notification", k => World(Fine, Fine, Refused, Fine, ON_A, 0), map[], ONE_ROW);
    var r;
    ghost var targets, ends;
    r, targets, ends := Execute(e, false);
    returned := r.Ok?;
  }
}
