/**
 * What the three staged recovery tasks of one notification act on: the etcd records of its
 * instances, its VMove rows, the start slots, and Nova.
 *
 * One workflow runs without interference: nobody else writes the notification's records or rows
 * (so no compare-and-replace is lost), while Nova's answers are arbitrary and any call may raise,
 * before or after it took effect.
 */
module StagedEngine {
  import opened Wrappers

  import opened EtcdRecords

  const DISCOVERED := Text("DISCOVERED")
  const EVACUATING := Text("EVACUATING")
  const EVACUATED_STOPPED := Text("EVACUATED_STOPPED")
  const WAITING_START_SLOT := Text("WAITING_START_SLOT")
  const STARTING := Text("STARTING")
  const ACTIVE := Text("ACTIVE")
  const FAILED := Text("FAILED")
  const IGNORED := Text("IGNORED")

  datatype Config = Config(
    enabled: bool,
    startOnlyOriginallyActive: bool,
    evacuationPolls: nat,      // how many polls fit into wait_period_after_evacuation
    startPolls: nat)           // and into start_timeout

  datatype Server = Server(host: Option<string>, vm: Value, task: Value, power: Value, locked: bool)

  predicate IsActive(s: Server) { s.vm == Text("active") }

  predicate IsStopped(s: Server) { s.vm == Text("stopped") || s.vm == Text("shutoff") }

  datatype Status = PendingMove | OngoingMove | SucceededMove | FailedMove | IgnoredMove

  datatype VMove = VMove(instance: string, name: string, source: Option<string>, dest: Option<string>, status: Status)

  function NullableText(o: Option<string>): Value {
    match o
    case None => Null
    case Some(t) => Text(t)
  }

  datatype Error = Disabled | Raised | FailedMoves | FailedStarts

  datatype Result<T> = Ok(value: T) | Err(error: Error)

  /**
   * What the k-th call meets: the reply of the record store, if it is an update of a record or any
   * other call of the store, of Nova, with the server it answers, or of anything else.
   */
  datatype World = World(store: Reply, update: Reply, nova: Reply, other: Reply, server: Server, now: int)

  // ---------------------------------------------------------------- records as the tasks see them

  /** state.get(field) */
  function Lookup(r: Record, field: string): Value {
    if field in r then r[field] else Null
  }

  datatype View = View(step: Value, original: Value, current: Value, dest: Option<Value>)

  /** dest is the dest_host, if the record has one. */
  function ViewOf(r: Record): View {
    View(Lookup(r, "step"), Lookup(r, "original_vm_state"), Lookup(r, "current_vm_state"), Destination(r))
  }

  function Destination(r: Record): Option<Value> {
    if "dest_host" in r then Some(r["dest_host"]) else None
  }

  function After(v: View, patch: Record): View {
    View(if "step" in patch then patch["step"] else v.step,
         v.original,
         if "current_vm_state" in patch then patch["current_vm_state"] else v.current,
         if "dest_host" in patch then Some(patch["dest_host"]) else v.dest)
  }

  predicate OriginallyActive(v: View) { v.original == Text("active") }

  /** A stopped instance is wanted when the run may start it. */
  predicate Wanted(config: Config, v: View) {
    config.startOnlyOriginallyActive ==> OriginallyActive(v)
  }

  /** The steps at which EvacuateToStopped leaves an instance alone. */
  predicate Skips(step: Value) {
    step == EVACUATED_STOPPED || step == ACTIVE || step == IGNORED
  }

  /** Every record that waits for its start knows its destination. */
  ghost predicate AllPlaced(views: map<string, View>) {
    forall x :: x in views && views[x].step == EVACUATED_STOPPED ==> views[x].dest.Some?
  }

  /** Nothing but x's record changed, and x kept the original state it had. */
  ghost predicate OnlyOf(x: string, before: map<string, View>, after: map<string, View>) {
    && (forall y :: y != x ==> (y in before <==> y in after) && (y in before ==> before[y] == after[y]))
    && (x in before ==> x in after && before[x].original == after[x].original)
  }

  /** Nothing but the status and destination of row i changed. */
  ghost predicate OnlyRow(i: nat, before: seq<VMove>, after: seq<VMove>) {
    && |before| == |after| && (forall j :: 0 <= j < |before| && j != i ==> before[j] == after[j])
    && (i < |before| ==> after[i] == before[i].(dest := after[i].dest, status := after[i].status))
  }

  /** A patch of the workflow never touches the original state. */
  lemma PatchedView(current: Record, patch: Record, owner: string, now: int)
    requires patch.Keys <= WORKFLOW_FIELDS
    ensures ViewOf(Patched(current, patch, owner, now)) == After(ViewOf(current), patch)
  {
    assert "original_vm_state" !in WORKFLOW_FIELDS;
    assert "original_vm_state" !in patch.Keys;
  }

  lemma BaseView(notification: string, x: string, owner: string, now: int, values: Record)
    requires Lookup(values, "step") == DISCOVERED
    ensures ViewOf(BaseState(notification, x, owner, now, values)) == ViewOf(values)
  {
  }

  // ---------------------------------------------------------------- updates of records

  /** One call of update_instance_state: the step it writes, if any, and how it ended. */
  datatype RecordWrite = RecordWrite(x: string, step: Value, reply: Reply)

  /** The step of the last update of x that took effect. */
  function LastWritten(writes: seq<RecordWrite>, x: string): Option<Value>
    decreases |writes|
  {
    if writes == [] then None
    else
      var last := writes[|writes| - 1];
      if last.x == x && !last.reply.Refused? then Some(last.step) else LastWritten(writes[..|writes| - 1], x)
  }

  /** Every update of x was refused. */
  ghost predicate AllRefused(writes: seq<RecordWrite>, x: string) {
    forall w :: w in writes && w.x == x ==> w.reply.Refused?
  }

  lemma {:induction false} NoneWrittenIff(writes: seq<RecordWrite>, x: string)
    ensures LastWritten(writes, x).None? <==> AllRefused(writes, x)
    decreases |writes|
  {
    if writes != [] {
      var n := |writes| - 1;
      NoneWrittenIff(writes[..n], x);
      assert writes == writes[..n] + [writes[n]];
    }
  }

  lemma {:induction false} LastOfTwo(a: seq<RecordWrite>, b: seq<RecordWrite>, x: string)
    ensures LastWritten(a + b, x) == if LastWritten(b, x).Some? then LastWritten(b, x) else LastWritten(a, x)
    decreases |b|
  {
    if b == [] {
      assert a + b == a;
    } else {
      var n := |b| - 1;
      assert (a + b)[..|a + b| - 1] == a + b[..n];
      LastOfTwo(a, b[..n], x);
    }
  }

  // ---------------------------------------------------------------- start slots

  /** The calls of acquire and release for an instance, and how they ended. */
  datatype SlotCall = Acquired(x: string, reply: Reply) | Released(x: string, reply: Reply)

  /** The start slots held, and every call of the limiter so far. */
  datatype Slots = Slots(held: set<string>, log: seq<SlotCall>)

  /** A lost acquire holds a slot, a refused release keeps it. */
  function AfterCall(s: Slots, call: SlotCall): Slots {
    Slots(match call
          case Acquired(x, reply) => if reply.Refused? then s.held else s.held + {x}
          case Released(x, reply) => if reply.Refused? then s.held else s.held - {x},
          s.log + [call])
  }

  /** The slot of x stayed behind: its acquire lost the answer, or its release was refused. */
  predicate LeftBehind(calls: seq<SlotCall>, x: string) {
    Acquired(x, Lost) in calls || Released(x, Refused) in calls
  }

  /** The release of x took effect. */
  predicate GivenBack(calls: seq<SlotCall>, x: string) {
    Released(x, Fine) in calls || Released(x, Lost) in calls
  }

  /** Every acquire that returned has its release. */
  ghost predicate AllReleased(calls: seq<SlotCall>) {
    forall x :: Acquired(x, Fine) in calls ==> GivenBack(calls, x) || Released(x, Refused) in calls
  }

  // ---------------------------------------------------------------- the engine

  class Engine {
    const config: Config
    const owner: string
    const notification: string
    const world: nat -> World
    var calls: nat
    var records: map<string, Record>
    var vmoves: seq<VMove>
    ghost var evacuated: seq<string>          // every evacuate call so far
    ghost var evacuatedAt: map<string, nat>   // and the number of its last one
    ghost var started: seq<string>            // every start_server call so far
    ghost var startedAt: map<string, nat>     // and the number of its last one
    ghost var resets: seq<string>             // every reset_instance_state call so far
    ghost var asked: map<string, Value>       // for which host an instance last asked for a slot
    ghost var writes: seq<RecordWrite>        // every update of a record so far
    ghost var slots: Slots                    // the start slots
    ghost var lockedServers: set<string>      // servers this engine locked

    constructor (config: Config, owner: string, notification: string, world: nat -> World,
                 records: map<string, Record>, vmoves: seq<VMove>)
      ensures this.config == config && this.world == world && this.records == records && this.vmoves == vmoves
      ensures evacuated == [] && started == [] && writes == [] && slots == Slots({}, []) && lockedServers == {}
      ensures evacuatedAt == map[] && startedAt == map[] && resets == [] && asked == map[]
    {
      this.config, this.owner, this.notification, this.world := config, owner, notification, world;
      this.calls, this.records, this.vmoves := 0, records, vmoves;
      this.evacuated, this.started, this.writes, this.slots, this.lockedServers := [], [], [], Slots({}, []), {};
      this.evacuatedAt, this.startedAt, this.resets, this.asked := map[], map[], [], map[];
    }

    ghost function Views(): map<string, View>
      reads `records
    {
      map x | x in records :: ViewOf(records[x])
    }

    /** No call of the record store ever raises, but for updates. */
    ghost predicate ReadsUp() {
      forall k :: world(k).store.Fine?
    }

    /** No call of the record store ever raises. */
    ghost predicate StoreUp() {
      ReadsUp() && forall k :: world(k).update.Fine?
    }

    /** No call but those of the record store and of Nova ever raises. */
    ghost predicate OthersUp() {
      forall k :: world(k).other.Fine?
    }

    /** No call but those of the record store ever raises; Nova's answers are still arbitrary. */
    ghost predicate CallsUp() {
      OthersUp() && forall k :: world(k).nova.Fine?
    }

    /** No call ever raises. */
    ghost predicate Smooth() {
      StoreUp() && CallsUp()
    }

    /** No call raises but the updates of records. */
    ghost predicate OnlyUpdatesRaise() {
      ReadsUp() && CallsUp()
    }

    /** Every update of a record is refused. */
    ghost predicate UpdatesRefused() {
      forall k :: world(k).update.Refused?
    }

    /** Every call of Nova raises. */
    ghost predicate NovaDown() {
      forall k :: !world(k).nova.Fine?
    }

    /** Nova gives this answer at some time. */
    ghost predicate Answered(s: Server) {
      exists k :: world(k).server == s
    }

    /** A call outside the record store and Nova that returns nothing of interest. */
    method Call() returns (reply: Reply)
      modifies `calls
      ensures reply == world(old(calls)).other && calls == old(calls) + 1
    {
      reply := world(calls).other;
      calls := calls + 1;
    }

    /** A call of Nova that returns nothing of interest. */
    method CallNova() returns (reply: Reply)
      modifies `calls
      ensures reply == world(old(calls)).nova && calls == old(calls) + 1
    {
      reply := world(calls).nova;
      calls := calls + 1;
    }

    method EvacuateServer(x: string) returns (reply: Reply)
      modifies `calls, `evacuated, `evacuatedAt
      ensures reply == world(old(calls)).nova && calls == old(calls) + 1
      ensures evacuated == old(evacuated) + [x] && evacuatedAt == old(evacuatedAt)[x := old(calls)]
    {
      evacuated, evacuatedAt := evacuated + [x], evacuatedAt[x := calls];
      reply := CallNova();
    }

    method StartServer(x: string) returns (reply: Reply)
      modifies `calls, `started, `startedAt
      ensures reply == world(old(calls)).nova && calls == old(calls) + 1
      ensures started == old(started) + [x] && startedAt == old(startedAt)[x := old(calls)]
    {
      started, startedAt := started + [x], startedAt[x := calls];
      reply := CallNova();
    }

    method ResetServer(x: string) returns (reply: Reply)
      modifies `calls, `resets
      ensures reply == world(old(calls)).nova && calls == old(calls) + 1 && resets == old(resets) + [x]
    {
      resets := resets + [x];
      reply := CallNova();
    }

    /** The limiter's acquire, for a slot of the host. */
    method AcquireSlot(x: string, host: Value) returns (reply: Reply)
      modifies `calls, `slots, `asked
      ensures slots == AfterCall(old(slots), Acquired(x, reply)) && asked == old(asked)[x := host]
      ensures CallsUp() ==> reply.Fine?
    {
      reply := Call();
      slots, asked := AfterCall(slots, Acquired(x, reply)), asked[x := host];
    }

    /** The limiter's release. */
    method ReleaseSlot(x: string) returns (reply: Reply)
      modifies `calls, `slots
      ensures slots == AfterCall(old(slots), Released(x, reply))
      ensures CallsUp() ==> reply.Fine?
    {
      reply := Call();
      slots := AfterCall(slots, Released(x, reply));
    }

    method GetServer(x: string) returns (r: Result<Server>)
      modifies `calls
      ensures calls == old(calls) + 1
      ensures r == if world(old(calls)).nova.Fine? then Ok(world(old(calls)).server) else Err(Raised)
      ensures r.Ok? ==> Answered(r.value)
    {
      var w := world(calls);
      calls := calls + 1;
      return if w.nova.Fine? then Ok(w.server) else Err(Raised);
    }

    /** create_or_get_instance_state: an existing record is never overwritten. */
    method CreateOrGet(x: string, values: Record) returns (r: Result<Record>)
      requires Lookup(values, "step") == DISCOVERED
      modifies `calls, `records
      ensures x in old(Views()) ==> Views() == old(Views())
      ensures x !in old(Views()) ==> Views() == old(Views()) || Views() == old(Views())[x := ViewOf(values)]
      ensures r.Ok? ==> x in Views() && Views()[x] == ViewOf(r.value)
      ensures ReadsUp() ==> r.Ok?
      ensures r.Err? ==> r.error.Raised?
      ensures AllPlaced(old(Views())) ==> AllPlaced(Views())
    {
      var create := world(calls);
      calls := calls + 1;
      if create.store.Refused? { return Err(Raised); }
      if x !in records {
        var state := BaseState(notification, x, owner, create.now, values);
        BaseView(notification, x, owner, create.now, values);
        records := records[x := state];
        return if create.store.Fine? then Ok(state) else Err(Raised);
      }
      if create.store.Lost? { return Err(Raised); }
      var get := world(calls);
      calls := calls + 1;
      return if get.store.Fine? then Ok(records[x]) else Err(Raised);
    }

    /** update_instance_state, without foreign writes; it raises for an instance without a record. */
    method Update(x: string, patch: Record) returns (r: Result<()>)
      requires patch.Keys <= WORKFLOW_FIELDS
      requires Lookup(patch, "step") == EVACUATED_STOPPED ==> "dest_host" in patch
      modifies `calls, `records, `writes
      ensures calls == old(calls) + 1
      ensures writes == old(writes) + [RecordWrite(x, Lookup(patch, "step"), world(old(calls)).update)]
      ensures r == if x in old(Views()) && world(old(calls)).update.Fine? then Ok(()) else Err(Raised)
      ensures Views() == if x in old(Views()) && !world(old(calls)).update.Refused?
                         then old(Views())[x := After(old(Views())[x], patch)] else old(Views())
      ensures AllPlaced(old(Views())) ==> AllPlaced(Views())
    {
      var w := world(calls);
      calls := calls + 1;
      writes := writes + [RecordWrite(x, Lookup(patch, "step"), w.update)];
      if w.update.Refused? || x !in records { return Err(Raised); }
      PatchedView(records[x], patch, owner, w.now);
      records := records[x := Patched(records[x], patch, owner, w.now)];
      return if w.update.Fine? then Ok(()) else Err(Raised);
    }

    /** transition_instance_state, without foreign writes; Ok(false) when the step is not expected. */
    method Transition(x: string, expected: set<string>, newStep: string) returns (r: Result<bool>)
      requires newStep != "EVACUATED_STOPPED"
      modifies `calls, `records
      ensures r.Ok? ==> x in old(Views())
      ensures r == Ok(true) ==> Views() == old(Views())[x := old(Views())[x].(step := Text(newStep))]
      ensures r == Ok(false) ==> Views() == old(Views())
      ensures ReadsUp() && x in old(Views()) ==> r.Ok?
      ensures r.Ok? ==> (r.value <==> exists s :: s in expected && old(Views())[x].step == Text(s))
      ensures r.Err? ==> r.error.Raised?
                         && (Views() == old(Views())
                             || (x in old(Views()) && Views() == old(Views())[x := old(Views())[x].(step := Text(newStep))]))
      ensures AllPlaced(old(Views())) ==> AllPlaced(Views())
    {
      var w := world(calls);
      calls := calls + 1;
      if w.store.Refused? || x !in records { return Err(Raised); }
      if !StepIn(records[x], expected) { return if w.store.Fine? then Ok(false) else Err(Raised); }
      assert Views()[x].step == records[x]["step"];
      records := records[x := Transitioned(records[x], map[], newStep, owner, w.now)];
      return if w.store.Fine? then Ok(true) else Err(Raised);
    }

    /** list_instance_states: every record of the notification, once. */
    method ListInstances() returns (r: Result<seq<string>>)
      modifies `calls
      ensures r.Ok? ==> (forall x :: x in r.value <==> x in Views())
                        && forall k, l :: 0 <= k < l < |r.value| ==> r.value[k] != r.value[l]
      ensures r.Err? ==> r.error.Raised?
      ensures ReadsUp() ==> r.Ok?
    {
      var w := world(calls);
      calls := calls + 1;
      var order := Keys(records);
      return if w.store.Fine? then Ok(order) else Err(Raised);
    }

    /** mark_failed */
    method MarkFailed(x: string, message: string) returns (r: Result<()>)
      modifies `calls, `records, `writes
      ensures calls == old(calls) + 1
      ensures writes == old(writes) + [RecordWrite(x, FAILED, world(old(calls)).update)]
      ensures r == if x in old(Views()) && world(old(calls)).update.Fine? then Ok(()) else Err(Raised)
      ensures Views() == if x in old(Views()) && !world(old(calls)).update.Refused?
                         then old(Views())[x := old(Views())[x].(step := FAILED)] else old(Views())
      ensures AllPlaced(old(Views())) ==> AllPlaced(Views())
    {
      r := Update(x, map["step" := FAILED, "last_error" := Text(message)]);
    }

    /** vmove.save(): the row takes the values of the task's copy. */
    method Save(i: nat, copy: VMove) returns (r: Result<()>)
      requires i < |vmoves| && copy == vmoves[i].(dest := copy.dest, status := copy.status)
      modifies `calls, `vmoves
      ensures calls == old(calls) + 1
      ensures r == if world(old(calls)).other.Fine? then Ok(()) else Err(Raised)
      ensures vmoves == if world(old(calls)).other.Refused? then old(vmoves) else old(vmoves)[i := copy]
    {
      var reply := Call();
      if reply.Refused? { return Err(Raised); }
      vmoves := vmoves[i := copy];
      return if reply.Fine? then Ok(()) else Err(Raised);
    }
  }

  /** The keys of a dictionary, each once. */
  method Keys<T>(dict: map<string, T>) returns (order: seq<string>)
    ensures forall x :: x in order <==> x in dict
    ensures forall k, l :: 0 <= k < l < |order| ==> order[k] != order[l]
  {
    order := [];
    var rest := dict.Keys;
    while rest != {}
      invariant rest <= dict.Keys
      invariant forall x :: x in order <==> x in dict.Keys - rest
      invariant forall k, l :: 0 <= k < l < |order| ==> order[k] != order[l]
    {
      var x :| x in rest;
      assert x !in order;
      order, rest := order + [x], rest - {x};
    }
  }
}
