/**
 * Records in etcd under compare-and-replace: the create-or-get, update and transition loops of
 * the staged recovery store, while other engines write the same keys between any two calls.
 *
 * A record is the dictionary that is stored as JSON; its serialised form (sorted keys) is equal
 * for two records exactly when they are equal, so replace compares records.
 */
module EtcdRecords {
  import opened Wrappers

  datatype Value = Null | Text(text: string) | Number(number: int)

  type Record = map<string, Value>

  type Store = map<string, Record>

  const MAX_CAS_RETRIES: nat := 8

  // ---------------------------------------------------------------- writes

  datatype Write = Put(key: string, record: Record) | Delete(key: string)

  function Applied(store: Store, w: Write): Store {
    match w
    case Put(key, record) => store[key := record]
    case Delete(key) => store - {key}
  }

  function AppliedAll(store: Store, ws: seq<Write>): Store
    decreases |ws|
  {
    if ws == [] then store else Applied(AppliedAll(store, ws[..|ws| - 1]), ws[|ws| - 1])
  }

  /** How many of the writes are to the key. */
  function Touches(key: string, ws: seq<Write>): nat
    decreases |ws|
  {
    if ws == [] then 0
    else Touches(key, ws[..|ws| - 1]) + (if ws[|ws| - 1].key == key then 1 else 0)
  }

  lemma {:induction false} AppliedAppend(store: Store, a: seq<Write>, b: seq<Write>)
    ensures AppliedAll(store, a + b) == AppliedAll(AppliedAll(store, a), b)
    decreases |b|
  {
    if b == [] {
      assert a + b == a;
    } else {
      assert (a + b)[..|a + b| - 1] == a + b[..|b| - 1];
      AppliedAppend(store, a, b[..|b| - 1]);
    }
  }

  lemma {:induction false} TouchesAppend(key: string, a: seq<Write>, b: seq<Write>)
    ensures Touches(key, a + b) == Touches(key, a) + Touches(key, b)
    decreases |b|
  {
    if b == [] {
      assert a + b == a;
    } else {
      assert (a + b)[..|a + b| - 1] == a + b[..|b| - 1];
      TouchesAppend(key, a, b[..|b| - 1]);
    }
  }

  /** A key that changed was written. */
  lemma {:induction false} ChangeNeedsTouch(store: Store, ws: seq<Write>, key: string)
    requires key in store
    requires key !in AppliedAll(store, ws) || AppliedAll(store, ws)[key] != store[key]
    ensures Touches(key, ws) >= 1
    decreases |ws|
  {
    if ws != [] && ws[|ws| - 1].key != key {
      ChangeNeedsTouch(store, ws[..|ws| - 1], key);
    }
  }

  // ---------------------------------------------------------------- the patched record

  /** new = dict(current); new.update(patch); then owner and updated_at are stamped. */
  function Patched(current: Record, patch: Record, owner: string, now: int): Record {
    (current + patch)["owner" := Text(owner)]
    ["updated_at" := if "updated_at" in patch then patch["updated_at"] else Number(now)]
  }

  /** A transition also sets the step, over whatever the patch says. */
  function Transitioned(current: Record, patch: Record, newStep: string, owner: string, now: int): Record {
    (current + patch)["step" := Text(newStep)]["owner" := Text(owner)]
    ["updated_at" := if "updated_at" in patch then patch["updated_at"] else Number(now)]
  }

  predicate StepIn(record: Record, steps: set<string>) {
    "step" in record && record["step"].Text? && record["step"].text in steps
  }

  datatype Outcome =
    | Written(record: Record)
    | Declined                  // the step is not an expected one: nothing is written
    | NotFound                  // StateNotFound
    | Conflict                  // ConcurrentStateUpdate

  // ---------------------------------------------------------------- the client

  /** What the other engines write, and how much time passes, before one call of this engine. */
  datatype Turn = Turn(writes: seq<Write>, elapsed: nat)

  class Client {
    var store: Store
    var clock: int
    var turns: seq<Turn>                 // the others, one turn before each call; afterwards they rest
    ghost var foreign: seq<Write>        // every write of the others so far
    ghost var own: nat                   // how many writes this engine made

    constructor (store: Store, turns: seq<Turn>)
      ensures this.store == store && this.turns == turns && clock == 0 && foreign == [] && own == 0
    {
      this.store, this.turns, this.clock := store, turns, 0;
      this.foreign, this.own := [], 0;
    }

    /** The others take their turn. */
    method Yield()
      modifies this
      ensures old(foreign) <= foreign && own == old(own) && clock >= old(clock)
      ensures store == AppliedAll(old(store), foreign[|old(foreign)|..])
    {
      if turns == [] {
        assert foreign[|foreign|..] == [];
        return;
      }
      var turn := turns[0];
      turns := turns[1..];
      clock := clock + turn.elapsed;
      var k := 0;
      while k < |turn.writes|
        invariant 0 <= k <= |turn.writes|
        invariant foreign == old(foreign) && own == old(own) && clock == old(clock) + turn.elapsed
        invariant store == AppliedAll(old(store), turn.writes[..k])
      {
        assert turn.writes[..k + 1][..k] == turn.writes[..k];
        store := Applied(store, turn.writes[k]);
        k := k + 1;
      }
      foreign := foreign + turn.writes;
      assert turn.writes[..k] == turn.writes == foreign[|old(foreign)|..];
    }

    method Get(key: string) returns (r: Option<Record>)
      modifies this
      ensures old(foreign) <= foreign && own == old(own) && clock >= old(clock)
      ensures store == AppliedAll(old(store), foreign[|old(foreign)|..])
      ensures r == if key in store then Some(store[key]) else None
    {
      Yield();
      r := if key in store then Some(store[key]) else None;
    }

    /** Atomic: writes only when the key is absent. */
    method Create(key: string, record: Record) returns (ok: bool)
      modifies this
      ensures old(foreign) <= foreign && own == old(own) + (if ok then 1 else 0) && clock >= old(clock)
      ensures var before := AppliedAll(old(store), foreign[|old(foreign)|..]);
              ok == (key !in before) && store == if ok then before[key := record] else before
    {
      Yield();
      ok := key !in store;
      if ok {
        store := store[key := record];
        own := own + 1;
      }
    }

    /** Atomic: writes only over exactly the initial value. */
    method Replace(key: string, initial: Record, record: Record) returns (ok: bool)
      modifies this
      ensures old(foreign) <= foreign && own == old(own) + (if ok then 1 else 0) && clock >= old(clock)
      ensures var before := AppliedAll(old(store), foreign[|old(foreign)|..]);
              ok == (key in before && before[key] == initial) && store == if ok then before[key := record] else before
    {
      Yield();
      ok := key in store && store[key] == initial;
      if ok {
        store := store[key := record];
        own := own + 1;
      }
    }
  }

  // ---------------------------------------------------------------- the loops

  /** What was written between two readings of the log of foreign writes. */
  ghost function Since(earlier: seq<Write>, later: seq<Write>): seq<Write>
    requires earlier <= later
  {
    later[|earlier|..]
  }

  /** Consecutive stretches of the log add up. */
  lemma SinceAdds(a: seq<Write>, b: seq<Write>, c: seq<Write>, store: Store, key: string)
    requires a <= b <= c
    ensures AppliedAll(store, Since(a, c)) == AppliedAll(AppliedAll(store, Since(a, b)), Since(b, c))
    ensures Touches(key, Since(a, c)) == Touches(key, Since(a, b)) + Touches(key, Since(b, c))
  {
    assert Since(a, c) == Since(a, b) + Since(b, c);
    AppliedAppend(store, Since(a, b), Since(b, c));
    TouchesAppend(key, Since(a, b), Since(b, c));
  }

  datatype Round = Done(outcome: Outcome) | LostRace

  /**
   * One get and one replace around it.  When the replace is lost, the key changed in between, so
   * somebody wrote it.
   */
  method PatchRound(client: Client, owner: string, key: string, patch: Record, expected: Option<set<string>>,
                    newStep: string)
    returns (r: Round)
    modifies client
    ensures old(client.foreign) <= client.foreign && client.clock >= old(client.clock)
    ensures var ws := Since(old(client.foreign), client.foreign);
            var before := AppliedAll(old(client.store), ws);
            match r
            case LostRace => client.store == before && client.own == old(client.own) && Touches(key, ws) >= 1
            case Done(outcome) => Finished(outcome, before, client.store, key, patch, owner, expected, newStep,
                                           old(client.clock), client.clock)
                                  && client.own == old(client.own) + (if outcome.Written? then 1 else 0)
    ensures r.Done? ==> !r.outcome.Conflict?
  {
    var current := client.Get(key);
    ghost var mid, midStore := client.foreign, client.store;
    if current.None? { return Done(NotFound); }
    if expected.Some? && !StepIn(current.value, expected.value) { return Done(Declined); }
    var now := client.clock;
    var patched := if expected.Some? then Transitioned(current.value, patch, newStep, owner, now)
                 else Patched(current.value, patch, owner, now);
    var ok := client.Replace(key, current.value, patched);
    SinceAdds(old(client.foreign), mid, client.foreign, old(client.store), key);
    if ok { return Done(Written(patched)); }
    ChangeNeedsTouch(midStore, Since(mid, client.foreign), key);
    return LostRace;
  }

  /** What a finished call means: before is the store just ahead of its last operation. */
  ghost predicate Finished(r: Outcome, before: Store, after: Store, key: string, patch: Record, owner: string,
                           expected: Option<set<string>>, newStep: string, from: int, to: int) {
    match r
    case Written(record) =>
      && key in before && after == before[key := record]
      && (expected.Some? ==> StepIn(before[key], expected.value))
      && exists now :: from <= now <= to && record == (if expected.Some? then Transitioned(before[key], patch, newStep, owner, now)
                                                       else Patched(before[key], patch, owner, now))
    case Declined => after == before && expected.Some? && key in before && !StepIn(before[key], expected.value)
    case NotFound => after == before && key !in before
    case Conflict => after == before
  }

  /**
   * update_instance_state.  A successful update is applied to the exact predecessor: all the
   * writes of the others during the call come before it, and the record it writes is the patched
   * form of the record they left.  A conflict is raised only after at least MAX_CAS_RETRIES
   * foreign writes of this key during the call.
   */
  method UpdateInstanceState(client: Client, owner: string, key: string, patch: Record) returns (r: Outcome)
    modifies client
    ensures old(client.foreign) <= client.foreign && client.clock >= old(client.clock)
    ensures var ws := Since(old(client.foreign), client.foreign);
            && Finished(r, AppliedAll(old(client.store), ws), client.store, key, patch, owner, None, "",
                        old(client.clock), client.clock)
            && (r.Conflict? ==> Touches(key, ws) >= MAX_CAS_RETRIES)
    ensures !r.Declined? && client.own == old(client.own) + (if r.Written? then 1 else 0)
    ensures patch.Keys <= WORKFLOW_FIELDS ==>
              AtMostOne(AppliedAll(old(client.store), Since(old(client.foreign), client.foreign)), client.store, key)
  {
    r := PatchLoop(client, owner, key, patch, None, "");
    if patch.Keys <= WORKFLOW_FIELDS {
      IsOperation(r, AppliedAll(old(client.store), Since(old(client.foreign), client.foreign)), client.store,
                  key, patch, owner, None, "", old(client.clock), client.clock);
    }
  }

  /** transition_instance_state: the same loop, which gives up when the step is not an expected one. */
  method TransitionInstanceState(client: Client, owner: string, key: string, expected: set<string>, newStep: string,
                                 patch: Record) returns (r: Outcome)
    modifies client
    ensures old(client.foreign) <= client.foreign && client.clock >= old(client.clock)
    ensures var ws := Since(old(client.foreign), client.foreign);
            && Finished(r, AppliedAll(old(client.store), ws), client.store, key, patch, owner, Some(expected), newStep,
                        old(client.clock), client.clock)
            && (r.Conflict? ==> Touches(key, ws) >= MAX_CAS_RETRIES)
    ensures client.own == old(client.own) + (if r.Written? then 1 else 0)
    ensures patch.Keys <= WORKFLOW_FIELDS ==>
              AtMostOne(AppliedAll(old(client.store), Since(old(client.foreign), client.foreign)), client.store, key)
  {
    r := PatchLoop(client, owner, key, patch, Some(expected), newStep);
    if patch.Keys <= WORKFLOW_FIELDS {
      IsOperation(r, AppliedAll(old(client.store), Since(old(client.foreign), client.foreign)), client.store,
                  key, patch, owner, Some(expected), newStep, old(client.clock), client.clock);
    }
  }

  method PatchLoop(client: Client, owner: string, key: string, patch: Record, expected: Option<set<string>>, newStep: string)
    returns (r: Outcome)
    modifies client
    ensures old(client.foreign) <= client.foreign && client.clock >= old(client.clock)
    ensures var ws := Since(old(client.foreign), client.foreign);
            && Finished(r, AppliedAll(old(client.store), ws), client.store, key, patch, owner, expected, newStep,
                        old(client.clock), client.clock)
            && (r.Conflict? ==> Touches(key, ws) >= MAX_CAS_RETRIES)
    ensures client.own == old(client.own) + (if r.Written? then 1 else 0)
    ensures r.Declined? ==> expected.Some?
  {
    for attempt := 0 to MAX_CAS_RETRIES
      invariant old(client.foreign) <= client.foreign && client.own == old(client.own) && client.clock >= old(client.clock)
      invariant client.store == AppliedAll(old(client.store), Since(old(client.foreign), client.foreign))
      invariant Touches(key, Since(old(client.foreign), client.foreign)) >= attempt
    {
      ghost var before := client.foreign;
      var round := PatchRound(client, owner, key, patch, expected, newStep);
      SinceAdds(old(client.foreign), before, client.foreign, old(client.store), key);
      if round.Done? { return round.outcome; }
    }
    return Conflict;
  }

  // ---------------------------------------------------------------- creation

  /** The record of a new instance: the defaults, overridden by the values given. */
  function BaseState(notification: string, instance: string, owner: string, now: int, values: Record): Record {
    map["schema_version" := Number(1),
    "notification_uuid" := Text(notification),
    "instance_uuid" := Text(instance),
    "owner" := Text(owner),
    "created_at" := Number(now),
    "updated_at" := Number(now),
    "step" := Text("DISCOVERED"),
    "attempt" := Number(0),
    "last_error" := Null] + values
  }

  /** A field has the value given for it, or this one. */
  predicate GivenOr(record: Record, values: Record, field: string, value: Value) {
    field in record && record[field] == if field in values then values[field] else value
  }

  /**
   * The fields of a new record: it names its notification and its instance, is DISCOVERED by this
   * owner at this time, unattempted and without an error, and every value given stands in it.
   */
  predicate IsNewRecord(record: Record, notification: string, instance: string, owner: string, now: int, values: Record) {
    && GivenOr(record, values, "notification_uuid", Text(notification))
    && GivenOr(record, values, "instance_uuid", Text(instance))
    && GivenOr(record, values, "owner", Text(owner)) && GivenOr(record, values, "step", Text("DISCOVERED"))
    && GivenOr(record, values, "created_at", Number(now)) && GivenOr(record, values, "updated_at", Number(now))
    && GivenOr(record, values, "schema_version", Number(1)) && GivenOr(record, values, "attempt", Number(0))
    && GivenOr(record, values, "last_error", Null)
    && (forall field :: field in values ==> field in record && record[field] == values[field])
    && record.Keys == values.Keys + {"notification_uuid", "instance_uuid", "owner", "step", "created_at", "updated_at",
                                     "schema_version", "attempt", "last_error"}
  }

  lemma BaseStateIsNew(notification: string, instance: string, owner: string, now: int, values: Record)
    ensures IsNewRecord(BaseState(notification, instance, owner, now, values), notification, instance, owner, now, values)
  {
    assert BaseState(notification, instance, owner, now, values).Keys
        == values.Keys + {"notification_uuid", "instance_uuid", "owner", "step", "created_at", "updated_at",
                          "schema_version", "attempt", "last_error"};
  }

  /** create_or_get_instance_state never overwrites: it returns what the key holds afterwards. */
  method CreateOrGetInstanceState(client: Client, owner: string, key: string, notification: string, instance: string,
                                  values: Record) returns (r: Option<Record>)
    modifies client
    ensures old(client.foreign) <= client.foreign
    ensures r.Some? ==> key in client.store && client.store[key] == r.value
    ensures r.None? ==> key !in client.store
    ensures client.own == old(client.own) ==>
              client.store == AppliedAll(old(client.store), Since(old(client.foreign), client.foreign))
    ensures client.own != old(client.own) ==>
              exists now :: old(client.clock) <= now <= client.clock && r.Some?
                            && IsNewRecord(r.value, notification, instance, owner, now, values)
    ensures client.own != old(client.own) ==>
              var before := AppliedAll(old(client.store), Since(old(client.foreign), client.foreign));
              && key !in before && client.own == old(client.own) + 1 && r.Some?
              && client.store == before[key := r.value]
    ensures AtMostOne(AppliedAll(old(client.store), Since(old(client.foreign), client.foreign)), client.store, key)
  {
    var state := BaseState(notification, instance, owner, client.clock, values);
    BaseStateIsNew(notification, instance, owner, client.clock, values);
    var ok := client.Create(key, state);
    if ok {
      ghost var before := AppliedAll(old(client.store), Since(old(client.foreign), client.foreign));
      assert client.store == Performed(before, Created(key, state));
      return Some(state);
    }
    ghost var mid := client.foreign;
    r := client.Get(key);
    SinceAdds(old(client.foreign), mid, client.foreign, old(client.store), key);
  }

  // ---------------------------------------------------------------- what a run never changes

  /** The fields that some patch of the staged workflow, or the stamp, sets. */
  const WORKFLOW_FIELDS: set<string> :=
    {"step", "dest_host", "current_vm_state", "current_task_state", "current_power_state", "last_error",
     "owner", "updated_at"}

  /** The successful store operations of all engines together. */
  datatype Operation =
    | Created(key: string, record: Record)
    | Updated(key: string, patch: Record, owner: string, now: int)
    | Moved(key: string, patch: Record, newStep: string, owner: string, now: int)

  predicate Possible(store: Store, op: Operation) {
    match op
    case Created(key, _) => key !in store
    case Updated(key, patch, _, _) => key in store && patch.Keys <= WORKFLOW_FIELDS
    case Moved(key, patch, _, _, _) => key in store && patch.Keys <= WORKFLOW_FIELDS
  }

  function Performed(store: Store, op: Operation): Store
    requires Possible(store, op)
  {
    match op
    case Created(key, record) => store[key := record]
    case Updated(key, patch, owner, now) => store[key := Patched(store[key], patch, owner, now)]
    case Moved(key, patch, newStep, owner, now) => store[key := Transitioned(store[key], patch, newStep, owner, now)]
  }

  /** The store is the same, or one operation on this key was performed. */
  ghost predicate AtMostOne(before: Store, after: Store, key: string) {
    after == before || exists op :: Possible(before, op) && op.key == key && after == Performed(before, op)
  }

  /** A finished call of the loops is such an operation: what holds of every run holds of the program. */
  lemma IsOperation(r: Outcome, before: Store, after: Store, key: string, patch: Record, owner: string,
                    expected: Option<set<string>>, newStep: string, from: int, to: int)
    requires Finished(r, before, after, key, patch, owner, expected, newStep, from, to) && patch.Keys <= WORKFLOW_FIELDS
    ensures AtMostOne(before, after, key) && (!r.Written? ==> after == before)
  {
    if r.Written? {
      var now :| from <= now <= to
                 && r.record == (if expected.Some? then Transitioned(before[key], patch, newStep, owner, now)
                                 else Patched(before[key], patch, owner, now));
      var op := if expected.Some? then Moved(key, patch, newStep, owner, now) else Updated(key, patch, owner, now);
      assert Possible(before, op) && after == Performed(before, op);
    }
  }

  ghost predicate Run(stores: seq<Store>, ops: seq<Operation>) {
    && |stores| == |ops| + 1
    && forall k :: 0 <= k < |ops| ==> Possible(stores[k], ops[k]) && stores[k + 1] == Performed(stores[k], ops[k])
  }

  /** The two records agree on a field, or both lack it. */
  predicate SameField(a: Record, b: Record, field: string) {
    (field in a <==> field in b) && (field in a ==> a[field] == b[field])
  }

  /**
   * Over every run, original_vm_state and every other field outside WORKFLOW_FIELDS keep the
   * value they were created with, whichever engines update the record and in whatever order.
   */
  lemma {:induction false} WriteOnceFields(stores: seq<Store>, ops: seq<Operation>, i: nat, j: nat, key: string,
                                           field: string)
    requires Run(stores, ops) && i <= j < |stores|
    requires key in stores[i] && field !in WORKFLOW_FIELDS
    ensures key in stores[j] && SameField(stores[i][key], stores[j][key], field)
    decreases j - i
  {
    if i < j {
      WriteOnceFields(stores, ops, i, j - 1, key, field);
      assert Possible(stores[j - 1], ops[j - 1]);
    }
  }

  /** One successful patch: the patched fields take the patch's values, all other fields survive. */
  lemma PatchedFields(current: Record, patch: Record, owner: string, now: int, field: string)
    requires field != "owner" && field != "updated_at"
    ensures var r := Patched(current, patch, owner, now);
            if field in patch then field in r && r[field] == patch[field] else SameField(current, r, field)
  {
  }
}
