/**
 * Admission of notifications by the API: the duplicate check and the creation of the row, which
 * for COMPUTE_HOST notifications happen under a distributed lock per host name, if a coordination
 * backend is configured.
 */
module NotificationAdmission {
  import opened Wrappers

  type Name = string
  type Uuid = string
  type Rid = nat

  datatype Kind = COMPUTE_HOST | VM | PROCESS

  datatype Request = Request(kind: Kind, hostname: Name, payload: string, generated: int)

  /** A stored notification, as far as the duplicate check looks at it. */
  datatype Stored = Stored(kind: Kind, host: Uuid, payload: string, generated: int)

  predicate Duplicates(interval: nat, earlier: Stored, candidate: Stored) {
    && earlier.kind == candidate.kind && earlier.host == candidate.host
    && earlier.generated >= candidate.generated - interval
    && earlier.payload == candidate.payload
  }

  predicate IsDuplicate(interval: nat, rows: seq<Stored>, candidate: Stored) {
    exists k :: 0 <= k < |rows| && Duplicates(interval, rows[k], candidate)
  }

  /** The rows the database returns for the filters: same type, same host, generated since. */
  function Filtered(interval: nat, rows: seq<Stored>, candidate: Stored): (r: seq<Stored>)
    ensures forall k :: 0 <= k < |rows| && Duplicates(interval, rows[k], candidate) ==> rows[k] in r
    ensures forall x :: x in r ==> x in rows && x.kind == candidate.kind && x.host == candidate.host
                                   && x.generated >= candidate.generated - interval
    decreases |rows|
  {
    if rows == [] then []
    else
      var first := rows[0];
      var rest := Filtered(interval, rows[1..], candidate);
      if first.kind == candidate.kind && first.host == candidate.host && first.generated >= candidate.generated - interval
      then [first] + rest else rest
  }

  // ---------------------------------------------------------------- requests in parallel

  /** backend: a coordination backend is configured, so the lock exists. */
  datatype Config = Config(interval: nat, backend: bool, uuids: map<Name, Uuid>)

  datatype Pc =
    | Called
    | Locked
    | Passed            // the duplicate check found nothing; the row is not yet stored
    | Leaving           // stored or rejected; the lock, if taken, is still held
    | Answered

  datatype Call = Call(request: Request, pc: Pc)

  datatype State = State(stored: seq<Stored>, locks: map<Name, Rid>, calls: map<Rid, Call>)

  datatype Action = TakeLock | Check(onMaintenance: bool) | Store | Unlock | Reject

  datatype Step = Arrive(r: Rid, request: Request) | Act(r: Rid, action: Action)

  predicate UsesLock(cfg: Config, request: Request) {
    cfg.backend && request.kind.COMPUTE_HOST?
  }

  function RowOf(cfg: Config, request: Request): Stored
    requires request.hostname in cfg.uuids
  {
    Stored(request.kind, cfg.uuids[request.hostname], request.payload, request.generated)
  }

  predicate CanAct(cfg: Config, s: State, call: Call, action: Action) {
    match action
    case TakeLock => call.pc.Called? && UsesLock(cfg, call.request) && call.request.hostname !in s.locks
    case Check(_) => if UsesLock(cfg, call.request) then call.pc.Locked? else call.pc.Called?
    case Store => call.pc.Passed?
    case Unlock => call.pc.Leaving?
    case Reject => call.pc.Called? || call.pc.Locked? || call.pc.Passed?
  }

  function NextPc(cfg: Config, s: State, call: Call, action: Action): Pc
    requires CanAct(cfg, s, call, action)
  {
    match action
    case TakeLock => Locked
    case Check(onMaintenance) =>
      if call.request.hostname in cfg.uuids && !onMaintenance && !IsDuplicate(cfg.interval, s.stored, RowOf(cfg, call.request))
      then Passed else Leaving
    case Store => Leaving
    case Unlock => Answered
    case Reject => if call.pc.Called? then Answered else Leaving   // without the lock there is nothing to release
  }

  predicate Enabled(cfg: Config, s: State, step: Step) {
    match step
    case Arrive(r, _) => r !in s.calls
    case Act(r, action) =>
      r in s.calls && CanAct(cfg, s, s.calls[r], action)
      && (action.Store? ==> s.calls[r].request.hostname in cfg.uuids)
  }

  function Apply(cfg: Config, s: State, step: Step): State
    requires Enabled(cfg, s, step)
  {
    match step
    case Arrive(r, request) => s.(calls := s.calls[r := Call(request, Called)])
    case Act(r, action) =>
      var call := s.calls[r];
      State(if action.Store? then s.stored + [RowOf(cfg, call.request)] else s.stored,
            if action.TakeLock? then s.locks[call.request.hostname := r]
            else if action.Unlock? && UsesLock(cfg, call.request) then s.locks - {call.request.hostname}
            else s.locks,
            s.calls[r := call.(pc := NextPc(cfg, s, call, action))])
  }

  datatype Outcome = Stuck | Reached(state: State)

  function Exec(cfg: Config, s: State, steps: seq<Step>): Outcome
    decreases |steps|
  {
    if steps == [] then Reached(s)
    else if !Enabled(cfg, s, steps[0]) then Stuck
    else Exec(cfg, Apply(cfg, s, steps[0]), steps[1..])
  }

  /** No request is under way; whatever notifications there are were stored before. */
  function Init(rows: seq<Stored>): State {
    State(rows, map[], map[])
  }

  ghost predicate RunTo(cfg: Config, rows: seq<Stored>, steps: seq<Step>, s: State) {
    Exec(cfg, Init(rows), steps) == Reached(s)
  }

  // ---------------------------------------------------------------- the guarantee

  /** Every host name has its own host. */
  ghost predicate NamesUnique(cfg: Config) {
    forall a, b :: a in cfg.uuids && b in cfg.uuids && a != b ==> cfg.uuids[a] != cfg.uuids[b]
  }

  predicate SameFailure(a: Stored, b: Stored) {
    a.kind.COMPUTE_HOST? && b.kind.COMPUTE_HOST? && a.host == b.host && a.payload == b.payload
  }

  /** In creation order, equal host notifications are generated more than the interval apart. */
  ghost predicate Spread(interval: nat, rows: seq<Stored>) {
    forall i, j :: 0 <= i < j < |rows| && SameFailure(rows[i], rows[j]) ==> rows[j].generated - rows[i].generated > interval
  }

  predicate HoldsLock(cfg: Config, call: Call) {
    UsesLock(cfg, call.request) && (call.pc.Locked? || call.pc.Passed? || call.pc.Leaving?)
  }

  ghost predicate LockInv(cfg: Config, s: State) {
    forall r :: r in s.calls && HoldsLock(cfg, s.calls[r]) ==>
                  s.calls[r].request.hostname in s.locks && s.locks[s.calls[r].request.hostname] == r
  }

  /** What the duplicate check established still holds when the row is stored. */
  ghost predicate PassedInv(cfg: Config, s: State) {
    forall r :: r in s.calls && s.calls[r].pc.Passed? ==>
                  && s.calls[r].request.hostname in cfg.uuids
                  && (UsesLock(cfg, s.calls[r].request) ==> !IsDuplicate(cfg.interval, s.stored, RowOf(cfg, s.calls[r].request)))
  }

  lemma LockStep(cfg: Config, s: State, step: Step)
    requires LockInv(cfg, s) && Enabled(cfg, s, step)
    ensures LockInv(cfg, Apply(cfg, s, step))
  {
  }

  lemma PassedStep(cfg: Config, s: State, step: Step)
    requires cfg.backend && NamesUnique(cfg)
    requires LockInv(cfg, s) && PassedInv(cfg, s) && Enabled(cfg, s, step)
    ensures PassedInv(cfg, Apply(cfg, s, step))
  {
    var t := Apply(cfg, s, step);
    forall r | r in t.calls && t.calls[r].pc.Passed? && UsesLock(cfg, t.calls[r].request)
      ensures t.calls[r].request.hostname in cfg.uuids
                && !IsDuplicate(cfg.interval, t.stored, RowOf(cfg, t.calls[r].request))
    {
      if step.Act? && step.action.Store? {
        assert HoldsLock(cfg, s.calls[r]) && step.r != r;
        var other := s.calls[step.r];
        assert UsesLock(cfg, other.request) ==> HoldsLock(cfg, other);
        var row := RowOf(cfg, t.calls[r].request);
        forall k | 0 <= k < |t.stored| ensures !Duplicates(cfg.interval, t.stored[k], row) {
          if k < |s.stored| {
            assert t.stored[k] == s.stored[k];
          }
        }
      }
    }
  }

  lemma SpreadStep(cfg: Config, s: State, step: Step)
    requires cfg.backend && PassedInv(cfg, s) && Spread(cfg.interval, s.stored) && Enabled(cfg, s, step)
    ensures Spread(cfg.interval, Apply(cfg, s, step).stored)
  {
    var t := Apply(cfg, s, step);
    if step.Act? && step.action.Store? {
      var row := RowOf(cfg, s.calls[step.r].request);
      forall i, j | 0 <= i < j < |t.stored| && SameFailure(t.stored[i], t.stored[j])
        ensures t.stored[j].generated - t.stored[i].generated > cfg.interval
      {
        if j == |s.stored| {
          assert !Duplicates(cfg.interval, s.stored[i], row);
        }
      }
    }
  }

  lemma {:induction false} PassedRun(cfg: Config, s: State, steps: seq<Step>)
    requires cfg.backend && NamesUnique(cfg)
    requires LockInv(cfg, s) && PassedInv(cfg, s) && Exec(cfg, s, steps).Reached?
    ensures PassedInv(cfg, Exec(cfg, s, steps).state)
    ensures Spread(cfg.interval, s.stored) ==> Spread(cfg.interval, Exec(cfg, s, steps).state.stored)
    decreases |steps|
  {
    if steps != [] {
      LockStep(cfg, s, steps[0]);
      PassedStep(cfg, s, steps[0]);
      if Spread(cfg.interval, s.stored) { SpreadStep(cfg, s, steps[0]); }
      PassedRun(cfg, Apply(cfg, s, steps[0]), steps[1..]);
    }
  }

  // ---------------------------------------------------------------- without the lock

  lemma {:induction false} ExecAppend(cfg: Config, s: State, a: seq<Step>, b: seq<Step>)
    requires Exec(cfg, s, a).Reached?
    ensures Exec(cfg, s, a + b) == Exec(cfg, Exec(cfg, s, a).state, b)
    decreases |a|
  {
    if a == [] {
      assert a + b == b;
    } else {
      assert (a + b)[1..] == a[1..] + b;
      ExecAppend(cfg, Apply(cfg, s, a[0]), a[1..], b);
    }
  }

  /** One more step of a run. */
  lemma Extend(cfg: Config, rows: seq<Stored>, before: seq<Step>, s: State, step: Step) returns (steps: seq<Step>, t: State)
    requires RunTo(cfg, rows, before, s) && Enabled(cfg, s, step)
    ensures RunTo(cfg, rows, steps, t) && t == Apply(cfg, s, step)
  {
    ExecAppend(cfg, Init(rows), before, [step]);
    assert [step][1..] == [];
    steps, t := before + [step], Apply(cfg, s, step);
  }

  /** Two requests pass the check before either is stored. */
  lemma BothPass(cfg: Config, rows: seq<Stored>, request: Request) returns (steps: seq<Step>, s: State)
    requires !cfg.backend && request.hostname in cfg.uuids && !IsDuplicate(cfg.interval, rows, RowOf(cfg, request))
    ensures RunTo(cfg, rows, steps, s) && s.stored == rows
    ensures s.calls == map[0 := Call(request, Passed), 1 := Call(request, Passed)]
  {
    steps, s := Extend(cfg, rows, [], Init(rows), Arrive(0, request));
    steps, s := Extend(cfg, rows, steps, s, Arrive(1, request));
    steps, s := Extend(cfg, rows, steps, s, Act(0, Check(false)));
    steps, s := Extend(cfg, rows, steps, s, Act(1, Check(false)));
  }

  function Latest(rows: seq<Stored>): (t: int)
    ensures forall k :: 0 <= k < |rows| ==> rows[k].generated <= t
    decreases |rows|
  {
    if rows == [] then 0
    else
      var t := Latest(rows[1..]);
      assert forall k :: 1 <= k < |rows| ==> rows[k] == rows[1..][k - 1];
      if rows[0].generated > t then rows[0].generated else t
  }

  lemma DuplicateStored(cfg: Config, rows: seq<Stored>, name: Name)
    requires !cfg.backend && name in cfg.uuids
    ensures exists steps, s :: RunTo(cfg, rows, steps, s) && !Spread(cfg.interval, s.stored)
  {
    var request := Request(COMPUTE_HOST, name, "", Latest(rows) + cfg.interval + 1);
    assert forall k :: 0 <= k < |rows| ==> !Duplicates(cfg.interval, rows[k], RowOf(cfg, request));
    var steps, s := BothPass(cfg, rows, request);
    steps, s := Extend(cfg, rows, steps, s, Act(0, Store));
    steps, s := Extend(cfg, rows, steps, s, Act(1, Store));
    assert SameFailure(s.stored[|rows|], s.stored[|rows| + 1]);
  }

  /**
   * Exactly when duplicates are suppressed: whatever suitably spread notifications there are at
   * first, as soon as there is a host, the stored notifications of one host with equal payload
   * always stay more than the detection interval apart, in creation order, if and only if a
   * coordination backend is configured.
   */
  lemma SuppressedIffLocked(cfg: Config, rows: seq<Stored>)
    requires NamesUnique(cfg) && cfg.uuids != map[] && Spread(cfg.interval, rows)
    ensures cfg.backend <==> forall steps, s :: RunTo(cfg, rows, steps, s) ==> Spread(cfg.interval, s.stored)
  {
    if cfg.backend {
      forall steps, s | RunTo(cfg, rows, steps, s) ensures Spread(cfg.interval, s.stored) {
        PassedRun(cfg, Init(rows), steps);
      }
    } else {
      var name :| name in cfg.uuids;
      DuplicateStored(cfg, rows, name);
    }
  }

  // ---------------------------------------------------------------- the program

  /** What the others leave to a request. */
  ghost predicate Undisturbed(r: Rid, a: State, b: State) {
    && (r in a.calls <==> r in b.calls) && (r in a.calls ==> a.calls[r] == b.calls[r])
    && a.stored <= b.stored
  }

  lemma OtherStep(cfg: Config, r: Rid, s: State, step: Step)
    requires Enabled(cfg, s, step) && step.r != r
    ensures Undisturbed(r, s, Apply(cfg, s, step))
  {
  }

  /** How often the request stored a row. */
  function Stores(r: Rid, steps: seq<Step>): nat
    decreases |steps|
  {
    if steps == [] then 0
    else Stores(r, steps[..|steps| - 1]) + if steps[|steps| - 1] == Act(r, Store) then 1 else 0
  }

  lemma OneMoreStep(r: Rid, steps: seq<Step>, step: Step)
    ensures Stores(r, steps + [step]) == Stores(r, steps) + if step == Act(r, Store) then 1 else 0
  {
    assert (steps + [step])[..|steps|] == steps;
  }

  datatype Answer =
    | HostNotFound
    | HostOnMaintenance
    | DuplicateNotification
    | Created
    | CreatedNotSent       // the row is stored, and an exception raised after it
    | NotCreated           // the check or the create raised
    | Blocked              // the schedule ended with the lock still taken

  predicate IsStored(a: Answer) {
    a.Created? || a.CreatedNotSent?
  }

  /** Nobody else does anything: every batch is empty. */
  predicate Quiet(schedule: seq<seq<Step>>) {
    forall k :: 0 <= k < |schedule| ==> schedule[k] == []
  }

  class Api {
    const cfg: Config
    const first: seq<Stored>
    var now: State
    var schedule: seq<seq<Step>>       // the others: one batch of steps before each call
    ghost var history: seq<Step>

    ghost predicate Valid()
      reads this
    {
      RunTo(cfg, first, history, now)
    }

    constructor (cfg: Config, rows: seq<Stored>, schedule: seq<seq<Step>>)
      ensures Valid() && this.cfg == cfg && now == Init(rows) && this.schedule == schedule
    {
      this.cfg, this.first := cfg, rows;
      this.now, this.schedule, this.history := Init(rows), schedule, [];
    }

    method Perform(step: Step)
      requires Valid() && Enabled(cfg, now, step)
      modifies `now, `history
      ensures Valid() && now == Apply(cfg, old(now), step) && history == old(history) + [step]
      ensures Stores(step.r, history) == Stores(step.r, old(history)) + if step == Act(step.r, Store) then 1 else 0
    {
      ExecAppend(cfg, Init(first), history, [step]);
      assert [step][1..] == [];
      OneMoreStep(step.r, history, step);
      now := Apply(cfg, now, step);
      history := history + [step];
    }

    /** One batch of steps of other requests; those not enabled do not happen. */
    method Others(r: Rid)
      requires Valid()
      modifies `now, `schedule, `history
      ensures Valid() && Undisturbed(r, old(now), now) && old(history) <= history
      ensures Stores(r, history) == Stores(r, old(history))
      ensures |schedule| < old(|schedule|) || schedule == old(schedule) == []
      ensures Quiet(old(schedule)) ==> Quiet(schedule) && now == old(now)
    {
      if schedule == [] { return; }
      var batch := schedule[0];
      schedule := schedule[1..];
      for k := 0 to |batch|
        invariant Valid() && Undisturbed(r, old(now), now) && schedule == old(schedule)[1..]
        invariant old(history) <= history && Stores(r, history) == Stores(r, old(history))
        invariant Quiet(old(schedule)) ==> now == old(now)
      {
        if batch[k].r != r && Enabled(cfg, now, batch[k]) {
          OtherStep(cfg, r, now, batch[k]);
          OneMoreStep(r, history, batch[k]);
          Perform(batch[k]);
        }
      }
    }

    /**
     * _is_duplicate_notification: a stored notification of the same type and host, with the same
     * payload, not generated longer than the interval before; another payload is no reason to refuse.
     */
    method IsDuplicateNotification(candidate: Stored) returns (duplicate: bool)
      ensures duplicate <==> IsDuplicate(cfg.interval, now.stored, candidate)
      ensures duplicate <==>
                exists k :: 0 <= k < |now.stored| && now.stored[k].kind == candidate.kind
                            && now.stored[k].host == candidate.host && now.stored[k].payload == candidate.payload
                            && candidate.generated - now.stored[k].generated <= cfg.interval
    {
      var rows := Filtered(cfg.interval, now.stored, candidate);
      for k := 0 to |rows|
        invariant forall j :: 0 <= j < k ==> rows[j].payload != candidate.payload
      {
        if rows[k].payload == candidate.payload {
          var i :| 0 <= i < |now.stored| && now.stored[i] == rows[k];
          assert Duplicates(cfg.interval, now.stored[i], candidate);
          return true;
        }
      }
      return false;
    }

    /** The others run, and the lock of the host name is taken if it is free then. */
    method TryLock(r: Rid) returns (taken: bool)
      requires Valid() && r in now.calls && now.calls[r].pc.Called? && UsesLock(cfg, now.calls[r].request)
      modifies `now, `schedule, `history
      ensures Valid() && old(history) <= history && old(now).stored <= now.stored
      ensures |schedule| < old(|schedule|) || schedule == old(schedule) == []
      ensures Stores(r, history) == Stores(r, old(history)) && r in now.calls
      ensures now.calls[r] == Call(old(now).calls[r].request, if taken then Locked else Called)
      ensures Quiet(old(schedule)) ==>
                Quiet(schedule) && now.stored == old(now).stored && (taken <==> old(now).calls[r].request.hostname !in old(now).locks)
      ensures Quiet(old(schedule)) && !taken ==> now.locks == old(now).locks
    {
      Others(r);
      taken := now.calls[r].request.hostname !in now.locks;
      if taken { Perform(Act(r, TakeLock)); }
    }

    /** The request arrives, and takes the lock of its host name if it has one to take. */
    method Begin(r: Rid, request: Request) returns (entered: bool)
      requires Valid() && r !in now.calls
      modifies `now, `schedule, `history
      ensures Valid() && old(history) < history && old(now).stored <= now.stored
      ensures Stores(r, history) == Stores(r, old(history)) && r in now.calls
      ensures now.calls[r] == Call(request, if UsesLock(cfg, request) && entered then Locked else Called)
      ensures !entered ==> UsesLock(cfg, request) && schedule == []
      ensures Quiet(old(schedule)) ==>
                && Quiet(schedule) && now.stored == old(now).stored
                && (entered <==> !UsesLock(cfg, request) || request.hostname !in old(now).locks)
    {
      Perform(Arrive(r, request));
      if !UsesLock(cfg, request) { return true; }
      entered := TryLock(r);
      while !entered && schedule != []
        invariant Valid() && old(history) < history && old(now).stored <= now.stored
        invariant Stores(r, history) == Stores(r, old(history)) && r in now.calls
        invariant now.calls[r] == Call(request, if entered then Locked else Called)
        invariant Quiet(old(schedule)) ==>
                    && Quiet(schedule) && now.stored == old(now).stored
                    && (entered <==> request.hostname !in old(now).locks) && (!entered ==> now.locks == old(now).locks)
        decreases |schedule|
      {
        entered := TryLock(r);
      }
    }

    /** The host is looked up and the stored notifications are searched. */
    method CheckRequest(r: Rid, request: Request, onMaintenance: bool, raises: bool) returns (a: Answer, ghost seen: State)
      requires Valid() && r in now.calls && now.calls[r].request == request
      requires now.calls[r].pc == if UsesLock(cfg, request) then Locked else Called
      modifies `now, `schedule, `history
      ensures Valid() && old(history) < history && old(now).stored <= now.stored == seen.stored
      ensures Quiet(old(schedule)) ==> Quiet(schedule) && seen.stored == old(now).stored
      ensures Stores(r, history) == Stores(r, old(history)) && r in now.calls && now.calls[r].request == request
      ensures a.NotCreated? <==> raises
      ensures a.HostNotFound? <==> !raises && request.hostname !in cfg.uuids
      ensures a.HostOnMaintenance? <==> !raises && request.hostname in cfg.uuids && onMaintenance
      ensures !raises && request.hostname in cfg.uuids && !onMaintenance ==>
                a == if IsDuplicate(cfg.interval, seen.stored, RowOf(cfg, request)) then DuplicateNotification else Created
      ensures if a.Created? then now.calls[r].pc.Passed? else now.calls[r].pc.Leaving? || now.calls[r].pc.Answered?
    {
      Others(r);
      seen := now;
      if raises {
        Perform(Act(r, Reject));
        return NotCreated, seen;
      }
      if request.hostname !in cfg.uuids {
        a := HostNotFound;
      } else if onMaintenance {
        a := HostOnMaintenance;
      } else {
        var duplicate := IsDuplicateNotification(RowOf(cfg, request));
        a := if duplicate then DuplicateNotification else Created;
      }
      Perform(Act(r, Check(onMaintenance)));
    }

    /** The lock keeps what the check found. */
    lemma StillNoDuplicate(r: Rid)
      requires Valid() && r in now.calls && now.calls[r].pc.Passed?
      requires UsesLock(cfg, now.calls[r].request) && NamesUnique(cfg)
      ensures now.calls[r].request.hostname in cfg.uuids
      ensures !IsDuplicate(cfg.interval, now.stored, RowOf(cfg, now.calls[r].request))
    {
      PassedRun(cfg, Init(first), history);
    }

    /** The row is created, unless that is refused; at is the state that the create finds. */
    method StoreRow(r: Rid, request: Request, store: Reply, rpcWorks: bool) returns (a: Answer, ghost at: State)
      requires Valid() && r in now.calls && now.calls[r] == Call(request, Passed) && request.hostname in cfg.uuids
      modifies `now, `schedule, `history
      ensures Valid() && old(history) < history && old(now).stored <= at.stored
      ensures r in now.calls && now.calls[r] == Call(request, Leaving)
      ensures a == if store.Refused? then NotCreated else if store.Fine? && rpcWorks then Created else CreatedNotSent
      ensures Stores(r, history) == Stores(r, old(history)) + if IsStored(a) then 1 else 0
      ensures now.stored == if IsStored(a) then at.stored + [RowOf(cfg, request)] else at.stored
      ensures UsesLock(cfg, request) && NamesUnique(cfg) ==> !IsDuplicate(cfg.interval, at.stored, RowOf(cfg, request))
      ensures Quiet(old(schedule)) ==> Quiet(schedule) && at.stored == old(now).stored
    {
      Others(r);
      at := now;
      if UsesLock(cfg, request) && NamesUnique(cfg) { StillNoDuplicate(r); }
      if store.Refused? {
        Perform(Act(r, Reject));
        return NotCreated, at;
      }
      Perform(Act(r, Store));
      a := if store.Fine? && rpcWorks then Created else CreatedNotSent;
    }

    /** What the request answers, as its check and its create had it. */
    ghost predicate Answers(request: Request, onMaintenance: bool, raises: bool, store: Reply, rpcWorks: bool,
                            seen: State, a: Answer) {
      && (a.HostNotFound? <==> !raises && request.hostname !in cfg.uuids)
      && (a.HostOnMaintenance? <==> !raises && request.hostname in cfg.uuids && onMaintenance)
      && (!raises && request.hostname in cfg.uuids && !onMaintenance ==>
            if IsDuplicate(cfg.interval, seen.stored, RowOf(cfg, request)) then a.DuplicateNotification?
            else a == if store.Refused? then NotCreated else if store.Fine? && rpcWorks then Created else CreatedNotSent)
      && (raises ==> a.NotCreated?)
    }

    /** The row that was stored stands behind those its create found; with the lock none of them is equal to it. */
    ghost predicate Appended(request: Request, seen: State, at: State, after: State) {
      && request.hostname in cfg.uuids && seen.stored <= at.stored
      && at.stored + [RowOf(cfg, request)] <= after.stored
      && (UsesLock(cfg, request) && NamesUnique(cfg) ==> !IsDuplicate(cfg.interval, at.stored, RowOf(cfg, request)))
    }

    /** Nobody interferes: the check sees what was stored, and only the row of the request is added. */
    ghost predicate CreatedAlone(before: State, after: State, request: Request, seen: State, a: Answer) {
      && seen.stored == before.stored && (IsStored(a) ==> request.hostname in cfg.uuids)
      && after.stored == if IsStored(a) then before.stored + [RowOf(cfg, request)] else before.stored
    }

    /** _create_notification, under the lock if there is one. */
    method CheckAndStore(r: Rid, request: Request, onMaintenance: bool, raises: bool, store: Reply, rpcWorks: bool)
      returns (a: Answer, ghost seen: State, ghost at: State)
      requires Valid() && r in now.calls
      requires now.calls[r] == Call(request, if UsesLock(cfg, request) then Locked else Called)
      modifies `now, `schedule, `history
      ensures Valid() && old(history) < history && old(now).stored <= seen.stored <= now.stored && !a.Blocked?
      ensures r in now.calls && now.calls[r].request == request && (now.calls[r].pc.Leaving? || now.calls[r].pc.Answered?)
      ensures Answers(request, onMaintenance, raises, store, rpcWorks, seen, a)
      ensures Stores(r, history) == Stores(r, old(history)) + if IsStored(a) then 1 else 0
      ensures IsStored(a) ==> Appended(request, seen, at, now)
      ensures Quiet(old(schedule)) ==> Quiet(schedule) && CreatedAlone(old(now), now, request, seen, a)
    {
      a, seen := CheckRequest(r, request, onMaintenance, raises);
      at := seen;
      if a.Created? {
        a, at := StoreRow(r, request, store, rpcWorks);
      }
    }

    method Leave(r: Rid)
      requires Valid() && r in now.calls && (now.calls[r].pc.Leaving? || now.calls[r].pc.Answered?)
      modifies `now, `schedule, `history
      ensures Valid() && old(history) <= history && old(now).stored <= now.stored
      ensures r in now.calls && now.calls[r] == Call(old(now.calls[r]).request, Answered)
      ensures Stores(r, history) == Stores(r, old(history))
      ensures Quiet(old(schedule)) ==> now.stored == old(now).stored
    {
      Others(r);
      if now.calls[r].pc.Leaving? { Perform(Act(r, Unlock)); }
    }

    /**
     * create_notification: a row is stored, once, exactly when the host is known, in service, and
     * nothing stored duplicates it; with the lock nothing does when it is stored either.  The lock is
     * given back on every way out.
     */
    method CreateNotification(r: Rid, request: Request, onMaintenance: bool, raises: bool, store: Reply, rpcWorks: bool)
      returns (a: Answer, ghost seen: State, ghost at: State)
      requires Valid() && r !in now.calls
      modifies `now, `schedule, `history
      ensures Valid() && old(history) < history && old(now).stored <= now.stored
      ensures a.Blocked? ==> UsesLock(cfg, request) && schedule == []
      ensures !a.Blocked? ==> r in now.calls && now.calls[r] == Call(request, Answered)
      ensures !a.Blocked? ==>
                old(now).stored <= seen.stored && Answers(request, onMaintenance, raises, store, rpcWorks, seen, a)
      ensures Stores(r, history) == Stores(r, old(history)) + if IsStored(a) then 1 else 0
      ensures IsStored(a) ==> Appended(request, seen, at, now)
      ensures Quiet(old(schedule)) ==> (a.Blocked? <==> UsesLock(cfg, request) && request.hostname in old(now).locks)
      ensures Quiet(old(schedule)) && !a.Blocked? ==> CreatedAlone(old(now), now, request, seen, a)
    {
      seen, at := now, now;
      var entered := Begin(r, request);
      if !entered { return Blocked, seen, at; }
      a, seen, at := CheckAndStore(r, request, onMaintenance, raises, store, rpcWorks);
      Leave(r);
    }
  }
}
