/**
 * The life of a notification inside one engine process.  RPC workers carry copies of status NEW
 * (redeliveries included); the three periodic tasks run one after the other in one thread and
 * carry copies as they listed them.  All of them write the one status field in the database;
 * processing is serialised by a lock per source host, and nothing else is.
 */
module NotificationLifecycle {

  // Every notification handler of the engine returns a status; that no exception escapes from it
  // is assumed here.

  type Nid = nat
  type Wid = nat
  type Host = string

  datatype Status = NEW | RUNNING | ERROR | FAILED | IGNORED | FINISHED

  /** The status a handler returns. */
  datatype Result = AsFinished | AsIgnored | AsError

  function StatusOf(r: Result): Status {
    match r
    case AsFinished => FINISHED
    case AsIgnored => IGNORED
    case AsError => ERROR
  }

  datatype Row = Row(status: Status, host: Host)

  /** A notification object in somebody's hand, with the status it had when it was read. */
  datatype Copy = Copy(n: Nid, status: Status)

  datatype Thread = Rpc(w: Wid) | Periodic

  datatype Pc =
    | Idle
    | Disabling(n: Nid)                        // the segment is disabled: about to save IGNORED, unlocked
    | Entering(copy: Copy)                     // _process_notification: waiting for the host lock
    | HoldingLock(copy: Copy)                  // about to read the row
    | Cleared(copy: Copy)                      // the guard passed: about to save RUNNING
    | Handling(copy: Copy)                     // the recovery handler runs
    | Finishing(copy: Copy, result: Result)    // it returned a status: about to save it
    | Unlocking(n: Nid)
    | Released(n: Nid)                         // the periodic thread re-reads the row next
    | MarkingFailed(n: Nid)                    // re-read as ERROR: about to save FAILED
    | MarkingError(n: Nid)                     // a stale recovery was read as RUNNING: about to save ERROR

  /** What the periodic thread has still to go through. */
  datatype Task =
    | NoTask
    | Unfinished(todo: seq<Copy>)
    | Expired(ids: seq<Nid>)
    | Stale(ids: seq<Nid>)

  datatype State = State(
    db: map<Nid, Row>,
    locks: map<Host, Thread>,
    rpc: map<Wid, Pc>,
    periodic: Pc,
    task: Task,
    runs: map<Copy, nat>)           // history: handler runs, by the copy they were started from

  datatype Action = TakeLock | ReadRow | SaveRunning | HandlerReturns(result: Result) | SaveResult | Unlock

  datatype Step =
    | Create(n: Nid, host: Host)
    | Deliver(w: Wid, n: Nid, segmentEnabled: bool)
    | SaveIgnored(w: Wid)
    | Act(t: Thread, action: Action)
    | ListUnfinished(todo: seq<Copy>)
    | NextUnfinished(overdue: bool)
    | Recheck
    | SaveFailed
    | ListExpired(ids: seq<Nid>)
    | NextExpired(overdue: bool)
    | ListStale(ids: seq<Nid>)
    | NextStale
    | SaveError
    | EndTask

  // ---------------------------------------------------------------- views

  function PcOf(s: State, t: Thread): Pc {
    match t
    case Rpc(w) => if w in s.rpc then s.rpc[w] else Idle
    case Periodic => s.periodic
  }

  function WithPc(s: State, t: Thread, pc: Pc): State {
    match t
    case Rpc(w) => s.(rpc := s.rpc[w := pc])
    case Periodic => s.(periodic := pc)
  }

  function Runs(s: State, c: Copy): nat {
    if c in s.runs then s.runs[c] else 0
  }

  predicate Is(s: State, n: Nid, status: Status) {
    n in s.db && s.db[n].status == status
  }

  function Save(db: map<Nid, Row>, n: Nid, status: Status): map<Nid, Row> {
    if n in db then db[n := db[n].(status := status)] else db
  }

  /** The notification that a thread is processing under the lock. */
  predicate Locks(pc: Pc, n: Nid) {
    match pc
    case HoldingLock(c) => c.n == n
    case Cleared(c) => c.n == n
    case Handling(c) => c.n == n
    case Finishing(c, _) => c.n == n
    case Unlocking(m) => m == n
    case _ => false
  }

  // ---------------------------------------------------------------- transitions

  predicate CanAct(s: State, pc: Pc, action: Action) {
    match action
    case TakeLock => pc.Entering? && pc.copy.n in s.db && s.db[pc.copy.n].host !in s.locks
    case ReadRow => pc.HoldingLock? && pc.copy.n in s.db
    case SaveRunning => pc.Cleared?
    case HandlerReturns(_) => pc.Handling?
    case SaveResult => pc.Finishing?
    case Unlock => pc.Unlocking? && pc.n in s.db
  }

  function NextPc(s: State, pc: Pc, action: Action): Pc
    requires CanAct(s, pc, action)
  {
    match action
    case TakeLock => HoldingLock(pc.copy)
    case ReadRow =>
      if pc.copy.status.NEW? && !s.db[pc.copy.n].status.NEW? then Unlocking(pc.copy.n)   // recovering twice is avoided
      else Cleared(pc.copy)
    case SaveRunning => Handling(pc.copy)
    case HandlerReturns(result) => Finishing(pc.copy, result)
    case SaveResult => Unlocking(pc.copy.n)
    case Unlock => Released(pc.n)
  }

  function NextDb(s: State, pc: Pc, action: Action): map<Nid, Row>
    requires CanAct(s, pc, action)
  {
    match action
    case SaveRunning => Save(s.db, pc.copy.n, RUNNING)
    case SaveResult => Save(s.db, pc.copy.n, StatusOf(pc.result))
    case _ => s.db
  }

  function NextLocks(s: State, t: Thread, pc: Pc, action: Action): map<Host, Thread>
    requires CanAct(s, pc, action)
  {
    match action
    case TakeLock => s.locks[s.db[pc.copy.n].host := t]
    case Unlock => s.locks - {s.db[pc.n].host}
    case _ => s.locks
  }

  function NextRuns(s: State, pc: Pc, action: Action): map<Copy, nat>
    requires CanAct(s, pc, action)
  {
    if action.SaveRunning? then s.runs[pc.copy := Runs(s, pc.copy) + 1] else s.runs
  }

  /** The periodic thread is between two items of its task. */
  predicate Between(s: State) {
    s.periodic.Idle?
  }

  predicate DistinctCopies(todo: seq<Copy>) {
    forall i, j :: 0 <= i < j < |todo| ==> todo[i].n != todo[j].n
  }

  predicate Enabled(s: State, step: Step) {
    match step
    case Create(n, _) => n !in s.db
    case Deliver(w, n, _) => w !in s.rpc && n in s.db
    case SaveIgnored(w) => w in s.rpc && s.rpc[w].Disabling?
    case Act(t, action) => CanAct(s, PcOf(s, t), action)
    case ListUnfinished(todo) =>
      s.task.NoTask? && Between(s) && DistinctCopies(todo)
      && forall i :: 0 <= i < |todo| ==> Is(s, todo[i].n, todo[i].status) && (todo[i].status.ERROR? || todo[i].status.NEW?)
    case NextUnfinished(_) => s.task.Unfinished? && s.task.todo != [] && Between(s)
    case Recheck => s.periodic.Released?
    case SaveFailed => s.periodic.MarkingFailed?
    case ListExpired(ids) => s.task.NoTask? && Between(s)
    case NextExpired(_) => s.task.Expired? && s.task.ids != [] && Between(s)
    case ListStale(ids) => s.task.NoTask? && Between(s)
    case NextStale => s.task.Stale? && s.task.ids != [] && Between(s)
    case SaveError => s.periodic.MarkingError?
    case EndTask => Between(s)
  }

  function Apply(s: State, step: Step): State
    requires Enabled(s, step)
  {
    match step
    case Create(n, host) => s.(db := s.db[n := Row(NEW, host)])
    case Deliver(w, n, segmentEnabled) =>
      s.(rpc := s.rpc[w := if segmentEnabled then Entering(Copy(n, NEW)) else Disabling(n)])
    case SaveIgnored(w) => s.(db := Save(s.db, s.rpc[w].n, IGNORED), rpc := s.rpc[w := Idle])
    case Act(t, action) =>
      var pc := PcOf(s, t);
      WithPc(State(NextDb(s, pc, action), NextLocks(s, t, pc, action), s.rpc, s.periodic, s.task, NextRuns(s, pc, action)),
             t, NextPc(s, pc, action))
    case ListUnfinished(todo) => s.(task := Unfinished(todo))
    case NextUnfinished(overdue) =>
      var c := s.task.todo[0];
      s.(task := Unfinished(s.task.todo[1..]),
      periodic := if c.status.ERROR? || (c.status.NEW? && overdue) then Entering(c) else Released(c.n))
    case Recheck => s.(periodic := if Is(s, s.periodic.n, ERROR) then MarkingFailed(s.periodic.n) else Idle)
    case SaveFailed => s.(db := Save(s.db, s.periodic.n, FAILED), periodic := Idle)
    case ListExpired(ids) => s.(task := Expired(ids))
    case NextExpired(overdue) =>
      s.(task := Expired(s.task.ids[1..]), db := if overdue then Save(s.db, s.task.ids[0], FAILED) else s.db)
    case ListStale(ids) => s.(task := Stale(ids))
    case NextStale =>
      s.(task := Stale(s.task.ids[1..]), periodic := if Is(s, s.task.ids[0], RUNNING) then MarkingError(s.task.ids[0]) else Idle)
    case SaveError => s.(db := Save(s.db, s.periodic.n, ERROR), periodic := Idle)
    case EndTask => s.(task := NoTask)
  }

  datatype Outcome = Stuck | Reached(state: State)

  function Exec(s: State, steps: seq<Step>): Outcome
    decreases |steps|
  {
    if steps == [] then Reached(s)
    else if !Enabled(s, steps[0]) then Stuck
    else Exec(Apply(s, steps[0]), steps[1..])
  }

  /** A process starts with whatever rows the database holds, those left by earlier processes included. */
  function Init(db: map<Nid, Row>): State {
    State(db, map[], map[], Idle, NoTask, map[])
  }

  // ---------------------------------------------------------------- invariants

  /** Whoever processes a notification holds the lock of its host. */
  ghost predicate LockInv(s: State) {
    forall t, n :: Locks(PcOf(s, t), n) ==> n in s.db && s.db[n].host in s.locks && s.locks[s.db[n].host] == t
  }

  /** RPC workers carry NEW copies only, and never do what only the periodic tasks do. */
  ghost predicate RpcInv(s: State) {
    forall w :: w in s.rpc ==> NewCopyOnly(s.rpc[w])
  }

  predicate NewCopyOnly(pc: Pc) {
    match pc
    case Entering(c) => c.status.NEW?
    case HoldingLock(c) => c.status.NEW?
    case Cleared(c) => c.status.NEW?
    case Handling(c) => c.status.NEW?
    case Finishing(c, _) => c.status.NEW?
    case MarkingFailed(_) => false
    case MarkingError(_) => false
    case _ => true
  }

  /** A handler started from a NEW copy: the row has left NEW for good, and nobody is cleared to start another. */
  ghost predicate NewInv(s: State) {
    forall n :: Runs(s, Copy(n, NEW)) <= 1 && (Runs(s, Copy(n, NEW)) == 1 ==> NewUsed(s, n))
  }

  ghost predicate NewUsed(s: State, n: Nid) {
    && n in s.db && !s.db[n].status.NEW?
    && forall t :: PcOf(s, t) != Cleared(Copy(n, NEW))
  }

  lemma LockAct(s: State, t0: Thread, action: Action)
    requires LockInv(s) && Enabled(s, Act(t0, action))
    ensures LockInv(Apply(s, Act(t0, action)))
  {
    var s' := Apply(s, Act(t0, action));
    forall t, n | Locks(PcOf(s', t), n) ensures n in s'.db && s'.db[n].host in s'.locks && s'.locks[s'.db[n].host] == t {
      if t != t0 {
        assert PcOf(s', t) == PcOf(s, t) && Locks(PcOf(s, t), n);
        assert action.Unlock? ==> Locks(PcOf(s, t0), PcOf(s, t0).n);
      } else if !action.TakeLock? {
        assert Locks(PcOf(s, t), n);
      }
    }
  }

  lemma LockOther(s: State, step: Step)
    requires LockInv(s) && Enabled(s, step) && !step.Act?
    ensures LockInv(Apply(s, step))
  {
    var s' := Apply(s, step);
    forall t, n | Locks(PcOf(s', t), n) ensures n in s'.db && s'.db[n].host in s'.locks && s'.locks[s'.db[n].host] == t {
      assert Locks(PcOf(s, t), n);
    }
  }

  lemma LockStep(s: State, step: Step)
    requires LockInv(s) && Enabled(s, step)
    ensures LockInv(Apply(s, step))
  {
    if step.Act? { LockAct(s, step.t, step.action); } else { LockOther(s, step); }
  }

  lemma RpcStep(s: State, step: Step)
    requires RpcInv(s) && Enabled(s, step)
    ensures RpcInv(Apply(s, step))
  {
  }

  lemma NewStep(s: State, step: Step)
    requires LockInv(s) && NewInv(s) && Enabled(s, step)
    ensures NewInv(Apply(s, step))
  {
    var s' := Apply(s, step);
    forall n ensures Runs(s', Copy(n, NEW)) <= 1 && (Runs(s', Copy(n, NEW)) == 1 ==> NewUsed(s', n)) {
      if step.Act? && step.action.SaveRunning? && PcOf(s, step.t).copy == Copy(n, NEW) {
        NewRunStarts(s, step.t, n);
      } else if Runs(s, Copy(n, NEW)) == 1 {
        NewStaysUsed(s, step, n);
      }
    }
  }

  lemma NewRunStarts(s: State, t0: Thread, n: Nid)
    requires LockInv(s) && NewInv(s) && PcOf(s, t0) == Cleared(Copy(n, NEW))
    ensures Runs(s, Copy(n, NEW)) == 0 && NewUsed(Apply(s, Act(t0, SaveRunning)), n)
  {
    var s' := Apply(s, Act(t0, SaveRunning));
    assert Locks(PcOf(s, t0), n);
    forall t ensures PcOf(s', t) != Cleared(Copy(n, NEW)) {
      if t != t0 {
        assert PcOf(s', t) == PcOf(s, t) && !Locks(PcOf(s, t), n);
      }
    }
  }

  lemma NewStaysUsed(s: State, step: Step, n: Nid)
    requires NewUsed(s, n) && Enabled(s, step)
    ensures NewUsed(Apply(s, step), n)
  {
    var s' := Apply(s, step);
    forall t ensures PcOf(s', t) != Cleared(Copy(n, NEW)) {
      assert PcOf(s, t) != Cleared(Copy(n, NEW));
    }
  }

  // ---------------------------------------------------------------- runs from ERROR copies

  /** The thread may still write the result of a handler run of n, or start one. */
  predicate Working(pc: Pc, n: Nid) {
    match pc
    case Cleared(c) => c.n == n
    case Handling(c) => c.n == n
    case Finishing(c, _) => c.n == n
    case _ => false
  }

  predicate Terminal(status: Status) {
    status.FAILED? || status.IGNORED? || status.FINISHED?
  }

  /** Where the periodic thread stands with n once it has run the handler from an ERROR copy of n. */
  predicate PeriodicDone(s: State, n: Nid)
    requires n in s.db
  {
    match s.periodic
    case Handling(c) => c.n == n || Terminal(s.db[n].status)
    case Finishing(c, _) => c.n == n || Terminal(s.db[n].status)
    case Unlocking(m) => if m == n then !s.db[n].status.RUNNING? else Terminal(s.db[n].status)
    case Released(m) => if m == n then !s.db[n].status.RUNNING? else Terminal(s.db[n].status)
    case MarkingFailed(m) => if m == n then !s.db[n].status.RUNNING? else Terminal(s.db[n].status)
    case MarkingError(m) => m != n && Terminal(s.db[n].status)
    case Entering(c) => c.n != n && Terminal(s.db[n].status)
    case HoldingLock(c) => c.n != n && Terminal(s.db[n].status)
    case Cleared(c) => c.n != n && Terminal(s.db[n].status)
    case _ => Terminal(s.db[n].status)
  }

  predicate NotTodo(s: State, n: Nid) {
    s.task.Unfinished? ==> forall i :: 0 <= i < |s.task.todo| ==> s.task.todo[i].n != n
  }

  /** A handler was started from an ERROR copy of n: nothing will turn the row to NEW, RUNNING or ERROR again. */
  ghost predicate ErrorUsed(s: State, n: Nid) {
    && n in s.db && !s.db[n].status.NEW?
    && PeriodicDone(s, n)
    && NotTodo(s, n)
    && forall w :: w in s.rpc ==> !Working(s.rpc[w], n)
  }

  ghost predicate ErrorInv(s: State) {
    forall n :: Runs(s, Copy(n, ERROR)) <= 1 && (Runs(s, Copy(n, ERROR)) == 1 ==> ErrorUsed(s, n))
  }

  /** An ERROR copy in hand is of a row that has left NEW; the item in hand is no longer in the list. */
  ghost predicate CopyInv(s: State) {
    && (s.task.Unfinished? ==> DistinctCopies(s.task.todo))
    && (s.task.Unfinished? ==> forall i :: 0 <= i < |s.task.todo| && s.task.todo[i].status.ERROR? ==> LeftNew(s, s.task.todo[i].n))
    && ErrorCopyOk(s, s.periodic)
  }

  predicate LeftNew(s: State, n: Nid) {
    n in s.db && !s.db[n].status.NEW?
  }

  predicate ErrorCopyOk(s: State, pc: Pc) {
    match pc
    case Entering(c) => InHand(s, c)
    case HoldingLock(c) => InHand(s, c)
    case Cleared(c) => InHand(s, c)
    case _ => true
  }

  predicate InHand(s: State, c: Copy) {
    && (c.status.NEW? || c.status.ERROR?) && (c.status.ERROR? ==> LeftNew(s, c.n))
    && NotTodo(s, c.n)
  }

  /** No step brings a row back to NEW. */
  lemma NeverNewAgain(s: State, step: Step, n: Nid)
    requires LeftNew(s, n) && Enabled(s, step)
    ensures LeftNew(Apply(s, step), n)
  {
  }

  lemma CopyAct(s: State, t: Thread, action: Action)
    requires CopyInv(s) && Enabled(s, Act(t, action))
    ensures CopyInv(Apply(s, Act(t, action)))
  {
    forall n | LeftNew(s, n) ensures LeftNew(Apply(s, Act(t, action)), n) {
      NeverNewAgain(s, Act(t, action), n);
    }
  }

  lemma CopyOther(s: State, step: Step)
    requires CopyInv(s) && Enabled(s, step) && !step.Act?
    ensures CopyInv(Apply(s, step))
  {
    forall n | LeftNew(s, n) ensures LeftNew(Apply(s, step), n) {
      NeverNewAgain(s, step, n);
    }
  }

  lemma CopyStep(s: State, step: Step)
    requires CopyInv(s) && Enabled(s, step)
    ensures CopyInv(Apply(s, step))
  {
    if step.Act? { CopyAct(s, step.t, step.action); } else { CopyOther(s, step); }
  }

  lemma ErrorRunStarts(s: State, n: Nid)
    requires LockInv(s) && ErrorInv(s) && CopyInv(s) && s.periodic == Cleared(Copy(n, ERROR))
    ensures Runs(s, Copy(n, ERROR)) == 0 && ErrorUsed(Apply(s, Act(Periodic, SaveRunning)), n)
  {
    assert PcOf(s, Periodic) == s.periodic && Locks(s.periodic, n);
    forall w | w in s.rpc ensures !Working(s.rpc[w], n) {
      assert PcOf(s, Rpc(w)) == s.rpc[w];
    }
  }

  lemma ErrorUsedByAct(s: State, t: Thread, action: Action, n: Nid)
    requires ErrorUsed(s, n) && RpcInv(s) && Enabled(s, Act(t, action))
    ensures ErrorUsed(Apply(s, Act(t, action)), n)
  {
    var s' := Apply(s, Act(t, action));
    if t.Periodic? {
      assert s'.rpc == s.rpc && NotTodo(s', n) == NotTodo(s, n);
    } else {
      assert t.w in s.rpc && NewCopyOnly(s.rpc[t.w]);
      assert s'.periodic == s.periodic && s'.task == s.task;
    }
  }

  lemma ErrorUsedByOther(s: State, step: Step, n: Nid)
    requires ErrorUsed(s, n) && CopyInv(s) && Enabled(s, step) && !step.Act?
    ensures ErrorUsed(Apply(s, step), n)
  {
  }

  lemma ErrorStep(s: State, step: Step)
    requires LockInv(s) && RpcInv(s) && CopyInv(s) && ErrorInv(s) && Enabled(s, step)
    ensures ErrorInv(Apply(s, step))
  {
    var s' := Apply(s, step);
    forall n ensures Runs(s', Copy(n, ERROR)) <= 1 && (Runs(s', Copy(n, ERROR)) == 1 ==> ErrorUsed(s', n)) {
      if step.Act? && step.action.SaveRunning? && PcOf(s, step.t).copy == Copy(n, ERROR) {
        assert step.t.Periodic?;
        ErrorRunStarts(s, n);
      } else if Runs(s, Copy(n, ERROR)) == 1 {
        if step.Act? { ErrorUsedByAct(s, step.t, step.action, n); } else { ErrorUsedByOther(s, step, n); }
      }
    }
  }

  /** Handlers are started from NEW and from ERROR copies only. */
  ghost predicate RunsInv(s: State) {
    forall c :: c in s.runs ==> c.status.NEW? || c.status.ERROR?
  }

  lemma RunsStep(s: State, step: Step)
    requires RpcInv(s) && CopyInv(s) && RunsInv(s) && Enabled(s, step)
    ensures RunsInv(Apply(s, step))
  {
    if step.Act? && step.action.SaveRunning? && step.t.Rpc? {
      assert NewCopyOnly(s.rpc[step.t.w]);
    }
  }

  // ---------------------------------------------------------------- whole runs

  ghost predicate Inv(s: State) {
    LockInv(s) && RpcInv(s) && NewInv(s) && CopyInv(s) && ErrorInv(s) && RunsInv(s)
  }

  lemma {:induction false} WholeRun(s: State, steps: seq<Step>)
    requires Inv(s) && Exec(s, steps).Reached?
    ensures Inv(Exec(s, steps).state)
    decreases |steps|
  {
    if steps != [] {
      LockStep(s, steps[0]);
      RpcStep(s, steps[0]);
      NewStep(s, steps[0]);
      CopyStep(s, steps[0]);
      ErrorStep(s, steps[0]);
      RunsStep(s, steps[0]);
      WholeRun(Apply(s, steps[0]), steps[1..]);
    }
  }

  /** A run of one process over a database. */
  ghost predicate RunTo(db: map<Nid, Row>, steps: seq<Step>, s: State) {
    Exec(Init(db), steps) == Reached(s)
  }

  lemma InitInv(db: map<Nid, Row>)
    ensures Inv(Init(db))
  {
    forall t, n ensures !Locks(PcOf(Init(db), t), n) {}
  }

  /**
   * No failure is recovered more than twice by a process: in any run of one engine process,
   * whatever rows it finds and whatever is redelivered, expired or found stale, the handler of a
   * notification is started at most once from a NEW copy, at most once from an ERROR copy, and from
   * no other copy.
   */
  lemma RecoveredAtMostTwice(db: map<Nid, Row>, steps: seq<Step>, s: State, n: Nid, status: Status)
    requires RunTo(db, steps, s)
    ensures Runs(s, Copy(n, NEW)) <= 1 && Runs(s, Copy(n, ERROR)) <= 1
    ensures Runs(s, Copy(n, status)) > 0 ==> status.NEW? || status.ERROR?
  {
    InitInv(db);
    WholeRun(Init(db), steps);
  }

  /** Two handlers never run at the same time for notifications of one host. */
  lemma OneHandlerPerHost(db: map<Nid, Row>, steps: seq<Step>, s: State, t: Thread, u: Thread)
    requires RunTo(db, steps, s)
    requires PcOf(s, t).Handling? && PcOf(s, u).Handling?
    requires PcOf(s, t).copy.n in s.db && PcOf(s, u).copy.n in s.db
    requires s.db[PcOf(s, t).copy.n].host == s.db[PcOf(s, u).copy.n].host
    ensures t == u
  {
    InitInv(db);
    WholeRun(Init(db), steps);
    assert Locks(PcOf(s, t), PcOf(s, t).copy.n) && Locks(PcOf(s, u), PcOf(s, u).copy.n);
  }

  /**
   * After the retry from an ERROR copy the notification is settled: once the periodic thread is
   * between tasks again, the row is FAILED, IGNORED or FINISHED.
   */
  lemma SettledAfterRetry(db: map<Nid, Row>, steps: seq<Step>, s: State, n: Nid)
    requires RunTo(db, steps, s) && Runs(s, Copy(n, ERROR)) > 0 && s.periodic.Idle?
    ensures n in s.db && Terminal(s.db[n].status)
  {
    InitInv(db);
    WholeRun(Init(db), steps);
  }

  // ---------------------------------------------------------------- why a status is written

  /** The steps that a thread makes itself; rows are created by the API. */
  predicate StepOf(t: Thread, step: Step) {
    match step
    case Create(_, _) => false
    case Deliver(w, _, _) => t == Rpc(w)
    case SaveIgnored(w) => t == Rpc(w)
    case Act(u, _) => u == t
    case _ => t.Periodic?
  }

  /** Step j of the history is the last one the thread made. */
  ghost predicate LastOwn(t: Thread, history: seq<Step>, j: nat) {
    && j < |history| && StepOf(t, history[j])
    && forall i :: j < i < |history| ==> !StepOf(t, history[i])
  }

  /** About to write a status, a thread made the step that asks for it in the state a. */
  predicate AskedBy(t: Thread, a: State, step: Step, pc: Pc) {
    match pc
    case MarkingFailed(n) => step.Recheck? && Is(a, n, ERROR)
    case MarkingError(n) => step.NextStale? && Is(a, n, RUNNING)
    case Cleared(c) => step == Act(t, ReadRow) && (c.status.NEW? ==> Is(a, c.n, NEW))
    case Finishing(_, result) => step == Act(t, HandlerReturns(result))
    case Disabling(n) => t.Rpc? && step == Deliver(t.w, n, false)
    case _ => false
  }

  predicate AboutToWrite(pc: Pc) {
    pc.MarkingFailed? || pc.MarkingError? || pc.Cleared? || pc.Finishing? || pc.Disabling?
  }

  lemma RunBefore(db: map<Nid, Row>, history: seq<Step>, s: State) returns (a: State)
    requires RunTo(db, history, s) && history != []
    ensures RunTo(db, history[..|history| - 1], a)
    ensures Enabled(a, history[|history| - 1]) && s == Apply(a, history[|history| - 1])
  {
    var h := history[..|history| - 1];
    assert history == h + [history[|history| - 1]];
    PrefixRuns(Init(db), h, [history[|history| - 1]]);
    a := Exec(Init(db), h).state;
    ExecAppend(Init(db), h, [history[|history| - 1]]);
    assert [history[|history| - 1]][1..] == [];
  }

  lemma {:induction false} PrefixRuns(s: State, a: seq<Step>, b: seq<Step>)
    requires Exec(s, a + b).Reached?
    ensures Exec(s, a).Reached?
    decreases |a|
  {
    if a != [] {
      assert (a + b)[1..] == a[1..] + b;
      PrefixRuns(Apply(s, a[0]), a[1..], b);
    }
  }

  lemma AskedNow(t: Thread, a: State, step: Step)
    requires Enabled(a, step) && StepOf(t, step) && AboutToWrite(PcOf(Apply(a, step), t))
    ensures AskedBy(t, a, step, PcOf(Apply(a, step), t))
  {
  }

  lemma NotDisturbed(t: Thread, a: State, step: Step)
    requires Enabled(a, step) && !StepOf(t, step)
    ensures PcOf(Apply(a, step), t) == PcOf(a, t)
  {
  }

  /** Whoever is about to write has made no step since the one that asks for it. */
  lemma {:induction false} Asked(db: map<Nid, Row>, history: seq<Step>, s: State, t: Thread) returns (j: nat, a: State)
    requires RunTo(db, history, s) && AboutToWrite(PcOf(s, t))
    ensures LastOwn(t, history, j) && RunTo(db, history[..j], a) && AskedBy(t, a, history[j], PcOf(s, t))
    decreases |history|
  {
    a := RunBefore(db, history, s);
    j := |history| - 1;
    if StepOf(t, history[j]) {
      AskedNow(t, a, history[j]);
    } else {
      NotDisturbed(t, a, history[j]);
      var h := history[..j];
      j, a := Asked(db, h, a, t);
      assert history[..j] == h[..j];
    }
  }

  /** What may ask for a status to be written to row n, by a step that found the state a. */
  predicate Asks(t: Thread, a: State, asked: Step, pc: Pc, n: Nid, status: Status) {
    match status
    case NEW => false
    case RUNNING => asked == Act(t, ReadRow) && pc.Cleared? && pc.copy.n == n && (pc.copy.status.NEW? ==> Is(a, n, NEW))
    case ERROR => (asked.NextStale? && Is(a, n, RUNNING)) || asked == Act(t, HandlerReturns(AsError))
    case FAILED => asked.Recheck? && Is(a, n, ERROR)
    case IGNORED => asked == Act(t, HandlerReturns(AsIgnored)) || (t.Rpc? && asked == Deliver(t.w, n, false))
    case FINISHED => asked == Act(t, HandlerReturns(AsFinished))
  }

  predicate Overdue(s: State, step: Step, n: Nid) {
    step == NextExpired(true) && s.task.Expired? && s.task.ids != [] && s.task.ids[0] == n
  }

  /** Whose step it is, if it is anybody's. */
  function Writer(step: Step): Thread {
    match step
    case SaveIgnored(w) => Rpc(w)
    case Act(t, _) => t
    case _ => Periodic
  }

  /** Whatever state and step asked for what the thread is about to do, asked for this write. */
  ghost predicate AsksFor(t: Thread, pc: Pc, n: Nid, status: Status) {
    AboutToWrite(pc) && forall a, asked :: AskedBy(t, a, asked, pc) ==> Asks(t, a, asked, pc, n, status)
  }

  lemma WriterAsks(s: State, step: Step, n: Nid)
    requires Enabled(s, step) && n in s.db && Apply(s, step).db[n].status != s.db[n].status && !step.NextExpired?
    ensures AsksFor(Writer(step), PcOf(s, Writer(step)), n, Apply(s, step).db[n].status)
  {
    if step.Act? { ActorAsks(s, step.t, step.action, n); }
  }

  lemma ActorAsks(s: State, t: Thread, action: Action, n: Nid)
    requires CanAct(s, PcOf(s, t), action) && n in s.db
    requires n in NextDb(s, PcOf(s, t), action) && NextDb(s, PcOf(s, t), action)[n].status != s.db[n].status
    ensures AsksFor(t, PcOf(s, t), n, NextDb(s, PcOf(s, t), action)[n].status)
  {
  }

  /**
   * Every change of a status has its reason, in every run.  FAILED is written to a row whose copy is
   * overdue, or that its writer has just re-read in ERROR; ERROR to a row just read as RUNNING, or
   * for a handler that returned it; RUNNING by a thread that just passed the guard; and nothing is
   * ever written NEW.
   */
  lemma WriteHasReason(db: map<Nid, Row>, history: seq<Step>, s: State, step: Step, n: Nid)
    returns (j: nat, a: State)
    requires RunTo(db, history, s) && Enabled(s, step) && n in s.db
    requires Apply(s, step).db[n].status != s.db[n].status
    ensures var t := Writer(step); var status := Apply(s, step).db[n].status;
            || (Overdue(s, step, n) && status.FAILED?)
            || (LastOwn(t, history, j) && RunTo(db, history[..j], a) && Asks(t, a, history[j], PcOf(s, t), n, status))
  {
    j, a := 0, s;
    if !step.NextExpired? {
      WriterAsks(s, step, n);
      j, a := Asked(db, history, s, Writer(step));
    }
  }

  // ---------------------------------------------------------------- twice does happen

  lemma {:induction false} ExecAppend(s: State, a: seq<Step>, b: seq<Step>)
    requires Exec(s, a).Reached?
    ensures Exec(s, a + b) == Exec(Exec(s, a).state, b)
    decreases |a|
  {
    if a == [] {
      assert a + b == b;
    } else {
      assert (a + b)[1..] == a[1..] + b;
      ExecAppend(Apply(s, a[0]), a[1..], b);
    }
  }

  /** One more step of a run. */
  lemma Extend(db: map<Nid, Row>, before: seq<Step>, s: State, step: Step) returns (steps: seq<Step>, t: State)
    requires RunTo(db, before, s) && Enabled(s, step)
    ensures RunTo(db, steps, t) && t == Apply(s, step)
  {
    ExecAppend(Init(db), before, [step]);
    assert [step][1..] == [];
    steps, t := before + [step], Apply(s, step);
  }

  /** A delivered notification is about to be recovered. */
  lemma DeliveredAndLocked() returns (steps: seq<Step>, s: State)
    ensures RunTo(map[], steps, s)
    ensures s == State(map[0 := Row(NEW, "h")], map["h" := Rpc(0)], map[0 := HoldingLock(Copy(0, NEW))], Idle, NoTask, map[])
  {
    steps, s := Extend(map[], [], Init(map[]), Create(0, "h"));
    steps, s := Extend(map[], steps, s, Deliver(0, 0, true));
    steps, s := Extend(map[], steps, s, Act(Rpc(0), TakeLock));
  }

  lemma FirstRunStarts() returns (steps: seq<Step>, s: State)
    ensures RunTo(map[], steps, s)
    ensures s == State(map[0 := Row(RUNNING, "h")], map["h" := Rpc(0)], map[0 := Handling(Copy(0, NEW))], Idle, NoTask,
                       map[Copy(0, NEW) := 1])
  {
    steps, s := DeliveredAndLocked();
    steps, s := Extend(map[], steps, s, Act(Rpc(0), ReadRow));
    steps, s := Extend(map[], steps, s, Act(Rpc(0), SaveRunning));
  }

  /** Its recovery ends in ERROR. */
  lemma FirstResultSaved() returns (steps: seq<Step>, s: State)
    ensures RunTo(map[], steps, s)
    ensures s == State(map[0 := Row(ERROR, "h")], map["h" := Rpc(0)], map[0 := Unlocking(0)], Idle, NoTask,
                       map[Copy(0, NEW) := 1])
  {
    steps, s := FirstRunStarts();
    steps, s := Extend(map[], steps, s, Act(Rpc(0), HandlerReturns(AsError)));
    steps, s := Extend(map[], steps, s, Act(Rpc(0), SaveResult));
  }

  lemma FirstRunFails() returns (steps: seq<Step>, s: State)
    ensures RunTo(map[], steps, s) && s.db == map[0 := Row(ERROR, "h")] && s.locks == map[]
    ensures s.periodic.Idle? && s.task.NoTask? && s.runs == map[Copy(0, NEW) := 1]
  {
    steps, s := FirstResultSaved();
    steps, s := Extend(map[], steps, s, Act(Rpc(0), Unlock));
  }

  /** The retry takes the row as it listed it. */
  lemma RetryLocked() returns (steps: seq<Step>, s: State)
    ensures RunTo(map[], steps, s) && s.db == map[0 := Row(ERROR, "h")] && s.runs == map[Copy(0, NEW) := 1]
    ensures s.periodic == HoldingLock(Copy(0, ERROR))
  {
    steps, s := FirstRunFails();
    steps, s := Extend(map[], steps, s, ListUnfinished([Copy(0, ERROR)]));
    steps, s := Extend(map[], steps, s, NextUnfinished(false));
    steps, s := Extend(map[], steps, s, Act(Periodic, TakeLock));
  }

  /** The bound of RecoveredAtMostTwice is met: the retry runs the handler a second time. */
  lemma RecoveredTwice()
    ensures exists steps, s :: RunTo(map[], steps, s) && Runs(s, Copy(0, NEW)) == 1 && Runs(s, Copy(0, ERROR)) == 1
  {
    var steps, s := RetryLocked();
    steps, s := Extend(map[], steps, s, Act(Periodic, ReadRow));
    steps, s := Extend(map[], steps, s, Act(Periodic, SaveRunning));
  }
}
