/**
 * The manager's methods over the notification life cycle: every database access and lock operation
 * they make is an enabled step of the machine, in the order of the source, whatever the other
 * threads do in between, so what holds of all runs of the machine holds of the program.
 */
module NotificationManager {
  import opened NotificationLifecycle

  /** What the others leave to a thread: where it stands, its task, and the rows as such. */
  ghost predicate Undisturbed(t: Thread, a: State, b: State) {
    PcOf(a, t) == PcOf(b, t) && Kept(t, a, b)
  }

  ghost predicate Kept(t: Thread, a: State, b: State) {
    && (t.Periodic? ==> a.task == b.task)
    && (forall n :: n in a.db ==> n in b.db)
  }

  lemma OtherStep(t: Thread, s: State, step: Step)
    requires Enabled(s, step) && !StepOf(t, step)
    ensures Undisturbed(t, s, Apply(s, step))
  {
  }

  /** The calls of _process_notification that a thread may make whatever the others did. */
  predicate Ready(pc: Pc, action: Action) {
    match action
    case TakeLock => false
    case ReadRow => pc.HoldingLock?
    case SaveRunning => pc.Cleared?
    case HandlerReturns(_) => pc.Handling?
    case SaveResult => pc.Finishing?
    case Unlock => pc.Unlocking?
  }

  function Subject(pc: Pc): Nid
    requires pc.HoldingLock? || pc.Cleared? || pc.Handling? || pc.Finishing? || pc.Unlocking? || pc.Entering?
  {
    match pc
    case HoldingLock(c) => c.n
    case Cleared(c) => c.n
    case Handling(c) => c.n
    case Finishing(c, _) => c.n
    case Unlocking(n) => n
    case Entering(c) => c.n
  }

  predicate Listed(db: map<Nid, Row>, n: Nid, filter: set<Status>) {
    n in db && db[n].status in filter
  }

  /** The copies are of different rows, with the status these have. */
  ghost predicate TrueCopies(db: map<Nid, Row>, copies: seq<Copy>) {
    DistinctCopies(copies) && forall i :: 0 <= i < |copies| ==> TrueCopy(db, copies[i])
  }

  predicate TrueCopy(db: map<Nid, Row>, copy: Copy) {
    copy.n in db && copy.status == db[copy.n].status
  }

  /** The copies are those of all rows with such a status, each once. */
  ghost predicate AllWith(db: map<Nid, Row>, copies: seq<Copy>, filter: set<Status>) {
    && TrueCopies(db, copies) && (forall i :: 0 <= i < |copies| ==> copies[i].status in filter)
    && forall n :: Listed(db, n, filter) ==> exists i :: 0 <= i < |copies| && copies[i].n == n
  }

  lemma AmongOneMore(copies: seq<Copy>, k: nat, n: Nid)
    requires k < |copies| && NotAmong(copies[..k + 1], n)
    ensures NotAmong(copies[..k], n) && copies[k].n != n
  {
    assert copies[..k + 1][k] == copies[k];
    assert forall i :: 0 <= i < k ==> copies[..k][i] == copies[..k + 1][i];
  }

  lemma KeysKept(a: State, b: State, n: Nid)
    requires n in a.db && n in b.db && b.db == a.db[n := b.db[n]]
    ensures b.db.Keys == a.db.Keys && forall m :: m in a.db && m != n ==> b.db[m] == a.db[m]
  {
  }

  /** Rows that are not among the first of the list are as they were. */
  ghost predicate OthersSame(a: map<Nid, Row>, b: State, listed: seq<Copy>, done: nat) {
    && done <= |listed|
    && forall n {:trigger NotAmong(listed[..done], n)} :: n in a && NotAmong(listed[..done], n) ==> n in b.db && b.db[n] == a[n]
  }

  lemma OthersKept(a: map<Nid, Row>, b: State, c: State, listed: seq<Copy>, done: nat)
    requires done < |listed| && OthersSame(a, b, listed, done)
    requires c.db.Keys == b.db.Keys && forall m :: m in b.db && m != listed[done].n ==> c.db[m] == b.db[m]
    ensures OthersSame(a, c, listed, done + 1)
  {
    forall n | n in a && NotAmong(listed[..done + 1], n) ensures n in c.db && c.db[n] == a[n] {
      AmongOneMore(listed, done, n);
    }
  }

  ghost predicate NotAmong(copies: seq<Copy>, n: Nid) {
    forall i :: 0 <= i < |copies| ==> copies[i].n != n
  }

  datatype Processed =
    | Skipped(seen: Status)                        // the row had left NEW before: not recovered twice
    | Ran(result: Result)                          // the handler ran and its result was saved
    | SegmentDisabled                              // raised before any processing
    | Blocked                                      // the schedule ended with the lock still taken

  /** Somewhere on the way from one history to the other the row had this status. */
  ghost predicate Was(db: map<Nid, Row>, before: seq<Step>, after: seq<Step>, n: Nid, status: Status) {
    exists k :: |before| <= k <= |after| && Exec(Init(db), after[..k]).Reached? && Is(Exec(Init(db), after[..k]).state, n, status)
  }

  /** Somewhere on the way it had another status, or was not there. */
  ghost predicate WasNot(db: map<Nid, Row>, before: seq<Step>, after: seq<Step>, n: Nid, status: Status) {
    exists k :: |before| <= k <= |after| && Exec(Init(db), after[..k]).Reached? && !Is(Exec(Init(db), after[..k]).state, n, status)
  }

  lemma IsNow(db: map<Nid, Row>, before: seq<Step>, after: seq<Step>, s: State, n: Nid, status: Status)
    requires before <= after && RunTo(db, after, s)
    ensures Is(s, n, status) ==> Was(db, before, after, n, status)
    ensures !Is(s, n, status) ==> WasNot(db, before, after, n, status)
  {
    assert after[..|after|] == after;
  }

  lemma WasLater(db: map<Nid, Row>, a: seq<Step>, b: seq<Step>, c: seq<Step>, d: seq<Step>, n: Nid, status: Status)
    requires a <= b && c <= d
    ensures Was(db, b, c, n, status) ==> Was(db, a, d, n, status)
    ensures WasNot(db, b, c, n, status) ==> WasNot(db, a, d, n, status)
  {
    if Was(db, b, c, n, status) {
      var k :| |b| <= k <= |c| && Exec(Init(db), c[..k]).Reached? && Is(Exec(Init(db), c[..k]).state, n, status);
      assert d[..k] == c[..k];
    }
    if WasNot(db, b, c, n, status) {
      var k :| |b| <= k <= |c| && Exec(Init(db), c[..k]).Reached? && !Is(Exec(Init(db), c[..k]).state, n, status);
      assert d[..k] == c[..k];
    }
  }

  /** Somewhere on the way this step was made. */
  ghost predicate Did(before: seq<Step>, after: seq<Step>, step: Step) {
    exists k :: |before| <= k < |after| && after[k] == step
  }

  lemma DidLater(a: seq<Step>, b: seq<Step>, c: seq<Step>, d: seq<Step>, step: Step)
    requires a <= b && c <= d && Did(b, c, step)
    ensures Did(a, d, step)
  {
    var k :| |b| <= k < |c| && c[k] == step;
    assert d[k] == step;
  }

  /** How often the thread started a recovery handler. */
  function Starts(t: Thread, steps: seq<Step>): nat
    decreases |steps|
  {
    if steps == [] then 0
    else Starts(t, steps[..|steps| - 1]) + if steps[|steps| - 1] == Act(t, SaveRunning) then 1 else 0
  }

  lemma OneMoreStep(t: Thread, steps: seq<Step>, step: Step)
    ensures Starts(t, steps + [step]) == Starts(t, steps) + if step == Act(t, SaveRunning) then 1 else 0
  {
    assert (steps + [step])[..|steps|] == steps;
  }

  /** The thread saved RUNNING and ran the handler once. */
  ghost predicate Handled(db: map<Nid, Row>, t: Thread, before: seq<Step>, after: seq<Step>, n: Nid, result: Result) {
    && Starts(t, after) == Starts(t, before) + 1
    && Did(before, after, Act(t, SaveRunning)) && Did(before, after, Act(t, HandlerReturns(result)))
    && Was(db, before, after, n, RUNNING)
  }

  /** It then saved the handler's result. */
  ghost predicate Recovered(db: map<Nid, Row>, t: Thread, before: seq<Step>, after: seq<Step>, n: Nid, result: Result) {
    && Handled(db, t, before, after, n, result)
    && Did(before, after, Act(t, SaveResult)) && Was(db, before, after, n, StatusOf(result))
  }

  lemma HandledLater(db: map<Nid, Row>, t: Thread, a: seq<Step>, b: seq<Step>, c: seq<Step>, d: seq<Step>, n: Nid,
                     result: Result)
    requires a <= b && c <= d && Handled(db, t, b, c, n, result)
    requires Starts(t, b) == Starts(t, a) && Starts(t, d) == Starts(t, c)
    ensures Handled(db, t, a, d, n, result)
  {
    DidLater(a, b, c, d, Act(t, SaveRunning));
    DidLater(a, b, c, d, Act(t, HandlerReturns(result)));
    WasLater(db, a, b, c, d, n, RUNNING);
  }

  lemma RecoveredLater(db: map<Nid, Row>, t: Thread, a: seq<Step>, b: seq<Step>, c: seq<Step>, d: seq<Step>, n: Nid,
                       result: Result)
    requires a <= b && c <= d && Recovered(db, t, b, c, n, result)
    requires Starts(t, b) == Starts(t, a) && Starts(t, d) == Starts(t, c)
    ensures Recovered(db, t, a, d, n, result)
  {
    HandledLater(db, t, a, b, c, d, n, result);
    DidLater(a, b, c, d, Act(t, SaveResult));
    WasLater(db, a, b, c, d, n, StatusOf(result));
  }

  /**
   * What processing leaves in the history: a copy is skipped, and no handler started, because it is
   * NEW and the row that was read is not; otherwise the guard was passed and the notification recovered.
   */
  ghost predicate Explained(db: map<Nid, Row>, t: Thread, before: seq<Step>, after: seq<Step>, copy: Copy, r: Processed) {
    match r
    case Skipped(seen) =>
      copy.status.NEW? && !seen.NEW? && Was(db, before, after, copy.n, seen) && Starts(t, after) == Starts(t, before)
    case Ran(result) =>
      (copy.status.NEW? ==> Was(db, before, after, copy.n, NEW)) && Recovered(db, t, before, after, copy.n, result)
    case _ => false
  }

  lemma ExplainedLater(db: map<Nid, Row>, t: Thread, a: seq<Step>, b: seq<Step>, c: seq<Step>, copy: Copy, r: Processed)
    requires a <= b && Explained(db, t, b, c, copy, r) && Starts(t, b) == Starts(t, a)
    ensures Explained(db, t, a, c, copy, r)
  {
    match r
    case Skipped(seen) => WasLater(db, a, b, c, c, copy.n, seen);
    case Ran(result) =>
      WasLater(db, a, b, c, c, copy.n, NEW);
      RecoveredLater(db, t, a, b, c, c, copy.n, result);
    case _ =>
  }

  /** What step k of the history did to the database: it wrote this row as FAILED, or nothing. */
  ghost predicate Expires(db: map<Nid, Row>, history: seq<Step>, k: nat, n: Nid, late: bool) {
    && k < |history| && Exec(Init(db), history[..k]).Reached? && Exec(Init(db), history[..k + 1]).Reached?
    && var a, b := Exec(Init(db), history[..k]).state, Exec(Init(db), history[..k + 1]).state;
       n in a.db && b.db == if late then a.db[n := Row(FAILED, a.db[n].host)] else a.db
  }

  lemma ExpiresLater(db: map<Nid, Row>, a: seq<Step>, b: seq<Step>, k: nat, n: Nid, late: bool)
    requires a <= b && Expires(db, a, k, n, late)
    ensures Expires(db, b, k, n, late)
  {
    assert b[..k] == a[..k] && b[..k + 1] == a[..k + 1];
  }

  /** Nobody else does anything: every batch is empty. */
  predicate Quiet(schedule: seq<seq<Step>>) {
    forall k :: 0 <= k < |schedule| ==> schedule[k] == []
  }

  /** The others' part of a history has no step of the thread. */
  ghost predicate NoneOwn(t: Thread, before: seq<Step>, after: seq<Step>) {
    forall k :: |before| <= k < |after| ==> !StepOf(t, after[k])
  }

  /** From one state to the other only this row was written. */
  ghost predicate OnlyRow(a: State, b: State, n: Nid, status: Status) {
    n in a.db && b.db == a.db[n := Row(status, a.db[n].host)]
  }

  /** Nobody interferes: the lock is taken if it is free. */
  ghost predicate LockedAlone(t: Thread, a: State, b: State, taken: bool) {
    && PcOf(a, t).Entering? && PcOf(a, t).copy.n in a.db && b.db == a.db
    && var host := a.db[PcOf(a, t).copy.n].host;
       && (taken <==> host !in a.locks) && b.locks == if taken then a.locks[host := t] else a.locks
  }

  /** Nobody interferes: a NEW copy of a row that has left NEW is skipped, and else the handler's result is saved. */
  ghost predicate HeldAlone(a: State, b: State, copy: Copy, r: Processed) {
    && (r.Skipped? <==> copy.status.NEW? && !Is(a, copy.n, NEW))
    && if r.Ran? then OnlyRow(a, b, copy.n, StatusOf(r.result)) else b.db == a.db
  }

  /** Nobody interferes: a row in ERROR is saved as FAILED, any other is left alone. */
  ghost predicate GivenUpAlone(a: State, b: State, n: Nid) {
    b.locks == a.locks && if Is(a, n, ERROR) then OnlyRow(a, b, n, FAILED) else b.db == a.db
  }

  /** The status of a listed row once its item is done, if nobody interferes: never ERROR. */
  function SettledAs(copy: Copy, status: Status, late: bool, result: Result): (r: Status)
    ensures !r.ERROR?
  {
    var left := LeftBy(copy, status, late, result);
    if left.ERROR? then FAILED else left
  }

  /** The status of the row before it is read again. */
  function LeftBy(copy: Copy, status: Status, late: bool, result: Result): Status {
    if (copy.status.ERROR? || (copy.status.NEW? && late)) && (copy.status.NEW? ==> status.NEW?) then StatusOf(result)
    else status
  }

  ghost predicate LeftAlone(a: State, b: State, copy: Copy, late: bool, result: Result) {
    b.locks == map[] && copy.n in a.db && OnlyRow(a, b, copy.n, LeftBy(copy, a.db[copy.n].status, late, result))
  }

  lemma ProcessedIsSettled(a: State, b: State, copy: Copy, late: bool, r: Processed, result: Result)
    requires a.locks == map[] && ProcessedAlone(a, b, copy, r) && (r.Ran? ==> r.result == result)
    requires copy.status.ERROR? || (copy.status.NEW? && late)
    ensures !r.Blocked? && LeftAlone(a, b, copy, late, result)
  {
    assert copy.n in a.db && a.db[copy.n := a.db[copy.n]] == a.db;
  }

  lemma GivenUpIsSettled(a: State, b: State, c: State, copy: Copy, late: bool, result: Result)
    requires a.locks == map[] && copy.n in a.db && GivenUpAlone(b, c, copy.n)
    requires LeftAlone(a, b, copy, late, result) || (b == a && !copy.status.ERROR? && !(copy.status.NEW? && late))
    ensures RetriedAlone(a, c, copy, late, result)
  {
    assert a.db[copy.n := a.db[copy.n]] == a.db;
  }

  ghost predicate RetriedAlone(a: State, b: State, copy: Copy, late: bool, result: Result) {
    b.locks == map[] && copy.n in a.db && OnlyRow(a, b, copy.n, SettledAs(copy, a.db[copy.n].status, late, result))
  }

  /** Nobody interferes: an overdue row is saved as FAILED, any other is left alone. */
  ghost predicate ExpiredAlone(a: State, b: State, n: Nid, late: bool) {
    if late then OnlyRow(a, b, n, FAILED) else b.db == a.db
  }

  predicate ExpiredBy(a: map<Nid, Row>, b: State, copy: Copy, late: bool) {
    copy.n in a && copy.n in b.db && b.db[copy.n] == Row(if late then FAILED else copy.status, a[copy.n].host)
  }

  lemma ExpiredNext(a: map<Nid, Row>, b: State, c: State, listed: seq<Copy>, done: nat, late: bool)
    requires TrueCopies(a, listed) && done < |listed| && OthersSame(a, b, listed, done)
    requires ExpiredAlone(b, c, listed[done].n, late)
    ensures ExpiredBy(a, c, listed[done], late)
    ensures c.db.Keys == b.db.Keys && forall m :: m in b.db && m != listed[done].n ==> c.db[m] == b.db[m]
  {
    var copy := listed[done];
    assert TrueCopy(a, copy);
    assert copy.n in b.db && b.db[copy.n] == a[copy.n] by { assert NotAmong(listed[..done], copy.n); }
    if late { KeysKept(b, c, copy.n); }
  }

  /** Nobody interferes: a row in RUNNING is saved as ERROR, any other is left alone. */
  ghost predicate MarkedAlone(a: State, b: State, n: Nid) {
    if Is(a, n, RUNNING) then OnlyRow(a, b, n, ERROR) else b.db == a.db
  }

  /** Nobody interferes: just the rows of the list that were RUNNING are in ERROR. */
  ghost predicate StaleAlone(a: State, b: State, ids: seq<Nid>) {
    && b.db.Keys == a.db.Keys
    && forall n :: n in a.db ==>
                     b.db[n] == Row(if n in ids && a.db[n].status.RUNNING? then ERROR else a.db[n].status, a.db[n].host)
  }

  lemma OneMoreStale(a: State, b: State, c: State, ids: seq<Nid>, done: nat)
    requires done < |ids| && StaleAlone(a, b, ids[..done]) && MarkedAlone(b, c, ids[done])
    ensures StaleAlone(a, c, ids[..done + 1])
  {
    assert ids[..done + 1] == ids[..done] + [ids[done]];
    if Is(b, ids[done], RUNNING) { KeysKept(b, c, ids[done]); }
  }

  /** What _process_notification does if nobody interferes. */
  ghost predicate ProcessedAlone(a: State, b: State, copy: Copy, r: Processed) {
    && copy.n in a.db && b.locks == a.locks && !r.SegmentDisabled?
    && (r.Blocked? <==> a.db[copy.n].host in a.locks)
    && (r.Skipped? <==> a.db[copy.n].host !in a.locks && copy.status.NEW? && !Is(a, copy.n, NEW))
    && if r.Ran? then OnlyRow(a, b, copy.n, StatusOf(r.result)) else b.db == a.db
  }

  class Process {
    const handler: nat -> Result       // what the recovery handlers return, call by call
    const overdue: nat -> bool         // what the age checks say
    const first: map<Nid, Row>         // the rows the process found
    var now: State
    var schedule: seq<seq<Step>>       // the others: one batch of steps before each call
    var calls: nat
    ghost var history: seq<Step>

    ghost predicate Valid()
      reads this
    {
      RunTo(first, history, now)
    }

    constructor (handler: nat -> Result, overdue: nat -> bool, first: map<Nid, Row>, schedule: seq<seq<Step>>)
      ensures Valid() && this.first == first && now == Init(first) && this.schedule == schedule
    {
      this.handler, this.overdue, this.first := handler, overdue, first;
      this.now, this.schedule, this.calls, this.history := Init(first), schedule, 0, [];
    }

    method Perform(step: Step)
      requires Valid() && Enabled(now, step)
      modifies `now, `history
      ensures Valid() && now == Apply(old(now), step) && history == old(history) + [step]
    {
      ExecAppend(Init(first), history, [step]);
      assert [step][1..] == [];
      now := Apply(now, step);
      history := history + [step];
    }

    /** One batch of steps that are not the thread's own; those not enabled do not happen. */
    method Others(t: Thread)
      requires Valid()
      modifies `now, `schedule, `history
      ensures Valid() && Undisturbed(t, old(now), now) && old(history) <= history
      ensures Starts(t, history) == Starts(t, old(history))
      ensures |schedule| < old(|schedule|) || schedule == old(schedule) == []
      ensures NoneOwn(t, old(history), history)
      ensures Quiet(old(schedule)) ==> Quiet(schedule) && now == old(now) && history == old(history)
    {
      if schedule == [] { return; }
      var batch := schedule[0];
      schedule := schedule[1..];
      for k := 0 to |batch|
        invariant Valid() && Undisturbed(t, old(now), now) && schedule == old(schedule)[1..]
        invariant old(history) <= history && Starts(t, history) == Starts(t, old(history))
        invariant NoneOwn(t, old(history), history)
        invariant Quiet(old(schedule)) ==> now == old(now) && history == old(history)
      {
        if !StepOf(t, batch[k]) && Enabled(now, batch[k]) {
          OtherStep(t, now, batch[k]);
          OneMoreStep(t, history, batch[k]);
          Perform(batch[k]);
        }
      }
    }

    /** The others run, then the thread makes its next call; at is the state it finds. */
    method Call(t: Thread, action: Action) returns (ghost at: State)
      requires Valid() && Ready(PcOf(now, t), action) && Subject(PcOf(now, t)) in now.db
      modifies `now, `schedule, `history
      ensures Valid() && old(history) < history && |schedule| <= old(|schedule|)
      ensures Undisturbed(t, old(now), at) && Enabled(at, Act(t, action)) && now == Apply(at, Act(t, action))
      ensures PcOf(now, t) == NextPc(at, PcOf(at, t), action) && now.db == NextDb(at, PcOf(at, t), action)
      ensures Kept(t, old(now), now) && history[|history| - 1] == Act(t, action)
      ensures Starts(t, history) == Starts(t, old(history)) + if action.SaveRunning? then 1 else 0
      ensures Quiet(old(schedule)) ==> Quiet(schedule) && at == old(now)
    {
      Others(t);
      at := now;
      OneMoreStep(t, history, Act(t, action));
      Perform(Act(t, action));
    }

    /** The others run, and the lock is taken if it is free then. */
    method TryLock(t: Thread) returns (taken: bool)
      requires Valid() && PcOf(now, t).Entering? && PcOf(now, t).copy.n in now.db
      modifies `now, `schedule, `history
      ensures Valid() && old(history) <= history && Kept(t, old(now), now)
      ensures |schedule| < old(|schedule|) || schedule == old(schedule) == []
      ensures PcOf(now, t) == if taken then HoldingLock(PcOf(old(now), t).copy) else PcOf(old(now), t)
      ensures Starts(t, history) == Starts(t, old(history))
      ensures Quiet(old(schedule)) ==> Quiet(schedule) && LockedAlone(t, old(now), now, taken)
    {
      Others(t);
      taken := now.db[PcOf(now, t).copy.n].host !in now.locks;
      if taken {
        OneMoreStep(t, history, Act(t, TakeLock));
        Perform(Act(t, TakeLock));
      }
    }

    /** The lock of the source host, waiting for it as long as the schedule goes on. */
    method Lock(t: Thread) returns (taken: bool)
      requires Valid() && PcOf(now, t).Entering? && PcOf(now, t).copy.n in now.db
      modifies `now, `schedule, `history
      ensures Valid() && old(history) <= history && Kept(t, old(now), now) && |schedule| <= old(|schedule|)
      ensures PcOf(now, t) == if taken then HoldingLock(PcOf(old(now), t).copy) else PcOf(old(now), t)
      ensures (!taken ==> schedule == []) && Starts(t, history) == Starts(t, old(history))
      ensures Quiet(old(schedule)) ==> Quiet(schedule) && LockedAlone(t, old(now), now, taken)
    {
      taken := TryLock(t);
      while !taken && schedule != []
        invariant Valid() && old(history) <= history && Kept(t, old(now), now) && |schedule| <= old(|schedule|)
        invariant PcOf(now, t) == if taken then HoldingLock(PcOf(old(now), t).copy) else PcOf(old(now), t)
        invariant Starts(t, history) == Starts(t, old(history))
        invariant Quiet(old(schedule)) ==> Quiet(schedule) && LockedAlone(t, old(now), now, taken)
        decreases |schedule|
      {
        taken := TryLock(t);
      }
    }

    /** RUNNING is saved, and the handler runs once. */
    method Handle(t: Thread) returns (result: Result)
      requires Valid() && PcOf(now, t).Cleared? && PcOf(now, t).copy.n in now.db
      modifies this
      ensures Valid() && old(history) < history && Kept(t, old(now), now) && |schedule| <= old(|schedule|)
      ensures PcOf(now, t) == Finishing(PcOf(old(now), t).copy, result)
      ensures Handled(first, t, old(history), history, PcOf(old(now), t).copy.n, result)
      ensures result == handler(old(calls)) && calls == old(calls) + 1
      ensures Quiet(old(schedule)) ==>
                Quiet(schedule) && now.locks == old(now).locks && OnlyRow(old(now), now, PcOf(old(now), t).copy.n, RUNNING)
    {
      ghost var n := PcOf(now, t).copy.n;
      ghost var at := Call(t, SaveRunning);
      ghost var saved := history;
      IsNow(first, old(history), saved, now, n, RUNNING);
      assert Did(old(history), saved, Act(t, SaveRunning));
      result := handler(calls);
      calls := calls + 1;
      at := Call(t, HandlerReturns(result));
      WasLater(first, old(history), old(history), saved, history, n, RUNNING);
      DidLater(old(history), old(history), saved, history, Act(t, SaveRunning));
    }

    /** do_process_notification after its guard: the handler runs once and its result is saved. */
    method Recover(t: Thread) returns (result: Result)
      requires Valid() && PcOf(now, t).Cleared? && PcOf(now, t).copy.n in now.db
      modifies this
      ensures Valid() && old(history) < history && Kept(t, old(now), now) && |schedule| <= old(|schedule|)
      ensures PcOf(now, t) == Unlocking(PcOf(old(now), t).copy.n)
      ensures Recovered(first, t, old(history), history, PcOf(old(now), t).copy.n, result)
      ensures result == handler(old(calls)) && calls == old(calls) + 1
      ensures Quiet(old(schedule)) ==>
                Quiet(schedule) && now.locks == old(now).locks && OnlyRow(old(now), now, PcOf(old(now), t).copy.n, StatusOf(result))
    {
      ghost var n := PcOf(now, t).copy.n;
      result := Handle(t);
      ghost var handled := history;
      ghost var at := Call(t, SaveResult);
      IsNow(first, old(history), history, now, n, StatusOf(result));
      HandledLater(first, t, old(history), old(history), handled, history, n, result);
    }

    /** The recovery and the release of the lock. */
    method RecoverAndUnlock(t: Thread) returns (result: Result)
      requires Valid() && PcOf(now, t).Cleared? && PcOf(now, t).copy.n in now.db
      modifies this
      ensures Valid() && old(history) < history && Kept(t, old(now), now) && |schedule| <= old(|schedule|)
      ensures PcOf(now, t) == Released(PcOf(old(now), t).copy.n)
      ensures Recovered(first, t, old(history), history, PcOf(old(now), t).copy.n, result)
      ensures result == handler(old(calls)) && calls == old(calls) + 1
      ensures Quiet(old(schedule)) ==>
                && Quiet(schedule) && now.locks == old(now).locks - {old(now).db[PcOf(old(now), t).copy.n].host}
                && OnlyRow(old(now), now, PcOf(old(now), t).copy.n, StatusOf(result))
    {
      ghost var n := PcOf(now, t).copy.n;
      result := Recover(t);
      ghost var saved := history;
      ghost var at := Call(t, Unlock);
      RecoveredLater(first, t, old(history), old(history), saved, history, n, result);
    }

    /** do_process_notification, with the lock in hand. */
    method ProcessHeld(t: Thread) returns (r: Processed)
      requires Valid() && PcOf(now, t).HoldingLock? && PcOf(now, t).copy.n in now.db
      modifies this
      ensures Valid() && old(history) <= history && Kept(t, old(now), now) && |schedule| <= old(|schedule|)
      ensures PcOf(now, t) == Released(PcOf(old(now), t).copy.n)
      ensures Explained(first, t, old(history), history, PcOf(old(now), t).copy, r)
      ensures if r.Ran? then r.result == handler(old(calls)) && calls == old(calls) + 1 else calls == old(calls)
      ensures Quiet(old(schedule)) ==>
                && Quiet(schedule) && now.locks == old(now).locks - {old(now).db[PcOf(old(now), t).copy.n].host}
                && HeldAlone(old(now), now, PcOf(old(now), t).copy, r)
    {
      ghost var copy := PcOf(now, t).copy;
      var cleared, seen := Guard(t);
      ghost var read := history;
      IsNow(first, old(history), history, now, copy.n, seen);
      if cleared {
        var result := RecoverAndUnlock(t);
        r := Ran(result);
        RecoveredLater(first, t, old(history), read, history, history, copy.n, result);
      } else {
        ghost var at := Call(t, Unlock);
        r := Skipped(seen);
      }
      WasLater(first, old(history), old(history), read, history, copy.n, seen);
    }

    /**
     * _process_notification.  A NEW copy is skipped exactly when the row read under the lock has
     * left NEW; otherwise RUNNING is saved, the handler runs once and its result is saved.  The
     * lock is released on both ways.
     */
    method ProcessLocked(t: Thread) returns (r: Processed)
      requires Valid() && PcOf(now, t).Entering? && PcOf(now, t).copy.n in now.db
      modifies this
      ensures Valid() && old(history) <= history && Kept(t, old(now), now) && |schedule| <= old(|schedule|)
      ensures if r.Blocked? then PcOf(now, t) == PcOf(old(now), t) && schedule == []
              else && PcOf(now, t) == Released(PcOf(old(now), t).copy.n)
                   && Explained(first, t, old(history), history, PcOf(old(now), t).copy, r)
      ensures r.Blocked? ==> Starts(t, history) == Starts(t, old(history))
      ensures if r.Ran? then r.result == handler(old(calls)) && calls == old(calls) + 1 else calls == old(calls)
      ensures Quiet(old(schedule)) ==> Quiet(schedule) && ProcessedAlone(old(now), now, PcOf(old(now), t).copy, r)
    {
      var taken := Lock(t);
      if !taken { return Blocked; }
      ghost var copy, locked := PcOf(now, t).copy, history;
      r := ProcessHeld(t);
      ExplainedLater(first, t, old(history), locked, history, copy, r);
    }

    /** The row is read again; seen is its status then. */
    method Guard(t: Thread) returns (cleared: bool, seen: Status)
      requires Valid() && PcOf(now, t).HoldingLock? && PcOf(now, t).copy.n in now.db
      modifies `now, `schedule, `history
      ensures Valid() && old(history) < history && Kept(t, old(now), now) && |schedule| <= old(|schedule|)
      ensures var copy := PcOf(old(now), t).copy;
              && Is(now, copy.n, seen) && (cleared <==> !copy.status.NEW? || seen.NEW?)
              && PcOf(now, t) == if cleared then Cleared(copy) else Unlocking(copy.n)
      ensures Starts(t, history) == Starts(t, old(history))
      ensures Quiet(old(schedule)) ==> Quiet(schedule) && now.db == old(now).db && now.locks == old(now).locks
    {
      Others(t);
      var copy := PcOf(now, t).copy;
      seen := now.db[copy.n].status;
      cleared := !copy.status.NEW? || seen.NEW?;
      OneMoreStep(t, history, Act(t, ReadRow));
      Perform(Act(t, ReadRow));
    }

    /** The notification of a disabled segment. */
    method Ignore(w: Wid, n: Nid)
      requires Valid() && w !in now.rpc && n in now.db
      modifies `now, `schedule, `history
      ensures Valid() && old(history) < history && Is(now, n, IGNORED) && PcOf(now, Rpc(w)).Idle?
      ensures Starts(Rpc(w), history) == Starts(Rpc(w), old(history))
      ensures Quiet(old(schedule)) ==> OnlyRow(old(now), now, n, IGNORED)
    {
      OneMoreStep(Rpc(w), history, Deliver(w, n, false));
      Perform(Deliver(w, n, false));
      Others(Rpc(w));
      assert PcOf(now, Rpc(w)) == Disabling(n);
      OneMoreStep(Rpc(w), history, SaveIgnored(w));
      Perform(SaveIgnored(w));
    }

    /** process_notification, for a delivered copy; the notification of a disabled segment is ignored. */
    method ProcessNotification(w: Wid, n: Nid, segmentEnabled: bool) returns (r: Processed)
      requires Valid() && w !in now.rpc && n in now.db
      modifies this
      ensures Valid() && old(history) < history
      ensures segmentEnabled ==>
                if r.Blocked? then PcOf(now, Rpc(w)) == Entering(Copy(n, NEW)) && schedule == []
                else PcOf(now, Rpc(w)) == Released(n) && Explained(first, Rpc(w), old(history), history, Copy(n, NEW), r)
      ensures !segmentEnabled ==> r == SegmentDisabled && Is(now, n, IGNORED) && PcOf(now, Rpc(w)).Idle?
      ensures !r.Ran? ==> Starts(Rpc(w), history) == Starts(Rpc(w), old(history)) && calls == old(calls)
      ensures Quiet(old(schedule)) && segmentEnabled ==> ProcessedAlone(old(now), now, Copy(n, NEW), r)
      ensures Quiet(old(schedule)) && !segmentEnabled ==> OnlyRow(old(now), now, n, IGNORED)
    {
      if !segmentEnabled {
        Ignore(w, n);
        return SegmentDisabled;
      }
      OneMoreStep(Rpc(w), history, Deliver(w, n, true));
      Perform(Deliver(w, n, true));
      ghost var delivered := history;
      r := ProcessLocked(Rpc(w));
      if !r.Blocked? { ExplainedLater(first, Rpc(w), old(history), delivered, history, Copy(n, NEW), r); }
    }

    // -------------------------------------------------------------- the periodic thread

    /** NotificationList.get_all with a status filter: one copy of each row that passes. */
    method ListByStatus(filter: set<Status>) returns (todo: seq<Copy>)
      ensures AllWith(now.db, todo, filter)
    {
      todo := [];
      var rest := now.db.Keys;
      while rest != {}
        invariant rest <= now.db.Keys && DistinctCopies(todo)
        invariant forall i :: 0 <= i < |todo| ==>
                    todo[i].n !in rest && TrueCopy(now.db, todo[i]) && todo[i].status in filter
        invariant forall n :: n !in rest && Listed(now.db, n, filter) ==> exists i :: 0 <= i < |todo| && todo[i].n == n
      {
        var n :| n in rest;
        rest := rest - {n};
        if now.db[n].status in filter {
          ghost var before := todo;
          todo := todo + [Copy(n, now.db[n].status)];
          forall m | m !in rest && Listed(now.db, m, filter) ensures exists i :: 0 <= i < |todo| && todo[i].n == m {
            if m == n {
              assert todo[|before|].n == m;
            } else {
              var i :| 0 <= i < |before| && before[i].n == m;
              assert todo[i].n == m;
            }
          }
        }
      }
    }

    /**
     * The end of an iteration: the row is read again, at step read in the state seen, and given up
     * exactly if it is in ERROR then.
     */
    method GiveUp() returns (ghost read: nat, ghost seen: State)
      requires Valid() && now.periodic.Released? && now.periodic.n in now.db
      modifies `now, `schedule, `history
      ensures Valid() && old(history) < history && now.periodic.Idle? && Kept(Periodic, old(now), now)
      ensures |schedule| <= old(|schedule|)
      ensures |old(history)| <= read < |history| && history[read] == Recheck && RunTo(first, history[..read], seen)
      ensures history[|history| - 1] == SaveFailed <==> Is(seen, old(now).periodic.n, ERROR)
      ensures Is(seen, old(now).periodic.n, ERROR) ==> Is(now, old(now).periodic.n, FAILED)
      ensures Quiet(old(schedule)) ==> Quiet(schedule) && GivenUpAlone(old(now), now, old(now).periodic.n)
    {
      Others(Periodic);
      assert PcOf(now, Periodic) == now.periodic;
      read, seen := |history|, now;
      ghost var before := history;
      Perform(Recheck);
      assert history[..read] == before;
      if now.periodic.MarkingFailed? {
        ghost var marked := history;
        Others(Periodic);
        assert PcOf(now, Periodic) == now.periodic;
        Perform(SaveFailed);
        assert marked <= history && history[..read] == before;
      }
    }

    /** The next listed row is taken up, or passed over because it is NEW and not yet old. */
    method TakeUp()
      requires Valid() && now.task.Unfinished? && now.task.todo != [] && now.periodic.Idle?
      requires now.task.todo[0].n in now.db
      modifies this
      ensures Valid() && old(history) < history && |schedule| <= old(|schedule|)
      ensures (forall n :: n in old(now).db ==> n in now.db) && now.task == Unfinished(old(now).task.todo[1..])
      ensures var c := old(now).task.todo[0];
              now.periodic == if c.status.ERROR? || (c.status.NEW? && overdue(old(calls))) then Entering(c) else Released(c.n)
      ensures calls == old(calls) + 1
      ensures Quiet(old(schedule)) ==> Quiet(schedule) && now.db == old(now).db && now.locks == old(now).locks
    {
      Others(Periodic);
      assert PcOf(now, Periodic) == now.periodic;
      var late := overdue(calls);
      calls := calls + 1;
      Perform(NextUnfinished(late));
    }

    /** One item of _process_unfinished_notifications. */
    method Retry() returns (blocked: bool)
      requires Valid() && now.task.Unfinished? && now.task.todo != [] && now.periodic.Idle?
      requires now.task.todo[0].n in now.db
      modifies this
      ensures Valid() && old(history) < history
      ensures forall n :: n in old(now).db ==> n in now.db
      ensures if blocked then schedule == [] else now.periodic.Idle? && now.task == Unfinished(old(now).task.todo[1..])
      ensures calls > old(calls)
      ensures Quiet(old(schedule)) && old(now).locks == map[] ==>
                && !blocked && Quiet(schedule)
                && RetriedAlone(old(now), now, old(now).task.todo[0], overdue(old(calls)), handler(old(calls) + 1))
    {
      ghost var copy, late, result := now.task.todo[0], overdue(calls), handler(calls + 1);
      TakeUp();
      ghost var taken := now;
      if now.periodic.Entering? {
        assert PcOf(now, Periodic) == now.periodic;
        var r := ProcessLocked(Periodic);
        assert PcOf(now, Periodic) == now.periodic;
        if Quiet(old(schedule)) && old(now).locks == map[] { ProcessedIsSettled(taken, now, copy, late, r, result); }
        if r.Blocked? { return true; }
      }
      ghost var processed := now;
      ghost var read, seen := GiveUp();
      if Quiet(old(schedule)) && old(now).locks == map[] {
        GivenUpIsSettled(taken, processed, now, copy, late, result);
      }
      return false;
    }

    /** The first rows of the list are settled by the calls of their turns, the others as they were. */
    ghost predicate SettledSoFar(a: map<Nid, Row>, b: State, listed: seq<Copy>, turns: seq<nat>) {
      && |turns| <= |listed| && b.locks == map[] && b.db.Keys == a.Keys
      && (forall i, j :: 0 <= i < j < |turns| ==> turns[i] < turns[j])
      && (forall i :: 0 <= i < |turns| ==> SettledBy(a, b, listed[i], turns[i]))
      && OthersSame(a, b, listed, |turns|)
    }

    predicate SettledBy(a: map<Nid, Row>, b: State, copy: Copy, turn: nat) {
      && copy.n in a && copy.n in b.db
      && b.db[copy.n] == Row(SettledAs(copy, copy.status, overdue(turn), handler(turn + 1)), a[copy.n].host)
    }

    lemma OneMoreSettled(a: map<Nid, Row>, b: State, c: State, listed: seq<Copy>, turns: seq<nat>, turn: nat)
      requires TrueCopies(a, listed) && |turns| < |listed| && SettledSoFar(a, b, listed, turns)
      requires RetriedAlone(b, c, listed[|turns|], overdue(turn), handler(turn + 1))
      requires forall i :: 0 <= i < |turns| ==> turns[i] < turn
      ensures SettledSoFar(a, c, listed, turns + [turn])
    {
      var copy := listed[|turns|];
      SettledNext(a, b, c, listed, |turns|, turn);
      EarlierKept(a, b, c, listed, turns);
      OthersKept(a, b, c, listed, |turns|);
    }

    lemma SettledNext(a: map<Nid, Row>, b: State, c: State, listed: seq<Copy>, done: nat, turn: nat)
      requires TrueCopies(a, listed) && done < |listed| && OthersSame(a, b, listed, done)
      requires RetriedAlone(b, c, listed[done], overdue(turn), handler(turn + 1))
      ensures SettledBy(a, c, listed[done], turn)
      ensures c.db.Keys == b.db.Keys && forall m :: m in b.db && m != listed[done].n ==> c.db[m] == b.db[m]
    {
      var copy := listed[done];
      assert TrueCopy(a, copy);
      assert b.db[copy.n] == a[copy.n] by { assert NotAmong(listed[..done], copy.n); }
      KeysKept(b, c, copy.n);
    }

    lemma EarlierKept(a: map<Nid, Row>, b: State, c: State, listed: seq<Copy>, turns: seq<nat>)
      requires DistinctCopies(listed) && |turns| < |listed|
      requires forall i :: 0 <= i < |turns| ==> SettledBy(a, b, listed[i], turns[i])
      requires c.db.Keys == b.db.Keys && forall m :: m in b.db && m != listed[|turns|].n ==> c.db[m] == b.db[m]
      ensures forall i :: 0 <= i < |turns| ==> SettledBy(a, c, listed[i], turns[i])
    {
      forall i | 0 <= i < |turns| ensures SettledBy(a, c, listed[i], turns[i]) {
        assert SettledBy(a, b, listed[i], turns[i]) && listed[i].n != listed[|turns|].n;
      }
    }

    /**
     * _process_unfinished_notifications: all rows in ERROR or NEW are listed, and the task ends
     * with every one of them gone through, unless some lock never gets free.  With nobody else about
     * and no lock taken it is not blocked, every listed row ends as its handler says, FAILED if that
     * is ERROR again, or stays NEW while it is young, and no other row is written.
     */
    method ProcessUnfinished() returns (blocked: bool, ghost listed: seq<Copy>, ghost last: State, ghost turns: seq<nat>)
      requires Valid() && now.periodic.Idle? && now.task.NoTask?
      modifies this
      ensures Valid() && AllWith(old(now).db, listed, {ERROR, NEW}) && old(history) + [ListUnfinished(listed)] <= history
      ensures if blocked then schedule == [] else now.periodic.Idle? && now.task.NoTask?
      ensures !blocked ==> last.task == Unfinished([]) && last.periodic.Idle? && now == Apply(last, EndTask)
      ensures Quiet(old(schedule)) && old(now).locks == map[] ==>
                !blocked && |turns| == |listed| && SettledSoFar(old(now).db, now, listed, turns)
    {
      var todo := ListByStatus({ERROR, NEW});
      listed := todo;
      Perform(ListUnfinished(todo));
      blocked, turns := RetryAll(listed);
      last := now;
      if !blocked { Perform(EndTask); }
    }

    lemma RetryBegins(s: State, listed: seq<Copy>)
      requires TrueCopies(s.db, listed)
      ensures AllRows(listed, s) && (s.locks == map[] ==> SettledSoFar(s.db, s, listed, []))
    {
      forall i | 0 <= i < |listed| ensures listed[i].n in s.db {
        assert TrueCopy(s.db, listed[i]);
      }
    }

    method RetryAll(ghost listed: seq<Copy>) returns (blocked: bool, ghost turns: seq<nat>)
      requires Valid() && now.periodic.Idle? && now.task == Unfinished(listed) && TrueCopies(now.db, listed)
      modifies this
      ensures Valid() && old(history) <= history
      ensures if blocked then schedule == [] else now.periodic.Idle? && now.task == Unfinished([])
      ensures Quiet(old(schedule)) && old(now).locks == map[] ==>
                !blocked && |turns| == |listed| && SettledSoFar(old(now).db, now, listed, turns)
    {
      turns := [];
      RetryBegins(now, listed);
      while now.task.todo != []
        invariant Valid() && old(history) <= history && now.periodic.Idle? && now.task.Unfinished?
        invariant |turns| <= |listed| && now.task.todo == listed[|turns|..] && AllRows(listed, now)
        invariant forall i :: 0 <= i < |turns| ==> turns[i] < calls
        invariant Quiet(old(schedule)) && old(now).locks == map[] ==>
                    Quiet(schedule) && SettledSoFar(old(now).db, now, listed, turns)
        decreases |now.task.todo|
      {
        ghost var before, turn := now, calls;
        blocked := Retry();
        if Quiet(old(schedule)) && old(now).locks == map[] {
          OneMoreSettled(old(now).db, before, now, listed, turns, turn);
        }
        if blocked { return; }
        turns := turns + [turn];
      }
      blocked := false;
    }

    ghost predicate AllRows(listed: seq<Copy>, s: State) {
      forall i :: 0 <= i < |listed| ==> listed[i].n in s.db
    }

    /**
     * Between a and b the thread made these steps and no others, in this order: step marks[i] wrote
     * FAILED to the i-th listed row if that was overdue, and nothing if it was not.
     */
    ghost predicate Marked(a: seq<Step>, b: seq<Step>, listed: seq<Copy>, marks: seq<nat>, calls0: nat) {
      && |marks| <= |listed| && (forall i, j :: 0 <= i < j < |marks| ==> marks[i] < marks[j])
      && (forall i :: 0 <= i < |marks| ==> |a| <= marks[i] && MarkAt(b, listed, marks, i, calls0))
      && (forall k :: |a| <= k < |b| && StepOf(Periodic, b[k]) ==> k in marks)
    }

    ghost predicate MarkAt(b: seq<Step>, listed: seq<Copy>, marks: seq<nat>, i: nat, calls0: nat)
      requires i < |marks| <= |listed|
    {
      Expires(first, b, marks[i], listed[i].n, overdue(calls0 + i))
    }

    lemma OneMoreMark(a: seq<Step>, b: seq<Step>, c: seq<Step>, listed: seq<Copy>, marks: seq<nat>, calls0: nat)
      requires a <= b < c && Marked(a, b, listed, marks, calls0) && |marks| < |listed|
      requires NoneOwn(Periodic, b, c[..|c| - 1])
      requires Expires(first, c, |c| - 1, listed[|marks|].n, overdue(calls0 + |marks|))
      ensures Marked(a, c, listed, marks + [|c| - 1], calls0)
    {
      var more := marks + [|c| - 1];
      forall i | 0 <= i < |more| ensures |a| <= more[i] && MarkAt(c, listed, more, i, calls0) {
        if i < |marks| {
          assert MarkAt(b, listed, marks, i, calls0);
          ExpiresLater(first, b, c, marks[i], listed[i].n, overdue(calls0 + i));
        }
      }
      assert forall k :: |b| <= k < |c| - 1 ==> c[k] == c[..|c| - 1][k];
      forall k | |a| <= k < |c| && StepOf(Periodic, c[k]) ensures k in more {
        if k < |b| {
          assert c[k] == b[k] && k in marks;
        } else {
          assert more[|marks|] == k;
        }
      }
      forall i, j | 0 <= i < j < |more| ensures more[i] < more[j] {
        assert MarkAt(b, listed, marks, i, calls0);
      }
    }

    /** Nobody interferes: the first of the listed rows are FAILED if overdue and else as listed. */
    ghost predicate ExpiredSoFar(a: map<Nid, Row>, b: State, listed: seq<Copy>, done: nat, calls0: nat) {
      && done <= |listed| && b.db.Keys == a.Keys && OthersSame(a, b, listed, done)
      && forall i :: 0 <= i < done ==> ExpiredBy(a, b, listed[i], overdue(calls0 + i))
    }

    lemma OneMoreExpired(a: map<Nid, Row>, b: State, c: State, listed: seq<Copy>, done: nat, calls0: nat)
      requires TrueCopies(a, listed) && done < |listed| && ExpiredSoFar(a, b, listed, done, calls0)
      requires ExpiredAlone(b, c, listed[done].n, overdue(calls0 + done))
      ensures ExpiredSoFar(a, c, listed, done + 1, calls0)
    {
      ExpiredNext(a, b, c, listed, done, overdue(calls0 + done));
      OthersKept(a, b, c, listed, done);
      forall i | 0 <= i < done ensures ExpiredBy(a, c, listed[i], overdue(calls0 + i)) {
        assert ExpiredBy(a, b, listed[i], overdue(calls0 + i)) && listed[i].n != listed[done].n;
      }
    }

    /** So many of the listed rows are done, in state s with history h and this many calls made. */
    ghost predicate Expiring(s: State, h: seq<Step>, calls: nat, begun: seq<Step>, listed: seq<Copy>, marks: seq<nat>,
                             calls0: nat) {
      && s.periodic.Idle? && s.task.Expired? && AllRows(listed, s)
      && |marks| <= |listed| && s.task.ids == Ids(listed)[|marks|..] && calls == calls0 + |marks|
      && begun <= h && Marked(begun, h, listed, marks, calls0)
    }

    lemma OneMoreDone(s: State, h: seq<Step>, calls: nat, s': State, h': seq<Step>, begun: seq<Step>, listed: seq<Copy>,
                      marks: seq<nat>, calls0: nat)
      requires Expiring(s, h, calls, begun, listed, marks, calls0) && s.task.ids != [] && h < h'
      requires s'.periodic.Idle? && s'.task == Expired(s.task.ids[1..]) && forall n :: n in s.db ==> n in s'.db
      requires NoneOwn(Periodic, h, h'[..|h'| - 1]) && Expires(first, h', |h'| - 1, s.task.ids[0], overdue(calls))
      ensures Expiring(s', h', calls + 1, begun, listed, marks + [|h'| - 1], calls0)
    {
      IdsTail(listed, |marks|);
      OneMoreMark(begun, h, h', listed, marks, calls0);
    }

    lemma IdsTail(listed: seq<Copy>, k: nat)
      requires k <= |listed| && Ids(listed)[k..] != []
      ensures k < |listed| && Ids(listed)[k..][0] == listed[k].n && Ids(listed)[k..][1..] == Ids(listed)[k + 1..]
    {
    }

    method ExpireNext(ghost begun: seq<Step>, ghost listed: seq<Copy>, ghost marks: seq<nat>, ghost calls0: nat)
      returns (ghost more: seq<nat>)
      requires Valid() && Expiring(now, history, calls, begun, listed, marks, calls0) && now.task.ids != []
      modifies this
      ensures Valid() && Expiring(now, history, calls, begun, listed, more, calls0) && |more| == |marks| + 1
      ensures Quiet(old(schedule)) ==>
                Quiet(schedule) && ExpiredAlone(old(now), now, listed[|marks|].n, overdue(calls0 + |marks|))
      ensures |now.task.ids| < |old(now).task.ids|
    {
      IdsTail(listed, |marks|);
      ExpireOne();
      OneMoreDone(old(now), old(history), old(calls), now, history, begun, listed, marks, calls0);
      more := marks + [|history| - 1];
    }

    /**
     * _check_expired_notifications: all unsettled rows are listed, and whichever is old when its
     * turn comes is saved as FAILED, whatever it has become since and without a lock; the task
     * writes nothing else.
     */
    method CheckExpired() returns (ghost listed: seq<Copy>, ghost last: State, ghost marks: seq<nat>)
      requires Valid() && now.periodic.Idle? && now.task.NoTask?
      modifies this
      ensures Valid() && AllWith(old(now).db, listed, {RUNNING, ERROR, NEW})
      ensures old(history) + [ListExpired(Ids(listed))] <= history && now.periodic.Idle? && now.task.NoTask?
      ensures |marks| == |listed| && history[|history| - 1] == EndTask
      ensures Marked(old(history) + [ListExpired(Ids(listed))], history[..|history| - 1], listed, marks, old(calls))
      ensures Quiet(old(schedule)) ==> ExpiredSoFar(old(now).db, now, listed, |listed|, old(calls))
      ensures last.task == Expired([]) && last.periodic.Idle? && now == Apply(last, EndTask)
    {
      var copies := ListByStatus({RUNNING, ERROR, NEW});
      listed := copies;
      Perform(ListExpired(Ids(copies)));
      marks := ExpireAll(listed);
      last := now;
      EndExpiry();
    }

    method EndExpiry()
      requires Valid() && now.periodic.Idle?
      modifies `now, `history
      ensures Valid() && now == Apply(old(now), EndTask) && now.db == old(now).db && now.periodic.Idle? && now.task.NoTask?
      ensures history == old(history) + [EndTask] && history[..|history| - 1] == old(history)
    {
      ghost var before := history;
      Perform(EndTask);
      assert history[..|history| - 1] == before;
    }

    method ExpireAll(ghost listed: seq<Copy>) returns (ghost marks: seq<nat>)
      requires Valid() && now.periodic.Idle? && now.task == Expired(Ids(listed)) && TrueCopies(now.db, listed)
      modifies this
      ensures Valid() && Expiring(now, history, calls, old(history), listed, marks, old(calls)) && now.task.ids == []
      ensures |marks| == |listed|
      ensures Quiet(old(schedule)) ==> ExpiredSoFar(old(now).db, now, listed, |listed|, old(calls))
    {
      marks := [];
      ExpiryBegins(now, history, calls, listed);
      while now.task.ids != []
        invariant Valid() && Expiring(now, history, calls, old(history), listed, marks, old(calls))
        invariant Quiet(old(schedule)) ==>
                    Quiet(schedule) && ExpiredSoFar(old(now).db, now, listed, |marks|, old(calls))
        decreases |now.task.ids|
      {
        ghost var found, done := now, |marks|;
        marks := ExpireNext(old(history), listed, marks, old(calls));
        if Quiet(old(schedule)) { OneMoreExpired(old(now).db, found, now, listed, done, old(calls)); }
      }
      ExpiryDone(now, history, calls, old(history), listed, marks, old(calls));
    }

    lemma ExpiryBegins(s: State, h: seq<Step>, calls: nat, listed: seq<Copy>)
      requires s.periodic.Idle? && s.task == Expired(Ids(listed)) && TrueCopies(s.db, listed)
      ensures Expiring(s, h, calls, h, listed, [], calls) && ExpiredSoFar(s.db, s, listed, 0, calls)
    {
      forall i | 0 <= i < |listed| ensures listed[i].n in s.db {
        assert TrueCopy(s.db, listed[i]);
      }
    }

    lemma ExpiryDone(s: State, h: seq<Step>, calls: nat, begun: seq<Step>, listed: seq<Copy>, marks: seq<nat>, calls0: nat)
      requires Expiring(s, h, calls, begun, listed, marks, calls0) && s.task.ids == []
      ensures |marks| == |listed|
    {
    }

    function Ids(copies: seq<Copy>): seq<Nid> {
      seq(|copies|, i requires 0 <= i < |copies| => copies[i].n)
    }

    /** One item of the task. */
    method ExpireOne()
      requires Valid() && now.periodic.Idle? && now.task.Expired? && now.task.ids != [] && now.task.ids[0] in now.db
      modifies this
      ensures Valid() && old(history) < history && now.periodic.Idle? && now.task == Expired(old(now).task.ids[1..])
      ensures calls == old(calls) + 1 && (forall n :: n in old(now).db ==> n in now.db)
      ensures NoneOwn(Periodic, old(history), history[..|history| - 1])
      ensures Expires(first, history, |history| - 1, old(now).task.ids[0], overdue(old(calls)))
      ensures Quiet(old(schedule)) ==>
                Quiet(schedule) && ExpiredAlone(old(now), now, old(now).task.ids[0], overdue(old(calls)))
    {
      Others(Periodic);
      assert PcOf(now, Periodic) == now.periodic;
      var late := overdue(calls);
      calls := calls + 1;
      ghost var before := history;
      Perform(NextExpired(late));
      assert history[..|history| - 1] == before && history[..|history|] == history;
    }

    /**
     * _process_stale_staged_recoveries, for the notifications of the stale etcd records: each was
     * not RUNNING when it was read, or is saved as ERROR.  With nobody else about just the rows
     * found RUNNING are in ERROR at the end.
     */
    method ProcessStale(ids: seq<Nid>) returns (ghost last: State)
      requires Valid() && now.periodic.Idle? && now.task.NoTask?
      modifies this
      ensures Valid() && old(history) + [ListStale(ids)] <= history && now.periodic.Idle? && now.task.NoTask?
      ensures forall i :: 0 <= i < |ids| ==>
                Was(first, old(history), history, ids[i], ERROR) || WasNot(first, old(history), history, ids[i], RUNNING)
      ensures last.task == Stale([]) && last.periodic.Idle? && now == Apply(last, EndTask)
      ensures Quiet(old(schedule)) ==> StaleAlone(old(now), now, ids)
    {
      Perform(ListStale(ids));
      ghost var begun, done := history, 0;
      while now.task.ids != []
        invariant Valid() && begun <= history && now.periodic.Idle? && now.task.Stale?
        invariant done <= |ids| && now.task.ids == ids[done..]
        invariant Quiet(old(schedule)) ==> Quiet(schedule) && StaleAlone(old(now), now, ids[..done])
        invariant forall i :: 0 <= i < done ==>
                    Was(first, old(history), history, ids[i], ERROR) || WasNot(first, old(history), history, ids[i], RUNNING)
        decreases |now.task.ids|
      {
        ghost var before, found := history, now;
        StaleOne();
        if Quiet(old(schedule)) { OneMoreStale(old(now), found, now, ids, done); }
        StaleSoFar(old(history), before, history, ids, done);
        WasLater(first, old(history), before, history, history, ids[done], ERROR);
        WasLater(first, old(history), before, history, history, ids[done], RUNNING);
        done := done + 1;
      }
      last := now;
      ghost var before := history;
      Perform(EndTask);
      StaleSoFar(old(history), before, history, ids, done);
      assert ids[..|ids|] == ids;
    }

    lemma StaleSoFar(a: seq<Step>, b: seq<Step>, c: seq<Step>, ids: seq<Nid>, done: nat)
      requires a <= b <= c && done <= |ids|
      requires forall i :: 0 <= i < done ==> Was(first, a, b, ids[i], ERROR) || WasNot(first, a, b, ids[i], RUNNING)
      ensures forall i :: 0 <= i < done ==> Was(first, a, c, ids[i], ERROR) || WasNot(first, a, c, ids[i], RUNNING)
    {
      forall i | 0 <= i < done ensures Was(first, a, c, ids[i], ERROR) || WasNot(first, a, c, ids[i], RUNNING) {
        WasLater(first, a, a, b, c, ids[i], ERROR);
        WasLater(first, a, a, b, c, ids[i], RUNNING);
      }
    }

    method StaleOne()
      requires Valid() && now.periodic.Idle? && now.task.Stale? && now.task.ids != []
      modifies `now, `schedule, `history
      ensures Valid() && old(history) < history && now.periodic.Idle? && now.task == Stale(old(now).task.ids[1..])
      ensures Was(first, old(history), history, old(now).task.ids[0], ERROR)
                || WasNot(first, old(history), history, old(now).task.ids[0], RUNNING)
      ensures Quiet(old(schedule)) ==> Quiet(schedule) && MarkedAlone(old(now), now, old(now).task.ids[0])
    {
      Others(Periodic);
      assert PcOf(now, Periodic) == now.periodic;
      ghost var n, before := now.task.ids[0], history;
      IsNow(first, old(history), history, now, n, RUNNING);
      Perform(NextStale);
      if now.periodic.MarkingError? {
        Others(Periodic);
        assert PcOf(now, Periodic) == now.periodic;
        Perform(SaveError);
        IsNow(first, old(history), history, now, n, ERROR);
      } else {
        WasLater(first, old(history), old(history), before, history, n, RUNNING);
      }
    }
  }
}
