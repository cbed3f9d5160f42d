/**
 * The distributed start limiter: any number of engine threads take start slots of a
 * destination host.  A slot is an etcd key bound to a TTL lease; a short per-host lock
 * protects only the "list, compare with the limit, create" section.
 *
 * The protocol is a state machine with one step for each etcd, lock or Nova call of
 * EtcdStartLimiter.acquire/release and of the start that the slot covers, plus the steps
 * of the environment: the clock, lease expiry, crashes and a changing runtime limit.
 */
module StartLimiter {
  import opened FiniteSets
  import opened Wrappers

  type Host = string
  type Instance = string
  type Wid = nat

  /**
   * The timing options.  callBudget is not an option of the program: it bounds the time one
   * holder spends in calls, outside the two timed waits, from the lease grant to the delete.
   */
  datatype Config = Config(ttl: nat, startTimeout: nat, batchDelay: nat, callBudget: nat)

  /** What _validate_ttl accepts. */
  predicate TtlAccepted(c: Config) {
    c.ttl >= c.startTimeout + c.batchDelay
  }

  /** The calls of one holder fit strictly inside the margin the lease leaves beyond the two waits. */
  predicate CallsFitMargin(c: Config) {
    c.callBudget < c.ttl - (c.startTimeout + c.batchDelay)
  }

  datatype Pc =
    | Waiting                                        // top of the loop: about to take the lock
    | Locked                                         // inside the lock
    | Listed(count: nat)                             // the live leases of the host were listed
    | Admitted(count: nat, limit: nat)               // count < limit, as read just now
    | Granted(lease: nat, count: nat, limit: nat)    // a lease was granted, its key not yet created
    | Denied                                         // no slot this time; the lock is still held
    | Created(lease: nat)                            // key created; the lock is still held
    | Starting(lease: nat)                           // acquire returned; STARTING and start_server calls
    | AwaitingActive(lease: nat)                     // waiting for the start result
    | Recording(lease: nat)                          // storing ACTIVE or FAILED
    | Cooling(lease: nat)                            // batch_delay sleep
    | Releasing(lease: nat)                          // release: about to read the record at the key
    | Deleting(lease: nat, seen: Option<nat>)        // seen: the lease named there; the key is about to be deleted
    | Deleted(lease: nat, found: nat)                // key deleted, the lease found about to be revoked
    | Done
    | Dead

  datatype Worker = Worker(host: Host, instance: Instance, pc: Pc,
                           granted: nat, calls: nat, waited: nat, cooled: nat)

  datatype Lease = Lease(id: nat, expires: nat)

  type LeaseKey = (Host, Instance)

  datatype State = State(
    clock: nat,
    limit: nat,                     // the limit an engine reads now
    peak: nat,                      // the largest limit in force so far
    nextLease: nat,
    leases: map<LeaseKey, Lease>,
    locks: map<Host, Wid>,
    workers: map<Wid, Worker>)

  /** What one thread does next: a lock, etcd or Nova call, a wait, or its crash. */
  datatype Action =
    | TakeLock
    | ListLeases
    | ReadLimit
    | GrantLease
    | CreateKey
    | AcquireRaises
    | SleepRetry
    | ReturnSlot
    | AwaitResult
    | StartEnded
    | BeginCooling
    | BeginRelease
    | ReadKey
    | DeleteKey
    | RevokeLease
    | ReleaseFails
    | Crash

  datatype Step =
    | Begin(w: Wid, host: Host, instance: Instance)
    | Act(w: Wid, action: Action)
    | FreeDeadLock(host: Host)
    | Expire(key: LeaseKey)
    | SetLimit(value: nat)
    | Tick(delta: nat)

  // ---------------------------------------------------------------- views

  function KeyOf(worker: Worker): LeaseKey {
    (worker.host, worker.instance)
  }

  /** The lease that the record at a key names. */
  function LeaseAt(s: State, k: LeaseKey): Option<nat> {
    if k in s.leases then Some(s.leases[k].id) else None
  }

  predicate InLock(pc: Pc) {
    pc.Locked? || pc.Listed? || pc.Admitted? || pc.Granted? || pc.Denied? || pc.Created?
  }

  /** The thread owns a start slot: from the create of its key to the delete of that key. */
  predicate Holding(pc: Pc) {
    pc.Created? || pc.Starting? || pc.AwaitingActive? || pc.Recording? || pc.Cooling? || pc.Releasing? || pc.Deleting?
  }

  /** Phases in which the thread is busy with calls rather than in one of the two timed waits. */
  predicate Calling(pc: Pc) {
    pc.Granted? || pc.Created? || pc.Starting? || pc.Recording? || pc.Releasing? || pc.Deleting?
  }

  predicate OwnsLeaseId(pc: Pc) {
    pc.Granted? || Holding(pc) || pc.Deleted?
  }

  predicate Timed(pc: Pc) {
    pc.Granted? || Holding(pc)
  }

  /** The start slots of a host that a listing of its lease prefix returns. */
  function LiveOn(leases: map<LeaseKey, Lease>, host: Host): set<LeaseKey> {
    set k | k in leases.Keys && k.0 == host
  }

  /** The starts in flight on a host: acquire returned and the slot is not yet given back. */
  function InFlight(s: State, host: Host): set<Wid> {
    set w | w in s.workers.Keys && s.workers[w].host == host && Holding(s.workers[w].pc) && !s.workers[w].pc.Created?
  }

  // ---------------------------------------------------------------- transitions

  function Init(limit: nat): State {
    State(0, limit, limit, 0, map[], map[], map[])
  }

  function Elapse(worker: Worker, d: nat): Worker {
    if Calling(worker.pc) then worker.(calls := worker.calls + d)
    else if worker.pc.AwaitingActive? then worker.(waited := worker.waited + d)
    else if worker.pc.Cooling? then worker.(cooled := worker.cooled + d)
    else worker
  }

  /** The waits end by their timeout and the calls stay within their budget. */
  predicate OnTime(c: Config, worker: Worker) {
    Timed(worker.pc) ==>
      worker.calls <= c.callBudget && worker.waited <= c.startTimeout && worker.cooled <= c.batchDelay
  }

  predicate CanAct(c: Config, s: State, worker: Worker, action: Action) {
    match action
    case TakeLock => worker.pc.Waiting? && worker.host !in s.locks
    case ListLeases => worker.pc.Locked?
    case ReadLimit => worker.pc.Listed?
    case GrantLease => worker.pc.Admitted?
    case CreateKey => worker.pc.Granted? && s.clock < worker.granted + c.ttl
    case AcquireRaises => worker.pc.Waiting? || InLock(worker.pc)
    case SleepRetry => worker.pc.Denied?
    case ReturnSlot => worker.pc.Created?
    case AwaitResult => worker.pc.Starting?
    case StartEnded => worker.pc.Starting? || worker.pc.AwaitingActive?
    case BeginCooling => worker.pc.Recording?
    case BeginRelease => worker.pc.Cooling? && worker.cooled == c.batchDelay
    case ReadKey => worker.pc.Releasing?
    case DeleteKey => worker.pc.Deleting?
    case RevokeLease => worker.pc.Deleted?
    case ReleaseFails => worker.pc.Cooling? || worker.pc.Releasing? || worker.pc.Deleting? || worker.pc.Deleted?
    case Crash => true
  }

  function NextPc(c: Config, s: State, worker: Worker, action: Action): Pc
    requires CanAct(c, s, worker, action)
  {
    match action
    case TakeLock => Locked
    case ListLeases => Listed(|LiveOn(s.leases, worker.host)|)
    case ReadLimit => if worker.pc.count < s.limit then Admitted(worker.pc.count, s.limit) else Denied
    case GrantLease => Granted(s.nextLease, worker.pc.count, worker.pc.limit)
    case CreateKey => if KeyOf(worker) in s.leases then Denied else Created(worker.pc.lease)
    case AcquireRaises => Done
    case SleepRetry => Waiting
    case ReturnSlot => Starting(worker.pc.lease)
    case AwaitResult => AwaitingActive(worker.pc.lease)
    case StartEnded => Recording(worker.pc.lease)
    case BeginCooling => Cooling(worker.pc.lease)
    case BeginRelease => Releasing(worker.pc.lease)
    case ReadKey => Deleting(worker.pc.lease, LeaseAt(s, KeyOf(worker)))
    case DeleteKey => if worker.pc.seen.Some? then Deleted(worker.pc.lease, worker.pc.seen.value) else Done
    case RevokeLease => Done
    case ReleaseFails => Done
    case Crash => Dead
  }

  function NextWorker(c: Config, s: State, worker: Worker, action: Action): Worker
    requires CanAct(c, s, worker, action)
  {
    var pc := NextPc(c, s, worker, action);
    if action.GrantLease? then Worker(worker.host, worker.instance, pc, s.clock, 0, 0, 0) else worker.(pc := pc)
  }

  /** create is refused by an existing key; delete is by key, whoever owns it; revoke is of the lease read there. */
  function NextLeases(c: Config, s: State, worker: Worker, action: Action): map<LeaseKey, Lease>
    requires CanAct(c, s, worker, action)
  {
    match action
    case CreateKey =>
      if KeyOf(worker) in s.leases then s.leases
      else s.leases[KeyOf(worker) := Lease(worker.pc.lease, worker.granted + c.ttl)]
    case DeleteKey => s.leases - {KeyOf(worker)}
    case RevokeLease => map k | k in s.leases && s.leases[k].id != worker.pc.found :: s.leases[k]
    case _ => s.leases
  }

  function NextLocks(s: State, w: Wid, host: Host, action: Action): map<Host, Wid> {
    match action
    case TakeLock => s.locks[host := w]
    case AcquireRaises => if host in s.locks && s.locks[host] == w then s.locks - {host} else s.locks
    case SleepRetry => s.locks - {host}
    case ReturnSlot => s.locks - {host}
    case _ => s.locks
  }

  predicate Enabled(c: Config, s: State, step: Step) {
    match step
    case Begin(w, _, _) => w !in s.workers
    case Act(w, action) => w in s.workers && CanAct(c, s, s.workers[w], action)
    case FreeDeadLock(h) => h in s.locks && s.locks[h] in s.workers && s.workers[s.locks[h]].pc.Dead?
    case Expire(k) => k in s.leases && s.clock >= s.leases[k].expires
    case SetLimit(v) => v >= 1
    case Tick(d) => forall w :: w in s.workers ==> OnTime(c, Elapse(s.workers[w], d))
  }

  function ActStep(c: Config, s: State, w: Wid, action: Action): State
    requires w in s.workers && CanAct(c, s, s.workers[w], action)
  {
    var worker := s.workers[w];
    State(s.clock, s.limit, s.peak,
          if action.GrantLease? then s.nextLease + 1 else s.nextLease,
          NextLeases(c, s, worker, action),
          NextLocks(s, w, worker.host, action),
          s.workers[w := NextWorker(c, s, worker, action)])
  }

  function Apply(c: Config, s: State, step: Step): State
    requires Enabled(c, s, step)
  {
    match step
    case Begin(w, h, i) => s.(workers := s.workers[w := Worker(h, i, Waiting, 0, 0, 0, 0)])
    case Act(w, action) => ActStep(c, s, w, action)
    case FreeDeadLock(h) => s.(locks := s.locks - {h})
    case Expire(k) => s.(leases := s.leases - {k})
    case SetLimit(v) => s.(limit := v, peak := if v > s.peak then v else s.peak)
    case Tick(d) => s.(clock := s.clock + d, workers := map w | w in s.workers :: Elapse(s.workers[w], d))
  }

  /** The state a sequence of steps leads to, None when some step is not enabled. */
  datatype Outcome = Stuck | Reached(state: State)

  function Exec(c: Config, s: State, steps: seq<Step>): Outcome
    decreases |steps|
  {
    if steps == [] then Reached(s)
    else if !Enabled(c, s, steps[0]) then Stuck
    else Exec(c, Apply(c, s, steps[0]), steps[1..])
  }

  // ---------------------------------------------------------------- invariant: lock and count

  ghost predicate LockInv(s: State) {
    forall w :: w in s.workers && InLock(s.workers[w].pc) ==>
                  s.workers[w].host in s.locks && s.locks[s.workers[w].host] == w
  }

  ghost predicate CountInv(s: State) {
    && 1 <= s.limit <= s.peak
    && (forall h :: |LiveOn(s.leases, h)| <= s.peak)
    && (forall w :: w in s.workers ==> CountKnown(s, s.workers[w]))
  }

  /** What a thread inside the lock knows about the live leases of its host. */
  ghost predicate CountKnown(s: State, worker: Worker) {
    match worker.pc
    case Listed(count) => |LiveOn(s.leases, worker.host)| <= count
    case Admitted(count, limit) => |LiveOn(s.leases, worker.host)| <= count < limit <= s.peak
    case Granted(_, count, limit) => |LiveOn(s.leases, worker.host)| <= count < limit <= s.peak
    case _ => true
  }

  predicate IsCreate(step: Step) {
    step.Act? && step.action.CreateKey?
  }

  lemma ShrinkLive(before: map<LeaseKey, Lease>, after: map<LeaseKey, Lease>, h: Host)
    requires after.Keys <= before.Keys
    ensures |LiveOn(after, h)| <= |LiveOn(before, h)|
  {
    SubsetCard(LiveOn(after, h), LiveOn(before, h));
  }

  lemma GrowLive(before: map<LeaseKey, Lease>, k: LeaseKey, lease: Lease, h: Host)
    requires k !in before
    ensures |LiveOn(before[k := lease], h)| == |LiveOn(before, h)| + (if k.0 == h then 1 else 0)
  {
    var after := before[k := lease];
    if k.0 == h {
      assert LiveOn(after, h) == LiveOn(before, h) + {k};
    } else {
      assert LiveOn(after, h) == LiveOn(before, h);
    }
  }

  lemma LockStep(c: Config, s: State, step: Step)
    requires LockInv(s) && Enabled(c, s, step)
    ensures LockInv(Apply(c, s, step))
  {
  }

  /** A created key is the only growth, and it happens with the count and the limit in hand. */
  lemma CreateStep(c: Config, s: State, w: Wid)
    requires LockInv(s) && CountInv(s) && Enabled(c, s, Act(w, CreateKey))
    ensures CountInv(Apply(c, s, Act(w, CreateKey)))
  {
    var t := Apply(c, s, Act(w, CreateKey));
    var worker := s.workers[w];
    assert CountKnown(s, worker);
    if KeyOf(worker) !in s.leases {
      forall h ensures |LiveOn(t.leases, h)| <= t.peak {
        GrowLive(s.leases, KeyOf(worker), t.leases[KeyOf(worker)], h);
      }
      forall v | v in t.workers ensures CountKnown(t, t.workers[v]) {
        GrowLive(s.leases, KeyOf(worker), t.leases[KeyOf(worker)], t.workers[v].host);
        assert v != w ==> CountKnown(s, s.workers[v]);
      }
    } else {
      forall v | v in t.workers ensures CountKnown(t, t.workers[v]) {
        assert CountKnown(s, s.workers[v]);
      }
    }
  }

  /** What a thread knows stays true while no key is created. */
  lemma KnownStep(c: Config, s: State, step: Step, v: Wid)
    requires LockInv(s) && CountInv(s) && Enabled(c, s, step) && !IsCreate(step)
    requires v in Apply(c, s, step).workers && Apply(c, s, step).leases.Keys <= s.leases.Keys
    ensures CountKnown(Apply(c, s, step), Apply(c, s, step).workers[v])
  {
    var t := Apply(c, s, step);
    ShrinkLive(s.leases, t.leases, t.workers[v].host);
    assert v in s.workers ==> CountKnown(s, s.workers[v]);
  }

  /** Every other step can only lose leases. */
  lemma OtherCountStep(c: Config, s: State, step: Step)
    requires LockInv(s) && CountInv(s) && Enabled(c, s, step) && !IsCreate(step)
    ensures CountInv(Apply(c, s, step))
  {
    var t := Apply(c, s, step);
    assert t.leases.Keys <= s.leases.Keys;
    forall h ensures |LiveOn(t.leases, h)| <= t.peak {
      ShrinkLive(s.leases, t.leases, h);
    }
    forall v | v in t.workers ensures CountKnown(t, t.workers[v]) {
      KnownStep(c, s, step, v);
    }
  }

  // ---------------------------------------------------------------- invariant: leases and time

  /** Lease ids are handed out once: no two threads and no two keys share one. */
  ghost predicate IdInv(s: State) {
    IdsIssued(s) && ThreadIdsDistinct(s) && KeyIdsDistinct(s) && LooseIdsUnattached(s)
  }

  ghost predicate IdsIssued(s: State) {
    && (forall w :: w in s.workers && OwnsLeaseId(s.workers[w].pc) ==> s.workers[w].pc.lease < s.nextLease)
    && (forall k :: k in s.leases ==> s.leases[k].id < s.nextLease)
  }

  ghost predicate ThreadIdsDistinct(s: State) {
    forall v, w :: v in s.workers && w in s.workers && v != w
                   && OwnsLeaseId(s.workers[v].pc) && OwnsLeaseId(s.workers[w].pc)
                   ==> s.workers[v].pc.lease != s.workers[w].pc.lease
  }

  ghost predicate KeyIdsDistinct(s: State) {
    forall j, k :: j in s.leases && k in s.leases && j != k ==> s.leases[j].id != s.leases[k].id
  }

  predicate Loose(pc: Pc) {
    pc.Granted? || pc.Deleted?
  }

  /** A lease granted and not yet bound to a key, or whose key is gone, is bound to no key. */
  ghost predicate LooseIdsUnattached(s: State) {
    forall w, k :: w in s.workers && k in s.leases && Loose(s.workers[w].pc) ==> s.leases[k].id != s.workers[w].pc.lease
  }

  /** The time since the grant is the sum of what the thread spent in calls and in the two waits. */
  ghost predicate ClockInv(c: Config, s: State) {
    forall w :: w in s.workers && Timed(s.workers[w].pc) ==> Punctual(c, s, s.workers[w])
  }

  predicate Punctual(c: Config, s: State, worker: Worker) {
    && s.clock == worker.granted + worker.calls + worker.waited + worker.cooled
    && worker.calls <= c.callBudget && worker.waited <= c.startTimeout && worker.cooled <= c.batchDelay
  }

  /** The thread's own lease is live at its own key. */
  predicate OwnLeaseLive(c: Config, s: State, worker: Worker)
    requires Holding(worker.pc)
  {
    && KeyOf(worker) in s.leases
    && s.leases[KeyOf(worker)] == Lease(worker.pc.lease, worker.granted + c.ttl)
  }

  /** Every holder still has its own live lease. */
  ghost predicate HolderInv(c: Config, s: State) {
    forall w :: w in s.workers && Holding(s.workers[w].pc) ==> OwnLeaseLive(c, s, s.workers[w])
  }

  /** What a release reads at its key is its own lease. */
  ghost predicate FoundInv(s: State) {
    forall w :: w in s.workers ==> FoundOwn(s.workers[w].pc)
  }

  predicate FoundOwn(pc: Pc) {
    (pc.Deleting? ==> pc.seen == Some(pc.lease)) && (pc.Deleted? ==> pc.found == pc.lease)
  }

  lemma FoundStep(c: Config, s: State, step: Step)
    requires HolderInv(c, s) && FoundInv(s) && Enabled(c, s, step)
    ensures FoundInv(Apply(c, s, step))
  {
    var t := Apply(c, s, step);
    forall w | w in t.workers ensures FoundOwn(t.workers[w].pc) {
      if step == Act(w, ReadKey) {
        assert OwnLeaseLive(c, s, s.workers[w]);
      } else {
        assert w in s.workers ==> FoundOwn(s.workers[w].pc);
      }
    }
  }

  lemma ClockStep(c: Config, s: State, step: Step)
    requires ClockInv(c, s) && Enabled(c, s, step)
    ensures ClockInv(c, Apply(c, s, step))
  {
    var t := Apply(c, s, step);
    forall w | w in t.workers && Timed(t.workers[w].pc) ensures Punctual(c, t, t.workers[w]) {
      if step.Tick? {
        assert OnTime(c, Elapse(s.workers[w], step.delta));
        assert Punctual(c, s, s.workers[w]);
      } else if w in s.workers && Timed(s.workers[w].pc) {
        assert Punctual(c, s, s.workers[w]);
      }
    }
  }

  lemma IssuedStep(c: Config, s: State, step: Step)
    requires IdsIssued(s) && Enabled(c, s, step)
    ensures IdsIssued(Apply(c, s, step))
  {
  }

  /** Where a thread's lease id comes from: it had it before the step, or it was granted just now. */
  lemma IdOrigin(c: Config, s: State, step: Step, w: Wid)
    requires Enabled(c, s, step)
    requires var t := Apply(c, s, step); w in t.workers && OwnsLeaseId(t.workers[w].pc)
    ensures var t := Apply(c, s, step);
            || (w in s.workers && OwnsLeaseId(s.workers[w].pc) && t.workers[w].pc.lease == s.workers[w].pc.lease)
            || (step == Act(w, GrantLease) && t.workers[w].pc.lease == s.nextLease)
  {
  }

  lemma ThreadIdsStep(c: Config, s: State, step: Step)
    requires IdsIssued(s) && ThreadIdsDistinct(s) && Enabled(c, s, step)
    ensures ThreadIdsDistinct(Apply(c, s, step))
  {
    var t := Apply(c, s, step);
    forall v, w | v in t.workers && w in t.workers && v != w
                  && OwnsLeaseId(t.workers[v].pc) && OwnsLeaseId(t.workers[w].pc)
      ensures t.workers[v].pc.lease != t.workers[w].pc.lease
    {
      IdOrigin(c, s, step, v);
      IdOrigin(c, s, step, w);
    }
  }

  lemma KeyIdsStep(c: Config, s: State, step: Step)
    requires KeyIdsDistinct(s) && LooseIdsUnattached(s) && Enabled(c, s, step)
    ensures KeyIdsDistinct(Apply(c, s, step))
  {
  }

  /** Where a key's lease id comes from: it was there before the step, or it was created just now. */
  lemma KeyOrigin(c: Config, s: State, step: Step, k: LeaseKey)
    requires Enabled(c, s, step) && k in Apply(c, s, step).leases
    ensures var t := Apply(c, s, step);
            || (k in s.leases && t.leases[k] == s.leases[k])
            || (IsCreate(step) && t.leases[k].id == s.workers[step.w].pc.lease && t.workers[step.w].pc.Created?)
  {
  }

  lemma LooseIdsStep(c: Config, s: State, step: Step)
    requires IdInv(s) && HolderInv(c, s) && Enabled(c, s, step)
    ensures LooseIdsUnattached(Apply(c, s, step))
  {
    var t := Apply(c, s, step);
    ThreadIdsStep(c, s, step);
    forall w, k | w in t.workers && k in t.leases && Loose(t.workers[w].pc)
      ensures t.leases[k].id != t.workers[w].pc.lease
    {
      KeyOrigin(c, s, step, k);
      IdOrigin(c, s, step, w);
      LooseOrigin(c, s, step, w);
    }
  }

  /** How a lease gets loose: it was, it is granted, or its key is deleted, which was its own. */
  lemma LooseOrigin(c: Config, s: State, step: Step, w: Wid)
    requires HolderInv(c, s) && Enabled(c, s, step)
    requires var t := Apply(c, s, step); w in t.workers && Loose(t.workers[w].pc)
    ensures var t := Apply(c, s, step);
            || (w in s.workers && Loose(s.workers[w].pc))
            || step == Act(w, GrantLease)
            || (step == Act(w, DeleteKey) && OwnLeaseLive(c, s, s.workers[w]) && t.leases == s.leases - {KeyOf(s.workers[w])})
  {
    if step == Act(w, DeleteKey) {
      assert OwnLeaseLive(c, s, s.workers[w]);
    }
  }

  lemma HolderStep(c: Config, s: State, step: Step)
    requires CallsFitMargin(c)
    requires IdInv(s) && ClockInv(c, s) && HolderInv(c, s) && FoundInv(s) && Enabled(c, s, step)
    ensures HolderInv(c, Apply(c, s, step))
  {
    var t := Apply(c, s, step);
    forall w | w in t.workers && Holding(t.workers[w].pc) ensures OwnLeaseLive(c, t, t.workers[w]) {
      if w in s.workers && Holding(s.workers[w].pc) {
        HolderKept(c, s, step, w);
      }
    }
  }

  /** A holder stays the holder of the same lease. */
  lemma HolderSame(c: Config, s: State, step: Step, w: Wid)
    requires Enabled(c, s, step) && w in s.workers && Holding(s.workers[w].pc)
    requires w in Apply(c, s, step).workers && Holding(Apply(c, s, step).workers[w].pc)
    ensures var me := Apply(c, s, step).workers[w];
            KeyOf(me) == KeyOf(s.workers[w]) && me.granted == s.workers[w].granted && me.pc.lease == s.workers[w].pc.lease
  {
  }

  /** Its lease does not run out, and nobody deletes its key or revokes its lease. */
  lemma LeaseStays(c: Config, s: State, step: Step, w: Wid)
    requires CallsFitMargin(c)
    requires IdInv(s) && ClockInv(c, s) && HolderInv(c, s) && FoundInv(s) && Enabled(c, s, step)
    requires w in s.workers && Holding(s.workers[w].pc) && step != Act(w, DeleteKey)
    ensures var k := KeyOf(s.workers[w]); k in Apply(c, s, step).leases && Apply(c, s, step).leases[k] == s.leases[k]
  {
    assert OwnLeaseLive(c, s, s.workers[w]);
    match step
    case Expire(_) => assert Punctual(c, s, s.workers[w]);
    case Act(v, DeleteKey) => assert OwnLeaseLive(c, s, s.workers[v]);
    case Act(v, RevokeLease) => assert Loose(s.workers[v].pc) && FoundOwn(s.workers[v].pc);
    case _ =>
  }

  lemma HolderKept(c: Config, s: State, step: Step, w: Wid)
    requires CallsFitMargin(c)
    requires IdInv(s) && ClockInv(c, s) && HolderInv(c, s) && FoundInv(s) && Enabled(c, s, step)
    requires w in s.workers && Holding(s.workers[w].pc) && w in Apply(c, s, step).workers
    requires Holding(Apply(c, s, step).workers[w].pc)
    ensures OwnLeaseLive(c, Apply(c, s, step), Apply(c, s, step).workers[w])
  {
    assert OwnLeaseLive(c, s, s.workers[w]);
    HolderSame(c, s, step, w);
    LeaseStays(c, s, step, w);
  }

  // ---------------------------------------------------------------- whole runs

  ghost predicate CountSafe(s: State) {
    LockInv(s) && CountInv(s)
  }

  ghost predicate HolderSafe(c: Config, s: State) {
    IdInv(s) && ClockInv(c, s) && HolderInv(c, s) && FoundInv(s)
  }

  lemma {:induction false} CountSafeRun(c: Config, s: State, steps: seq<Step>)
    requires CountSafe(s) && Exec(c, s, steps).Reached?
    ensures CountSafe(Exec(c, s, steps).state)
    decreases |steps|
  {
    if steps != [] {
      LockStep(c, s, steps[0]);
      if IsCreate(steps[0]) {
        CreateStep(c, s, steps[0].w);
      } else {
        OtherCountStep(c, s, steps[0]);
      }
      CountSafeRun(c, Apply(c, s, steps[0]), steps[1..]);
    }
  }

  lemma {:induction false} HolderSafeRun(c: Config, s: State, steps: seq<Step>)
    requires CallsFitMargin(c)
    requires HolderSafe(c, s) && Exec(c, s, steps).Reached?
    ensures HolderSafe(c, Exec(c, s, steps).state)
    decreases |steps|
  {
    if steps != [] {
      IssuedStep(c, s, steps[0]);
      ThreadIdsStep(c, s, steps[0]);
      KeyIdsStep(c, s, steps[0]);
      LooseIdsStep(c, s, steps[0]);
      ClockStep(c, s, steps[0]);
      HolderStep(c, s, steps[0]);
      FoundStep(c, s, steps[0]);
      HolderSafeRun(c, Apply(c, s, steps[0]), steps[1..]);
    }
  }

  /** The state s is reached by some run of the whole cluster from an empty store. */
  ghost predicate RunTo(c: Config, limit: nat, steps: seq<Step>, s: State) {
    limit >= 1 && Exec(c, Init(limit), steps) == Reached(s)
  }

  lemma RunIsCountSafe(c: Config, limit: nat, steps: seq<Step>, s: State)
    requires RunTo(c, limit, steps, s)
    ensures CountSafe(s)
  {
    forall h ensures LiveOn(Init(limit).leases, h) == {} {}
    CountSafeRun(c, Init(limit), steps);
  }

  /** The largest limit that was in force at any time of the run. */
  function LargestLimit(limit: nat, steps: seq<Step>): nat
    decreases |steps|
  {
    if steps == [] then limit
    else if steps[0].SetLimit? && steps[0].value > limit then LargestLimit(steps[0].value, steps[1..])
    else LargestLimit(limit, steps[1..])
  }

  lemma {:induction false} PeakIsLargest(c: Config, s: State, steps: seq<Step>)
    requires Exec(c, s, steps).Reached?
    ensures Exec(c, s, steps).state.peak == LargestLimit(s.peak, steps)
    decreases |steps|
  {
    if steps != [] {
      PeakIsLargest(c, Apply(c, s, steps[0]), steps[1..]);
    }
  }

  /**
   * In every reachable state a host has no more live start slots than the largest limit in
   * force so far; with a fixed limit that is the limit itself.  No timing is assumed.
   */
  lemma LiveSlotsWithinLimit(c: Config, limit: nat, steps: seq<Step>, s: State, h: Host)
    requires RunTo(c, limit, steps, s)
    ensures |LiveOn(s.leases, h)| <= LargestLimit(limit, steps)
  {
    RunIsCountSafe(c, limit, steps, s);
    PeakIsLargest(c, Init(limit), steps);
  }

  /** With a limit that changes while leases are live: each creation respects the limit it read. */
  lemma CreationRespectsLimitRead(c: Config, limit: nat, steps: seq<Step>, s: State, w: Wid)
    requires RunTo(c, limit, steps, s)
    requires Enabled(c, s, Act(w, CreateKey)) && KeyOf(s.workers[w]) !in s.leases
    ensures var worker := s.workers[w];
            |LiveOn(Apply(c, s, Act(w, CreateKey)).leases, worker.host)| <= worker.pc.limit
  {
    RunIsCountSafe(c, limit, steps, s);
    var worker := s.workers[w];
    assert CountKnown(s, worker);
    GrowLive(s.leases, KeyOf(worker), Lease(worker.pc.lease, worker.granted + c.ttl), worker.host);
  }

  /** Distinct starts in flight own distinct live slots. */
  lemma InFlightWithinLive(c: Config, s: State, h: Host)
    requires HolderSafe(c, s)
    ensures |InFlight(s, h)| <= |LiveOn(s.leases, h)|
  {
    var slot := map w | w in InFlight(s, h) :: KeyOf(s.workers[w]);
    forall w | w in InFlight(s, h) ensures slot[w] in LiveOn(s.leases, h) {
      assert OwnLeaseLive(c, s, s.workers[w]);
    }
    forall v, w | v in InFlight(s, h) && w in InFlight(s, h) && v != w ensures slot[v] != slot[w] {
      assert OwnLeaseLive(c, s, s.workers[v]) && OwnLeaseLive(c, s, s.workers[w]);
    }
    InjectionCard(InFlight(s, h), LiveOn(s.leases, h), slot);
  }

  /**
   * The start limit itself: when the calls of a holder fit the margin of the lease, the starts in
   * flight on a host never exceed the largest limit in force so far, in any interleaving.
   */
  lemma StartsInFlightWithinLimit(c: Config, limit: nat, steps: seq<Step>, s: State, h: Host)
    requires CallsFitMargin(c)
    requires RunTo(c, limit, steps, s)
    ensures |InFlight(s, h)| <= |LiveOn(s.leases, h)| <= LargestLimit(limit, steps)
  {
    HolderSafeRun(c, Init(limit), steps);
    InFlightWithinLive(c, s, h);
    LiveSlotsWithinLimit(c, limit, steps, s, h);
  }

  /** Although release deletes by key, what it deletes, and revokes then, is always the caller's own live lease. */
  lemma ReleaseDeletesOwnLease(c: Config, limit: nat, steps: seq<Step>, s: State, w: Wid)
    requires CallsFitMargin(c)
    requires RunTo(c, limit, steps, s)
    requires Enabled(c, s, Act(w, DeleteKey))
    ensures var worker := s.workers[w];
            && KeyOf(worker) in s.leases
            && Some(s.leases[KeyOf(worker)].id) == Some(worker.pc.lease) == worker.pc.seen
            && s.clock < s.leases[KeyOf(worker)].expires
            && forall v :: v in s.workers && v != w && Holding(s.workers[v].pc) ==> KeyOf(s.workers[v]) != KeyOf(worker)
  {
    HolderSafeRun(c, Init(limit), steps);
    var worker := s.workers[w];
    assert OwnLeaseLive(c, s, worker) && Punctual(c, s, worker);
    forall v | v in s.workers && v != w && Holding(s.workers[v].pc) ensures KeyOf(s.workers[v]) != KeyOf(worker) {
      assert OwnLeaseLive(c, s, s.workers[v]);
    }
  }

  // ---------------------------------------------------------------- the margin is necessary

  lemma {:induction false} ExecAppend(c: Config, s: State, a: seq<Step>, b: seq<Step>)
    requires Exec(c, s, a).Reached?
    ensures Exec(c, s, a + b) == Exec(c, Exec(c, s, a).state, b)
    decreases |a|
  {
    if a == [] {
      assert a + b == b;
    } else {
      assert (a + b)[1..] == a[1..] + b;
      ExecAppend(c, Apply(c, s, a[0]), a[1..], b);
    }
  }

  /** One more step of a run. */
  lemma Extend(c: Config, limit: nat, before: seq<Step>, s: State, step: Step) returns (steps: seq<Step>, t: State)
    requires RunTo(c, limit, before, s) && Enabled(c, s, step)
    ensures RunTo(c, limit, steps, t) && t == Apply(c, s, step)
  {
    ExecAppend(c, Init(limit), before, [step]);
    assert [step][1..] == [];
    steps, t := before + [step], Apply(c, s, step);
  }

  /** Host "h" has no live slot and a free lock. */
  predicate Vacant(s: State) {
    s.leases == map[] && "h" !in s.locks && s.limit == 1 && s.peak == 1
  }

  /** A thread is admitted without being disturbed. */
  lemma Admission(c: Config, before: seq<Step>, s: State, w: Wid, i: Instance) returns (steps: seq<Step>, t: State)
    requires RunTo(c, 1, before, s) && Vacant(s) && w !in s.workers
    ensures RunTo(c, 1, steps, t)
    ensures t == s.(locks := s.locks["h" := w], workers := s.workers[w := Worker("h", i, Admitted(0, 1), 0, 0, 0, 0)])
  {
    steps, t := Extend(c, 1, before, s, Begin(w, "h", i));
    steps, t := Extend(c, 1, steps, t, Act(w, TakeLock));
    assert LiveOn(t.leases, "h") == {};
    steps, t := Extend(c, 1, steps, t, Act(w, ListLeases));
    steps, t := Extend(c, 1, steps, t, Act(w, ReadLimit));
  }

  /** And gets its slot. */
  lemma TakeSlot(c: Config, before: seq<Step>, s: State, w: Wid, i: Instance) returns (steps: seq<Step>, t: State)
    requires RunTo(c, 1, before, s) && Vacant(s) && w !in s.workers && c.ttl >= 1
    ensures RunTo(c, 1, steps, t)
    ensures t.workers == s.workers[w := Worker("h", i, Starting(s.nextLease), s.clock, 0, 0, 0)]
    ensures t.leases == map[("h", i) := Lease(s.nextLease, s.clock + c.ttl)]
    ensures t.locks == s.locks && t.clock == s.clock && t.limit == t.peak == 1
  {
    steps, t := Admission(c, before, s, w, i);
    steps, t := Extend(c, 1, steps, t, Act(w, GrantLease));
    steps, t := Extend(c, 1, steps, t, Act(w, CreateKey));
    steps, t := Extend(c, 1, steps, t, Act(w, ReturnSlot));
    assert t.locks == s.locks;
  }

  /** Only thread 0 exists, it holds the slot ("h", "a") granted at time 0, and it has spent this much. */
  predicate Alone(c: Config, s: State, pc: Pc, calls: nat, waited: nat, cooled: nat) {
    && s.workers == map[0 := Worker("h", "a", pc, 0, calls, waited, cooled)]
    && s.leases == map[("h", "a") := Lease(0, c.ttl)]
    && s.clock == calls + waited + cooled
    && s.locks == map[] && s.limit == 1 && s.peak == 1
  }

  /** Time passes for the only thread. */
  lemma Linger(c: Config, before: seq<Step>, s: State, d: nat) returns (steps: seq<Step>, t: State)
    requires RunTo(c, 1, before, s) && s.workers.Keys == {0} && OnTime(c, Elapse(s.workers[0], d))
    ensures RunTo(c, 1, steps, t)
    ensures t == s.(clock := s.clock + d, workers := map[0 := Elapse(s.workers[0], d)])
  {
    steps, t := Extend(c, 1, before, s, Tick(d));
    assert t.workers == map[0 := Elapse(s.workers[0], d)];
  }

  /** The first holder uses its whole call budget and its whole start timeout. */
  lemma SlowCalls(c: Config) returns (steps: seq<Step>, s: State)
    requires c.ttl >= 1
    ensures RunTo(c, 1, steps, s) && Alone(c, s, AwaitingActive(0), c.callBudget, 0, 0)
  {
    steps, s := TakeSlot(c, [], Init(1), 0, "a");
    assert Alone(c, s, Starting(0), 0, 0, 0);
    steps, s := Linger(c, steps, s, c.callBudget);
    steps, s := Extend(c, 1, steps, s, Act(0, AwaitResult));
  }

  lemma SlowStart(c: Config) returns (steps: seq<Step>, s: State)
    requires c.ttl >= 1
    ensures RunTo(c, 1, steps, s) && Alone(c, s, Recording(0), c.callBudget, c.startTimeout, 0)
  {
    steps, s := SlowCalls(c);
    steps, s := Linger(c, steps, s, c.startTimeout);
    steps, s := Extend(c, 1, steps, s, Act(0, StartEnded));
  }

  /** And its whole batch delay, by which time its lease has run out. */
  lemma LeaseRunsOut(c: Config) returns (steps: seq<Step>, s: State)
    requires c.ttl >= 1 && !CallsFitMargin(c)
    ensures RunTo(c, 1, steps, s) && Vacant(s)
    ensures s.workers.Keys == {0} && s.workers[0].host == "h" && s.workers[0].pc == Cooling(0)
  {
    steps, s := SlowStart(c);
    steps, s := Extend(c, 1, steps, s, Act(0, BeginCooling));
    assert Alone(c, s, Cooling(0), c.callBudget, c.startTimeout, 0);
    steps, s := Linger(c, steps, s, c.batchDelay);
    assert s.leases - {("h", "a")} == map[];
    steps, s := Extend(c, 1, steps, s, Expire(("h", "a")));
  }

  lemma BothInFlight(s: State, v: Wid, w: Wid)
    requires v in s.workers && w in s.workers && v != w && s.workers[v].host == s.workers[w].host
    requires s.workers[v].pc.Cooling? && s.workers[w].pc.Starting?
    ensures |InFlight(s, s.workers[v].host)| > 1
  {
    TwoMembers(InFlight(s, s.workers[v].host), v, w);
  }

  /** When the calls do not fit, one start outlives its lease and a second one joins it under limit 1. */
  lemma OverrunBreaksLimit(c: Config)
    requires c.ttl >= 1 && !CallsFitMargin(c)
    ensures exists steps, s :: RunTo(c, 1, steps, s) && LargestLimit(1, steps) == 1 && |InFlight(s, "h")| > 1
  {
    var steps, s := LeaseRunsOut(c);
    steps, s := TakeSlot(c, steps, s, 1, "b");
    BothInFlight(s, 0, 1);
    PeakIsLargest(c, Init(1), steps);
  }

  /**
   * Exactly when the slots bound the starts in flight: for every lease of at least one time unit,
   * every run keeps every host within the largest limit in force if and only if the calls of a
   * holder fit strictly inside slot_lease_ttl - (start_timeout + batch_delay).
   */
  lemma LimitHoldsIffCallsFit(c: Config)
    requires c.ttl >= 1
    ensures CallsFitMargin(c) <==>
            forall limit, steps, s, h :: RunTo(c, limit, steps, s) ==> |InFlight(s, h)| <= LargestLimit(limit, steps)
  {
    if CallsFitMargin(c) {
      forall limit, steps, s, h | RunTo(c, limit, steps, s) ensures |InFlight(s, h)| <= LargestLimit(limit, steps) {
        StartsInFlightWithinLimit(c, limit, steps, s, h);
      }
    } else {
      OverrunBreaksLimit(c);
    }
  }

  /**
   * The validation of the lease time is necessary but not sufficient: a lease of exactly
   * start_timeout + batch_delay is accepted, and even calls that take no time break the limit.
   */
  lemma AcceptedTtlIsNotEnough(c: Config)
    ensures CallsFitMargin(c) ==> TtlAccepted(c)
    ensures c.ttl == c.startTimeout + c.batchDelay >= 1 ==>
              TtlAccepted(c) && exists steps, s :: RunTo(c, 1, steps, s) && LargestLimit(1, steps) == 1 && |InFlight(s, "h")| > 1
  {
    if c.ttl == c.startTimeout + c.batchDelay >= 1 {
      OverrunBreaksLimit(c);
    }
  }

  // ---------------------------------------------------------------- the program of one thread

  /**
   * The shared etcd, as one thread meets it: before each of its calls any number of steps of the
   * other threads and of the environment happen.  `schedule` lists them, one batch a call, and
   * `replies` says how the thread's own calls end.
   */
  class Cluster {
    const config: Config
    const replies: nat -> Reply
    ghost const first: State
    var now: State
    var schedule: seq<seq<Step>>
    var calls: nat
    ghost var history: seq<Step>

    ghost predicate Valid()
      reads this
    {
      Exec(config, first, history) == Reached(now)
    }

    constructor (config: Config, limit: nat, replies: nat -> Reply, schedule: seq<seq<Step>>)
      ensures Valid() && first == Init(limit) && history == []
    {
      this.config := config;
      this.first := Init(limit);
      this.now := Init(limit);
      this.schedule := schedule;
      this.replies := replies;
      this.calls := 0;
      this.history := [];
    }

    /** The others do nothing. */
    ghost predicate Quiet()
      reads `schedule
    {
      forall k :: 0 <= k < |schedule| ==> schedule[k] == []
    }

    /** No call of the thread raises. */
    ghost predicate Smooth() {
      forall k :: replies(k).Fine?
    }

    method NextReply() returns (reply: Reply)
      modifies `calls
      ensures Smooth() ==> reply.Fine?
    {
      reply := replies(calls);
      calls := calls + 1;
    }

    /** The state after the run so far, extended by one more step. */
    method Perform(step: Step)
      requires Valid() && Enabled(config, now, step)
      modifies `now, `history
      ensures Valid() && now == Apply(config, old(now), step) && history == old(history) + [step]
    {
      ExecAppend(config, first, history, [step]);
      assert [step][1..] == [];
      now := Apply(config, now, step);
      history := history + [step];
    }

    /** One batch of steps that are not the thread's own; those not enabled do not happen. */
    method Others(w: Wid)
      requires Valid() && w in now.workers
      modifies this
      ensures Valid() && w in now.workers && SameThread(old(now.workers[w]), now.workers[w])
      ensures |schedule| < old(|schedule|) || schedule == old(schedule) == []
      ensures NotBy(w, old(history), history)
      ensures old(Quiet()) ==> Quiet() && now == old(now)
    {
      if schedule == [] { return; }
      var batch := schedule[0];
      schedule := schedule[1..];
      var k := 0;
      while k < |batch|
        invariant Valid() && w in now.workers && SameThread(old(now.workers[w]), now.workers[w])
        invariant schedule == old(schedule)[1..]
        invariant NotBy(w, old(history), history)
        invariant batch == [] ==> now == old(now)
      {
        if !StepOf(w, batch[k]) && Enabled(config, now, batch[k]) {
          Perform(batch[k]);
        }
        k := k + 1;
      }
    }
  }

  predicate StepOf(w: Wid, step: Step) {
    step.Act? && step.w == w
  }

  /** Only time passes for the thread while the others run. */
  predicate SameThread(a: Worker, b: Worker) {
    a.pc == b.pc && a.host == b.host && a.instance == b.instance && a.granted == b.granted
  }

  /** The history grew, and only by steps of others. */
  ghost predicate NotBy(w: Wid, before: seq<Step>, after: seq<Step>) {
    before <= after && forall k :: |before| <= k < |after| ==> !StepOf(w, after[k])
  }

  /** The state before step number k of a run. */
  ghost function Before(c: Config, first: State, steps: seq<Step>, k: nat): State
    requires k <= |steps|
  {
    if Exec(c, first, steps[..k]).Reached? then Exec(c, first, steps[..k]).state else first
  }

  /** The live leases that the thread listed at step i were as many as the limit it read at step j, or more. */
  ghost predicate ListedFull(c: Config, first: State, steps: seq<Step>, w: Wid, host: Host, i: nat, j: nat) {
    && i < j < |steps| && steps[i] == Act(w, ListLeases) && steps[j] == Act(w, ReadLimit)
    && |LiveOn(Before(c, first, steps, i).leases, host)| >= Before(c, first, steps, j).limit
  }

  /** The thread tried to create its key at step k, and it was there. */
  ghost predicate KeyThere(c: Config, first: State, steps: seq<Step>, w: Wid, key: LeaseKey, k: nat) {
    k < |steps| && steps[k] == Act(w, CreateKey) && key in Before(c, first, steps, k).leases
  }

  /** From step a on the thread found its host full or its key taken. */
  ghost predicate FullOrTaken(c: Config, first: State, steps: seq<Step>, w: Wid, key: LeaseKey, a: nat) {
    || (exists i, j :: a <= i && ListedFull(c, first, steps, w, key.0, i, j))
    || (exists k :: a <= k && KeyThere(c, first, steps, w, key, k))
  }

  ghost predicate NoTake(steps: seq<Step>, w: Wid, a: nat, b: nat) {
    a <= b <= |steps| && forall k :: a <= k < b ==> steps[k] != Act(w, TakeLock)
  }

  /** The round that began at step k found the host full or the key taken. */
  ghost predicate RoundDenied(c: Config, first: State, steps: seq<Step>, w: Wid, key: LeaseKey, k: nat) {
    exists m: nat :: k < m <= |steps| && NoTake(steps, w, k + 1, m) && FullOrTaken(c, first, steps[..m], w, key, k + 1)
  }

  /** Every round from step a on did. */
  ghost predicate AllDenied(c: Config, first: State, steps: seq<Step>, w: Wid, key: LeaseKey, a: nat) {
    forall k :: a <= k < |steps| && steps[k] == Act(w, TakeLock) ==> RoundDenied(c, first, steps, w, key, k)
  }

  /** Before some step from a on the lock of the host was held. */
  ghost predicate LockSeen(c: Config, first: State, steps: seq<Step>, host: Host, a: nat) {
    exists k :: a <= k <= |steps| && host in Before(c, first, steps, k).locks
  }

  lemma BeforeLater(c: Config, first: State, a: seq<Step>, b: seq<Step>, k: nat)
    requires a <= b && k <= |a|
    ensures Before(c, first, b, k) == Before(c, first, a, k)
  {
    assert b[..k] == a[..k];
  }

  lemma FullLater(c: Config, first: State, a: seq<Step>, b: seq<Step>, w: Wid, key: LeaseKey, from: nat)
    requires a <= b && FullOrTaken(c, first, a, w, key, from)
    ensures FullOrTaken(c, first, b, w, key, from)
  {
    if i, j :| from <= i && ListedFull(c, first, a, w, key.0, i, j) {
      BeforeLater(c, first, a, b, i);
      BeforeLater(c, first, a, b, j);
      assert ListedFull(c, first, b, w, key.0, i, j);
    } else {
      var k :| from <= k && KeyThere(c, first, a, w, key, k);
      BeforeLater(c, first, a, b, k);
      assert KeyThere(c, first, b, w, key, k);
    }
  }

  /** One more round, which took the lock at the end of b and was denied. */
  lemma OneMoreDenied(c: Config, first: State, a: seq<Step>, b: seq<Step>, w: Wid, key: LeaseKey, from: nat)
    requires a < b && AllDenied(c, first, a, w, key, from)
    requires exists k: nat :: |a| <= k < |b| && b[k] == Act(w, TakeLock) && NoTake(b, w, |a|, k)
                              && NoTake(b, w, k + 1, |b|) && FullOrTaken(c, first, b, w, key, k + 1)
    ensures AllDenied(c, first, b, w, key, from)
  {
    assert b[..|b|] == b;
    var t: nat :| |a| <= t < |b| && b[t] == Act(w, TakeLock) && NoTake(b, w, |a|, t)
                  && NoTake(b, w, t + 1, |b|) && FullOrTaken(c, first, b, w, key, t + 1);
    forall k | from <= k < |b| && b[k] == Act(w, TakeLock) ensures RoundDenied(c, first, b, w, key, k) {
      if k < |a| {
        assert a[k] == Act(w, TakeLock);
        DeniedLater(c, first, a, b, w, key, k);
      } else {
        assert k == t && FullOrTaken(c, first, b[..|b|], w, key, k + 1);
      }
    }
  }

  lemma DeniedLater(c: Config, first: State, a: seq<Step>, b: seq<Step>, w: Wid, key: LeaseKey, k: nat)
    requires a <= b && RoundDenied(c, first, a, w, key, k)
    ensures RoundDenied(c, first, b, w, key, k)
  {
    var m: nat :| k < m <= |a| && NoTake(a, w, k + 1, m) && FullOrTaken(c, first, a[..m], w, key, k + 1);
    assert b[..m] == a[..m];
    assert NoTake(b, w, k + 1, m);
  }

  /** Steps of others are no rounds of the thread. */
  lemma OthersDenied(c: Config, first: State, a: seq<Step>, b: seq<Step>, w: Wid, key: LeaseKey, from: nat)
    requires a <= b && NoTake(b, w, |a|, |b|) && AllDenied(c, first, a, w, key, from)
    ensures AllDenied(c, first, b, w, key, from)
  {
    forall k | from <= k < |b| && b[k] == Act(w, TakeLock) ensures RoundDenied(c, first, b, w, key, k) {
      assert k < |a| && a[k] == Act(w, TakeLock);
      DeniedLater(c, first, a, b, w, key, k);
    }
  }

  /** The calls that a thread at pc may make whatever the others did in the meantime. */
  predicate Ready(pc: Pc, action: Action) {
    match action
    case ListLeases => pc.Locked?
    case ReadLimit => pc.Listed?
    case GrantLease => pc.Admitted?
    case SleepRetry => pc.Denied?
    case ReturnSlot => pc.Created?
    case _ => false
  }

  /** Where such a call takes the thread. */
  predicate Leads(pc: Pc, action: Action, next: Pc) {
    match action
    case ListLeases => next.Listed?
    case ReadLimit => next.Denied? || next.Admitted?
    case GrantLease => next.Granted?
    case SleepRetry => next.Waiting?
    case ReturnSlot => pc.Created? && next == Starting(pc.lease)
    case _ => false
  }

  /** The last step of the history is this one of the thread, made in the state at, after steps of others. */
  ghost predicate Made(cluster: Cluster, w: Wid, action: Action, before: seq<Step>, at: State)
    reads cluster
  {
    && |before| < |cluster.history| && before <= cluster.history
    && cluster.history[|cluster.history| - 1] == Act(w, action)
    && Before(cluster.config, cluster.first, cluster.history, |cluster.history| - 1) == at
    && NotBy(w, before, cluster.history[..|cluster.history| - 1])
  }

  /** A call inside the lock that may raise instead; what a lost read or grant did is of no consequence. */
  method TryCall(cluster: Cluster, w: Wid, action: Action) returns (ok: bool, ghost at: State)
    requires cluster.Valid() && w in cluster.now.workers && Ready(cluster.now.workers[w].pc, action)
               && InLock(cluster.now.workers[w].pc)
    modifies cluster
    ensures cluster.Valid() && old(cluster.history) <= cluster.history && |cluster.schedule| <= old(|cluster.schedule|)
    ensures w in cluster.now.workers && SameTarget(old(cluster.now.workers[w]), cluster.now.workers[w])
    ensures if ok then Leads(old(cluster.now.workers[w].pc), action, cluster.now.workers[w].pc)
            else cluster.now.workers[w].pc.Done? && !cluster.Smooth()
    ensures Made(cluster, w, if ok then action else AcquireRaises, old(cluster.history), at)
    ensures w in at.workers && SameThread(old(cluster.now.workers[w]), at.workers[w])
    ensures ok ==> Enabled(cluster.config, at, Act(w, action)) && cluster.now == Apply(cluster.config, at, Act(w, action))
    ensures old(cluster.Quiet()) ==> cluster.Quiet() && at == old(cluster.now)
  {
    cluster.Others(w);
    at := cluster.now;
    ghost var found := cluster.history;
    var reply := cluster.NextReply();
    ok := reply.Fine?;
    cluster.Perform(Act(w, if ok then action else AcquireRaises));
    assert cluster.history[..|found|] == found;
  }

  /** The same, where only the place it leads to matters. */
  method TryStep(cluster: Cluster, w: Wid, action: Action) returns (ok: bool)
    requires cluster.Valid() && w in cluster.now.workers && Ready(cluster.now.workers[w].pc, action)
               && InLock(cluster.now.workers[w].pc)
    modifies cluster
    ensures cluster.Valid() && old(cluster.history) <= cluster.history && |cluster.schedule| <= old(|cluster.schedule|)
    ensures w in cluster.now.workers && SameTarget(old(cluster.now.workers[w]), cluster.now.workers[w])
    ensures if ok then Leads(old(cluster.now.workers[w].pc), action, cluster.now.workers[w].pc)
            else cluster.now.workers[w].pc.Done? && !cluster.Smooth()
    ensures NoTakeSince(cluster, w, old(cluster.history))
  {
    ghost var at;
    ok, at := TryCall(cluster, w, action);
  }

  predicate SameTarget(a: Worker, b: Worker) {
    a.host == b.host && a.instance == b.instance
  }

  datatype Acquired =
    | Slot(lease: nat)          // acquire returned a slot
    | Raised                    // an exception left acquire
    | StillWaiting              // the schedule ended with the thread still in its retry loop

  /** The lease granted to the thread ran out before its key was created. */
  predicate LeaseLost(c: Config, s: State, w: Wid) {
    w in s.workers && s.clock >= s.workers[w].granted + c.ttl
  }

  /** Why acquire may raise: one of its calls did, or its lease was gone when the key was to be created. */
  ghost predicate MayRaise(cluster: Cluster, w: Wid)
    reads cluster
  {
    cluster.Smooth() ==> LeaseLost(cluster.config, cluster.now, w)
  }

  /** Where the guarded part of a round ends: with the key, without a slot, or with an exception. */
  ghost predicate RoundEnds(cluster: Cluster, w: Wid)
    reads cluster
  {
    w in cluster.now.workers
    && match cluster.now.workers[w].pc
       case Created(_) => true
       case Denied => true
       case Done => MayRaise(cluster, w)
       case _ => false
  }

  /** An exception leaves acquire. */
  method Raise(cluster: Cluster, w: Wid)
    requires cluster.Valid() && w in cluster.now.workers && InLock(cluster.now.workers[w].pc)
    modifies cluster`now, cluster`history
    ensures cluster.Valid() && cluster.history == old(cluster.history) + [Act(w, AcquireRaises)]
    ensures w in cluster.now.workers && cluster.now.workers[w] == old(cluster.now.workers[w]).(pc := Done)
    ensures cluster.now.leases == old(cluster.now.leases) && cluster.now.clock == old(cluster.now.clock)
  {
    cluster.Perform(Act(w, AcquireRaises));
  }

  /** The steps from a history on are none of taking the lock. */
  ghost predicate NoTakeSince(cluster: Cluster, w: Wid, before: seq<Step>)
    reads cluster
  {
    before <= cluster.history && NoTake(cluster.history, w, |before|, |cluster.history|)
  }

  /** The create of the key takes effect, unless it is there. */
  method WriteKey(cluster: Cluster, w: Wid)
    requires cluster.Valid() && w in cluster.now.workers && CanAct(cluster.config, cluster.now, cluster.now.workers[w], CreateKey)
    modifies cluster`now, cluster`history
    ensures cluster.Valid() && cluster.history == old(cluster.history) + [Act(w, CreateKey)]
    ensures w in cluster.now.workers && SameTarget(old(cluster.now.workers[w]), cluster.now.workers[w])
    ensures KeyOf(cluster.now.workers[w]) in cluster.now.leases
    ensures var key := KeyOf(old(cluster.now.workers[w]));
            if key in old(cluster.now.leases)
            then cluster.now.workers[w].pc.Denied?
                 && KeyThere(cluster.config, cluster.first, cluster.history, w, key, |old(cluster.history)|)
            else cluster.now.workers[w].pc.Created?
  {
    ghost var found, at := cluster.history, cluster.now;
    cluster.Perform(Act(w, CreateKey));
    assert cluster.history[..|found|] == found;
    assert Before(cluster.config, cluster.first, cluster.history, |found|) == at;
  }

  lemma ThereIsDenied(c: Config, first: State, a: seq<Step>, b: seq<Step>, w: Wid, key: LeaseKey, from: nat, k: nat)
    requires a <= b && from <= k && KeyThere(c, first, a, w, key, k)
    ensures FullOrTaken(c, first, b, w, key, from)
  {
    BeforeLater(c, first, a, b, k);
    assert KeyThere(c, first, b, w, key, k);
  }

  /** The create of the key: its answer may be lost, and then the key stays behind until its lease runs out. */
  method CreateTheKey(cluster: Cluster, w: Wid)
    requires cluster.Valid() && w in cluster.now.workers && cluster.now.workers[w].pc.Granted?
    modifies cluster
    ensures cluster.Valid() && old(cluster.history) <= cluster.history && |cluster.schedule| <= old(|cluster.schedule|)
    ensures RoundEnds(cluster, w) && SameTarget(old(cluster.now.workers[w]), cluster.now.workers[w])
    ensures cluster.now.workers[w].pc.Created? ==>
              |cluster.history| > |old(cluster.history)| && cluster.history[|cluster.history| - 1] == Act(w, CreateKey)
    ensures cluster.now.workers[w].pc.Done? && Act(w, CreateKey) in cluster.history[|old(cluster.history)|..] ==>
              KeyOf(cluster.now.workers[w]) in cluster.now.leases && !cluster.Smooth()
    ensures NoTakeSince(cluster, w, old(cluster.history))
    ensures cluster.now.workers[w].pc.Denied? ==>
              FullOrTaken(cluster.config, cluster.first, cluster.history, w, KeyOf(old(cluster.now.workers[w])), |old(cluster.history)|)
    ensures old(cluster.Quiet()) && cluster.Smooth() && KeyOf(old(cluster.now.workers[w])) !in old(cluster.now.leases)
            && old(cluster.now.clock < cluster.now.workers[w].granted + cluster.config.ttl) ==>
              cluster.Quiet() && cluster.now.workers[w].pc.Created?
  {
    cluster.Others(w);
    var reply := cluster.NextReply();
    var worker := cluster.now.workers[w];
    ghost var others := cluster.history;
    if reply.Refused? || cluster.now.clock >= worker.granted + cluster.config.ttl {
      Raise(cluster, w);
      NewSteps(Act(w, CreateKey), old(cluster.history), others, cluster.history);
      assert cluster.history[|others|..] == [Act(w, AcquireRaises)];
    } else {
      WriteOrLose(cluster, w, reply, |old(cluster.history)|);
    }
  }

  /** The create reaches etcd; when its answer is lost, an exception leaves acquire. */
  method WriteOrLose(cluster: Cluster, w: Wid, reply: Reply, ghost from: nat)
    requires cluster.Valid() && w in cluster.now.workers && CanAct(cluster.config, cluster.now, cluster.now.workers[w], CreateKey)
    requires !reply.Refused? && from <= |cluster.history|
    modifies cluster`now, cluster`history
    ensures cluster.Valid() && w in cluster.now.workers && SameTarget(old(cluster.now.workers[w]), cluster.now.workers[w])
    ensures cluster.history == old(cluster.history) + if reply.Fine? then [Act(w, CreateKey)] else [Act(w, CreateKey), Act(w, AcquireRaises)]
    ensures KeyOf(cluster.now.workers[w]) in cluster.now.leases
    ensures var pc := cluster.now.workers[w].pc;
            if reply.Lost? then pc.Done?
            else if KeyOf(old(cluster.now.workers[w])) in old(cluster.now.leases) then pc.Denied? else pc.Created?
    ensures cluster.now.workers[w].pc.Denied? ==>
              FullOrTaken(cluster.config, cluster.first, cluster.history, w, KeyOf(old(cluster.now.workers[w])), from)
  {
    ghost var found, key := cluster.history, KeyOf(cluster.now.workers[w]);
    WriteKey(cluster, w);
    if reply.Lost? {
      Raise(cluster, w);
    } else if cluster.now.workers[w].pc.Denied? {
      ThereIsDenied(cluster.config, cluster.first, cluster.history, cluster.history, w, key, from, |found|);
    }
  }

  /** The guarded part of one round: grant a lease and create the key with it. */
  method CreateLease(cluster: Cluster, w: Wid)
    requires cluster.Valid() && w in cluster.now.workers && cluster.now.workers[w].pc.Admitted?
    modifies cluster
    ensures cluster.Valid() && old(cluster.history) <= cluster.history && |cluster.schedule| <= old(|cluster.schedule|)
    ensures RoundEnds(cluster, w) && SameTarget(old(cluster.now.workers[w]), cluster.now.workers[w])
    ensures cluster.now.workers[w].pc.Created? ==>
              |cluster.history| > |old(cluster.history)| && cluster.history[|cluster.history| - 1] == Act(w, CreateKey)
    ensures NoTakeSince(cluster, w, old(cluster.history))
    ensures cluster.now.workers[w].pc.Denied? ==>
              FullOrTaken(cluster.config, cluster.first, cluster.history, w, KeyOf(old(cluster.now.workers[w])), |old(cluster.history)|)
    ensures old(cluster.Quiet()) && cluster.Smooth() && KeyOf(old(cluster.now.workers[w])) !in old(cluster.now.leases)
            && cluster.config.ttl >= 1 ==>
              cluster.Quiet() && cluster.now.workers[w].pc.Created?
  {
    var granted;
    ghost var at;
    granted, at := TryCall(cluster, w, GrantLease);
    if granted { CreateTheKey(cluster, w); }
  }

  datatype LockTry = Taken | Busy | LockRaised

  /** The lock call: it blocks while another thread holds the lock of the host, and it may raise. */
  method TakeHostLock(cluster: Cluster, w: Wid) returns (r: LockTry)
    requires cluster.Valid() && w in cluster.now.workers && cluster.now.workers[w].pc.Waiting?
    modifies cluster
    ensures cluster.Valid() && old(cluster.history) <= cluster.history
    ensures |cluster.schedule| < old(|cluster.schedule|) || cluster.schedule == old(cluster.schedule) == []
    ensures w in cluster.now.workers && SameTarget(old(cluster.now.workers[w]), cluster.now.workers[w])
    ensures match r
            case Taken => cluster.now.workers[w].pc.Locked?
            case Busy => cluster.now.workers[w].pc.Waiting?
            case LockRaised => cluster.now.workers[w].pc.Done? && !cluster.Smooth()
    ensures r.Taken? ==> |cluster.history| > |old(cluster.history)|
                         && cluster.history[|cluster.history| - 1] == Act(w, TakeLock)
                         && NoTake(cluster.history, w, |old(cluster.history)|, |cluster.history| - 1)
    ensures r.Busy? ==> NoTakeSince(cluster, w, old(cluster.history))
                        && old(cluster.now.workers[w]).host in cluster.now.locks
    ensures old(cluster.Quiet()) ==> cluster.Quiet() && cluster.now.leases == old(cluster.now.leases)
                                     && cluster.now.limit == old(cluster.now.limit)
                                     && (cluster.Smooth() ==> (r.Taken? <==> old(cluster.now.workers[w].host !in cluster.now.locks)))
  {
    cluster.Others(w);
    var reply := cluster.NextReply();
    if !reply.Fine? {
      cluster.Perform(Act(w, AcquireRaises));
      return LockRaised;
    }
    if cluster.now.workers[w].host in cluster.now.locks { return Busy; }
    cluster.Perform(Act(w, TakeLock));
    return Taken;
  }

  /** The list and the comparison with the limit; true when the round goes on to create its key. */
  method Compare(cluster: Cluster, w: Wid) returns (admitted: bool)
    requires cluster.Valid() && w in cluster.now.workers && cluster.now.workers[w].pc.Locked?
    modifies cluster
    ensures cluster.Valid() && old(cluster.history) <= cluster.history && |cluster.schedule| <= old(|cluster.schedule|)
    ensures w in cluster.now.workers && SameTarget(old(cluster.now.workers[w]), cluster.now.workers[w])
    ensures if admitted then cluster.now.workers[w].pc.Admitted? else RoundEnds(cluster, w) && !cluster.now.workers[w].pc.Created?
    ensures NoTakeSince(cluster, w, old(cluster.history))
    ensures cluster.now.workers[w].pc.Denied? ==>
              FullOrTaken(cluster.config, cluster.first, cluster.history, w, KeyOf(old(cluster.now.workers[w])), |old(cluster.history)|)
    ensures old(cluster.Quiet()) && cluster.Smooth() ==>
              cluster.Quiet() && cluster.now.leases == old(cluster.now.leases)
              && (admitted <==> |LiveOn(old(cluster.now.leases), old(cluster.now.workers[w]).host)| < old(cluster.now.limit))
  {
    var ok;
    ghost var at;
    ok, at := TryCall(cluster, w, ListLeases);
    if !ok { return false; }
    admitted := CompareWithLimit(cluster, w, |old(cluster.history)|);
  }

  /** The comparison with the limit, right after the listing. */
  method CompareWithLimit(cluster: Cluster, w: Wid, ghost from: nat) returns (admitted: bool)
    requires cluster.Valid() && w in cluster.now.workers && cluster.now.workers[w].pc.Listed?
    requires from < |cluster.history| && cluster.history[|cluster.history| - 1] == Act(w, ListLeases)
    requires var at := Before(cluster.config, cluster.first, cluster.history, |cluster.history| - 1);
             cluster.now.workers[w].pc.count == |LiveOn(at.leases, cluster.now.workers[w].host)|
    modifies cluster
    ensures cluster.Valid() && old(cluster.history) <= cluster.history && |cluster.schedule| <= old(|cluster.schedule|)
    ensures w in cluster.now.workers && SameTarget(old(cluster.now.workers[w]), cluster.now.workers[w])
    ensures if admitted then cluster.now.workers[w].pc.Admitted? else RoundEnds(cluster, w) && !cluster.now.workers[w].pc.Created?
    ensures NoTakeSince(cluster, w, old(cluster.history))
    ensures cluster.now.workers[w].pc.Denied? ==>
              FullOrTaken(cluster.config, cluster.first, cluster.history, w, KeyOf(old(cluster.now.workers[w])), from)
    ensures old(cluster.Quiet()) && cluster.Smooth() ==>
              cluster.Quiet() && cluster.now.leases == old(cluster.now.leases)
              && (admitted <==> old(cluster.now.workers[w]).pc.count < old(cluster.now.limit))
  {
    ghost var listed := cluster.history;
    var ok;
    ghost var at;
    ok, at := TryCall(cluster, w, ReadLimit);
    if !ok { return false; }
    admitted := cluster.now.workers[w].pc.Admitted?;
    if !admitted {
      ListedIsDenied(cluster.config, cluster.first, listed, cluster.history, w, KeyOf(cluster.now.workers[w]), from);
    }
  }

  /** The listing was made at the end of a, the limit read at the end of b. */
  lemma ListedIsDenied(c: Config, first: State, a: seq<Step>, b: seq<Step>, w: Wid, key: LeaseKey, from: nat)
    requires from < |a| < |b| && a <= b && a[|a| - 1] == Act(w, ListLeases) && b[|b| - 1] == Act(w, ReadLimit)
    requires |LiveOn(Before(c, first, a, |a| - 1).leases, key.0)| >= Before(c, first, b, |b| - 1).limit
    ensures FullOrTaken(c, first, b, w, key, from)
  {
    BeforeLater(c, first, a, b, |a| - 1);
    assert ListedFull(c, first, b, w, key.0, |a| - 1, |b| - 1);
  }

  /** The body of the with statement. */
  method CompareAndCreate(cluster: Cluster, w: Wid)
    requires cluster.Valid() && w in cluster.now.workers && cluster.now.workers[w].pc.Locked?
    modifies cluster
    ensures cluster.Valid() && old(cluster.history) <= cluster.history && |cluster.schedule| <= old(|cluster.schedule|)
    ensures RoundEnds(cluster, w) && SameTarget(old(cluster.now.workers[w]), cluster.now.workers[w])
    ensures cluster.now.workers[w].pc.Created? ==>
              |cluster.history| > |old(cluster.history)| && cluster.history[|cluster.history| - 1] == Act(w, CreateKey)
    ensures NoTakeSince(cluster, w, old(cluster.history))
    ensures cluster.now.workers[w].pc.Denied? ==>
              FullOrTaken(cluster.config, cluster.first, cluster.history, w, KeyOf(old(cluster.now.workers[w])), |old(cluster.history)|)
    ensures old(cluster.Quiet()) && cluster.Smooth() && old(HasRoom(cluster.config, cluster.now, w)) ==>
              cluster.Quiet() && cluster.now.workers[w].pc.Created?
  {
    var admitted := Compare(cluster, w);
    if admitted { CreateLease(cluster, w); }
  }

  /** There is room for one more start on the thread's host, its key is free, and a lease lasts at all. */
  predicate HasRoom(c: Config, s: State, w: Wid)
    requires w in s.workers
  {
    |LiveOn(s.leases, s.workers[w].host)| < s.limit && KeyOf(s.workers[w]) !in s.leases && c.ttl >= 1
  }

  /**
   * One round of the retry loop with the lock in hand.  It goes back to waiting only if the live
   * leases it listed were as many as the limit it read, or its key was there when it was to be
   * created; so when no call raises and nobody interferes, it returns a slot if there is room.
   */
  method Round(cluster: Cluster, w: Wid) returns (r: Acquired)
    requires cluster.Valid() && w in cluster.now.workers && cluster.now.workers[w].pc.Locked?
    modifies cluster
    ensures cluster.Valid() && old(cluster.history) <= cluster.history && |cluster.schedule| <= old(|cluster.schedule|)
    ensures w in cluster.now.workers && SameTarget(old(cluster.now.workers[w]), cluster.now.workers[w])
    ensures match r
            case Slot(lease) => cluster.now.workers[w].pc == Starting(lease)
                                && Act(w, CreateKey) in cluster.history[|old(cluster.history)|..]
            case Raised => cluster.now.workers[w].pc.Done? && MayRaise(cluster, w)
            case StillWaiting => cluster.now.workers[w].pc.Waiting?
    ensures NoTakeSince(cluster, w, old(cluster.history))
    ensures r.StillWaiting? ==>
              FullOrTaken(cluster.config, cluster.first, cluster.history, w, KeyOf(old(cluster.now.workers[w])), |old(cluster.history)|)
    ensures old(cluster.Quiet()) && cluster.Smooth() && old(HasRoom(cluster.config, cluster.now, w)) ==> r.Slot?
  {
    ghost var key, begun := KeyOf(cluster.now.workers[w]), cluster.history;
    CompareAndCreate(cluster, w);
    if cluster.now.workers[w].pc.Done? { return Raised; }
    ghost var done := cluster.history;
    if cluster.now.workers[w].pc.Denied? {
      r := GoBack(cluster, w, key, |begun|);
    } else {
      r := TakeSlotOut(cluster, w);
      assert cluster.history[|begun|..][|done| - 1 - |begun|] == Act(w, CreateKey);
    }
  }

  /** Without a slot, the thread leaves the lock and sleeps. */
  method GoBack(cluster: Cluster, w: Wid, ghost key: LeaseKey, ghost from: nat) returns (r: Acquired)
    requires cluster.Valid() && w in cluster.now.workers && cluster.now.workers[w].pc.Denied?
    requires FullOrTaken(cluster.config, cluster.first, cluster.history, w, key, from)
    modifies cluster
    ensures cluster.Valid() && old(cluster.history) <= cluster.history && |cluster.schedule| <= old(|cluster.schedule|)
    ensures w in cluster.now.workers && SameTarget(old(cluster.now.workers[w]), cluster.now.workers[w])
    ensures match r
            case Slot(lease) => false
            case Raised => cluster.now.workers[w].pc.Done? && !cluster.Smooth()
            case StillWaiting => cluster.now.workers[w].pc.Waiting?
    ensures NoTakeSince(cluster, w, old(cluster.history))
    ensures FullOrTaken(cluster.config, cluster.first, cluster.history, w, key, from)
  {
    ghost var done := cluster.history;
    var left := TryStep(cluster, w, SleepRetry);
    FullLater(cluster.config, cluster.first, done, cluster.history, w, key, from);
    r := if left then StillWaiting else Raised;
  }

  /** With its key created, the thread leaves the lock and returns its slot. */
  method TakeSlotOut(cluster: Cluster, w: Wid) returns (r: Acquired)
    requires cluster.Valid() && w in cluster.now.workers && cluster.now.workers[w].pc.Created?
    modifies cluster
    ensures cluster.Valid() && old(cluster.history) <= cluster.history && |cluster.schedule| <= old(|cluster.schedule|)
    ensures w in cluster.now.workers && SameTarget(old(cluster.now.workers[w]), cluster.now.workers[w])
    ensures match r
            case Slot(lease) => cluster.now.workers[w].pc == Starting(lease)
            case Raised => cluster.now.workers[w].pc.Done? && !cluster.Smooth()
            case StillWaiting => false
    ensures NoTakeSince(cluster, w, old(cluster.history))
  {
    var returned := TryStep(cluster, w, ReturnSlot);
    return if returned then Slot(cluster.now.workers[w].pc.lease) else Raised;
  }

  /** Every round since then was denied. */
  ghost predicate Refused(cluster: Cluster, w: Wid, key: LeaseKey, before: seq<Step>)
    reads cluster
  {
    AllDenied(cluster.config, cluster.first, cluster.history, w, key, |before|)
  }

  /** There was a round since then, or the lock of the host was held. */
  ghost predicate Tried(cluster: Cluster, w: Wid, host: Host, before: seq<Step>)
    requires before <= cluster.history
    reads cluster
  {
    || Act(w, TakeLock) in cluster.history[|before|..]
    || LockSeen(cluster.config, cluster.first, cluster.history, host, |before|)
  }

  /** One turn of the loop; done says that acquire ends with it. */
  method TryRound(cluster: Cluster, w: Wid, ghost from: seq<Step>) returns (r: Acquired, done: bool)
    requires cluster.Valid() && w in cluster.now.workers && cluster.now.workers[w].pc.Waiting?
    requires from <= cluster.history && Refused(cluster, w, KeyOf(cluster.now.workers[w]), from)
    modifies cluster
    ensures cluster.Valid() && old(cluster.history) <= cluster.history
    ensures |cluster.schedule| < old(|cluster.schedule|) || cluster.schedule == old(cluster.schedule) == []
    ensures w in cluster.now.workers && SameTarget(old(cluster.now.workers[w]), cluster.now.workers[w])
    ensures !done ==> cluster.now.workers[w].pc.Waiting? && Refused(cluster, w, KeyOf(old(cluster.now.workers[w])), from)
                      && Tried(cluster, w, old(cluster.now.workers[w]).host, from)
    ensures done ==> match r
                     case Slot(lease) => cluster.now.workers[w].pc == Starting(lease)
                                         && Act(w, CreateKey) in cluster.history[|old(cluster.history)|..]
                     case Raised => cluster.now.workers[w].pc.Done? && MayRaise(cluster, w)
                     case StillWaiting => false
    ensures old(cluster.Quiet()) && cluster.Smooth()
            && old(cluster.now.workers[w].host !in cluster.now.locks && HasRoom(cluster.config, cluster.now, w)) ==>
              done && r.Slot?
  {
    ghost var key, begun := KeyOf(cluster.now.workers[w]), cluster.history;
    var lock := TakeHostLock(cluster, w);
    if lock.LockRaised? { return Raised, true; }
    if lock.Busy? {
      OthersDenied(cluster.config, cluster.first, begun, cluster.history, w, key, |from|);
      HeldNow(cluster, key.0, |from|);
      return StillWaiting, false;
    }
    ghost var taken := cluster.history;
    r := Round(cluster, w);
    done := !r.StillWaiting?;
    if done {
      if r.Slot? { StillIn(Act(w, CreateKey), begun, taken, cluster.history); }
    } else {
      assert cluster.history[|taken| - 1] == Act(w, TakeLock);
      assert NoTake(cluster.history, w, |begun|, |taken| - 1);
      OneMoreDenied(cluster.config, cluster.first, begun, cluster.history, w, key, |from|);
      assert cluster.history[|from|..][|taken| - 1 - |from|] == Act(w, TakeLock);
    }
  }

  lemma HeldNow(cluster: Cluster, host: Host, a: nat)
    requires cluster.Valid() && host in cluster.now.locks && a <= |cluster.history|
    ensures LockSeen(cluster.config, cluster.first, cluster.history, host, a)
  {
    assert cluster.history[..|cluster.history|] == cluster.history;
    assert Before(cluster.config, cluster.first, cluster.history, |cluster.history|) == cluster.now;
  }

  /**
   * EtcdStartLimiter.acquire.  Every call it makes is an enabled step of the machine, in the order
   * of the source, and any of them may raise, so the machine's theorems hold for the program; the
   * lock is held at no exit, and a slot is held exactly when one is returned.  While it waits every
   * round found the host full or the key taken; when no call raises, nobody interferes and the lock
   * is free, a slot is returned if there is room for one more start.
   */
  method Acquire(cluster: Cluster, w: Wid, coordination: bool) returns (r: Acquired)
    requires cluster.Valid() && w in cluster.now.workers && cluster.now.workers[w].pc.Waiting?
    modifies cluster
    ensures cluster.Valid() && old(cluster.history) <= cluster.history
    ensures w in cluster.now.workers && SameTarget(old(cluster.now.workers[w]), cluster.now.workers[w])
    ensures !InLock(cluster.now.workers[w].pc)
    ensures Holding(cluster.now.workers[w].pc) <==> r.Slot?
    ensures r.Slot? ==> cluster.now.workers[w].pc == Starting(r.lease)
    ensures r.Slot? ==> Act(w, CreateKey) in cluster.history[|old(cluster.history)|..]
    ensures !coordination ==> r.Raised? && cluster.now == old(cluster.now)
    ensures coordination && r.Raised? ==> cluster.now.workers[w].pc.Done? && MayRaise(cluster, w)
    ensures r.StillWaiting? ==> cluster.schedule == []
    ensures r.StillWaiting? ==> Refused(cluster, w, KeyOf(old(cluster.now.workers[w])), old(cluster.history))
    ensures r.StillWaiting? ==> Tried(cluster, w, old(cluster.now.workers[w]).host, old(cluster.history))
    ensures coordination && old(cluster.Quiet()) && cluster.Smooth()
            && old(cluster.now.workers[w].host !in cluster.now.locks && HasRoom(cluster.config, cluster.now, w)) ==>
              r.Slot?
  {
    if !coordination { return Raised; }
    var done;
    r, done := TryRound(cluster, w, cluster.history);
    if !done {
      ghost var first := cluster.history;
      r := KeepTrying(cluster, w, old(cluster.history));
      if r.Slot? { StillIn(Act(w, CreateKey), old(cluster.history), first, cluster.history); }
    }
  }

  /** The turns of the loop after the first. */
  method KeepTrying(cluster: Cluster, w: Wid, ghost from: seq<Step>) returns (r: Acquired)
    requires cluster.Valid() && w in cluster.now.workers && cluster.now.workers[w].pc.Waiting? && from <= cluster.history
    requires Refused(cluster, w, KeyOf(cluster.now.workers[w]), from)
    requires Tried(cluster, w, cluster.now.workers[w].host, from)
    modifies cluster
    ensures cluster.Valid() && old(cluster.history) <= cluster.history
    ensures w in cluster.now.workers && SameTarget(old(cluster.now.workers[w]), cluster.now.workers[w])
    ensures match r
            case Slot(lease) => cluster.now.workers[w].pc == Starting(lease)
                                && Act(w, CreateKey) in cluster.history[|old(cluster.history)|..]
            case Raised => cluster.now.workers[w].pc.Done? && MayRaise(cluster, w)
            case StillWaiting => cluster.now.workers[w].pc.Waiting? && cluster.schedule == []
    ensures r.StillWaiting? ==> Refused(cluster, w, KeyOf(old(cluster.now.workers[w])), from)
                                && Tried(cluster, w, old(cluster.now.workers[w]).host, from)
  {
    ghost var key := KeyOf(cluster.now.workers[w]);
    while cluster.schedule != []
      invariant cluster.Valid() && old(cluster.history) <= cluster.history
      invariant w in cluster.now.workers && cluster.now.workers[w].pc.Waiting?
      invariant SameTarget(old(cluster.now.workers[w]), cluster.now.workers[w])
      invariant Refused(cluster, w, key, from) && Tried(cluster, w, key.0, from)
      decreases |cluster.schedule|
    {
      var done;
      ghost var before := cluster.history;
      r, done := TryRound(cluster, w, from);
      if done {
        if r.Slot? { StillIn(Act(w, CreateKey), old(cluster.history), before, cluster.history); }
        return;
      }
    }
    return StillWaiting;
  }

  lemma StillIn(step: Step, a: seq<Step>, b: seq<Step>, c: seq<Step>)
    requires a <= b <= c && step in c[|b|..]
    ensures step in c[|a|..]
  {
    assert c[|a|..] == b[|a|..] + c[|b|..];
  }

  /** Somewhere on the way the state was such. */
  ghost predicate Passed(cluster: Cluster, before: seq<Step>, after: seq<Step>, s: State) {
    exists k :: |before| <= k <= |after| && Exec(cluster.config, cluster.first, after[..k]) == Reached(s)
  }

  /** The record at the key is read; at is the state it is read in. */
  method ReadTheKey(cluster: Cluster, w: Wid) returns (ok: bool, ghost at: State)
    requires cluster.Valid() && w in cluster.now.workers && cluster.now.workers[w].pc.Releasing?
    modifies cluster
    ensures cluster.Valid() && old(cluster.history) < cluster.history
    ensures w in cluster.now.workers && SameTarget(old(cluster.now.workers[w]), cluster.now.workers[w])
    ensures cluster.now.workers[w].pc == if ok then Deleting(old(cluster.now.workers[w].pc.lease), LeaseAt(at, KeyOf(cluster.now.workers[w])))
                                         else Done
    ensures cluster.Smooth() ==> ok
    ensures Act(w, DeleteKey) !in cluster.history[|old(cluster.history)|..]
    ensures Passed(cluster, old(cluster.history), cluster.history, at)
  {
    ghost var n := |cluster.history|;
    cluster.Others(w);
    var reply := cluster.NextReply();
    ok, at := reply.Fine?, cluster.now;
    ghost var others := cluster.history;
    cluster.Perform(Act(w, if ok then ReadKey else ReleaseFails));
    assert cluster.history[n..] == others[n..] + [Act(w, if ok then ReadKey else ReleaseFails)];
    assert cluster.history[..|others|] == others;
  }

  /** release_start_lease at the delete: the key stays only if the delete was refused. */
  method DeleteTheKey(cluster: Cluster, w: Wid) returns (deleted: bool)
    requires cluster.Valid() && w in cluster.now.workers && cluster.now.workers[w].pc.Deleting?
    modifies cluster
    ensures cluster.Valid() && old(cluster.history) < cluster.history
    ensures w in cluster.now.workers
    ensures deleted <==> Act(w, DeleteKey) in cluster.history[|old(cluster.history)|..]
    ensures cluster.Smooth() ==> deleted
    ensures var pc, pc0 := cluster.now.workers[w].pc, old(cluster.now.workers[w].pc);
            && (pc.Done? || (deleted && pc0.seen.Some? && pc == Deleted(pc0.lease, pc0.seen.value)))
            && (cluster.Smooth() ==> (pc.Done? <==> pc0.seen.None?))
  {
    ghost var n := |cluster.history|;
    cluster.Others(w);
    var reply := cluster.NextReply();
    ghost var others := cluster.history;
    deleted := !reply.Refused?;
    if deleted { cluster.Perform(Act(w, DeleteKey)); }
    ghost var reached := cluster.history;
    assert reached[n..] == others[n..] + if deleted then [Act(w, DeleteKey)] else [];
    if !reply.Fine? && !cluster.now.workers[w].pc.Done? {
      cluster.Perform(Act(w, ReleaseFails));
      assert cluster.history[n..] == reached[n..] + [Act(w, ReleaseFails)];
    }
  }

  /** The revoke of the lease that was read at the key. */
  method RevokeTheLease(cluster: Cluster, w: Wid) returns (revoked: bool)
    requires cluster.Valid() && w in cluster.now.workers && cluster.now.workers[w].pc.Deleted?
    modifies cluster
    ensures cluster.Valid() && old(cluster.history) < cluster.history
    ensures w in cluster.now.workers && cluster.now.workers[w].pc.Done?
    ensures revoked ==> forall k :: k in cluster.now.leases ==>
              cluster.now.leases[k].id != old(cluster.now.workers[w].pc.found)
    ensures cluster.Smooth() ==> revoked
    ensures Act(w, DeleteKey) !in cluster.history[|old(cluster.history)|..]
  {
    ghost var n := |cluster.history|;
    cluster.Others(w);
    var reply := cluster.NextReply();
    revoked := reply.Fine?;
    ghost var others := cluster.history;
    cluster.Perform(Act(w, if revoked then RevokeLease else ReleaseFails));
    assert cluster.history[n..] == others[n..] + [Act(w, if revoked then RevokeLease else ReleaseFails)];
  }

  /** Within the margin, what is found at the key of a release is its own lease. */
  lemma FindsOwn(cluster: Cluster, w: Wid)
    requires cluster.Valid() && CallsFitMargin(cluster.config) && HolderSafe(cluster.config, cluster.first)
    requires w in cluster.now.workers && cluster.now.workers[w].pc.Deleting?
    ensures cluster.now.workers[w].pc.seen == Some(cluster.now.workers[w].pc.lease)
  {
    HolderSafeRun(cluster.config, cluster.first, cluster.history);
    assert FoundOwn(cluster.now.workers[w].pc);
  }

  /** This is what the record at the key named somewhere on the way. */
  ghost predicate Found(cluster: Cluster, before: seq<Step>, after: seq<Step>, key: LeaseKey, found: Option<nat>) {
    exists at :: Passed(cluster, before, after, at) && found == LeaseAt(at, key)
  }

  lemma FoundLater(cluster: Cluster, a: seq<Step>, b: seq<Step>, c: seq<Step>, key: LeaseKey, found: Option<nat>)
    requires b <= c && Found(cluster, a, b, key, found)
    ensures Found(cluster, a, c, key, found)
  {
    var at :| Passed(cluster, a, b, at) && found == LeaseAt(at, key);
    var k :| |a| <= k <= |b| && Exec(cluster.config, cluster.first, b[..k]) == Reached(at);
    assert c[..k] == b[..k];
    assert Passed(cluster, a, c, at);
  }

  /** The read and the delete. */
  method ReadAndDelete(cluster: Cluster, w: Wid) returns (deleted: bool, ghost found: Option<nat>)
    requires cluster.Valid() && w in cluster.now.workers && cluster.now.workers[w].pc.Releasing?
    modifies cluster
    ensures cluster.Valid() && old(cluster.history) < cluster.history && w in cluster.now.workers
    ensures deleted <==> Act(w, DeleteKey) in cluster.history[|old(cluster.history)|..]
    ensures deleted ==> Found(cluster, old(cluster.history), cluster.history, KeyOf(old(cluster.now.workers[w])), found)
    ensures deleted && CallsFitMargin(cluster.config) && HolderSafe(cluster.config, cluster.first) ==>
              found == Some(old(cluster.now.workers[w].pc.lease))
    ensures cluster.Smooth() ==> deleted
    ensures var pc := cluster.now.workers[w].pc;
            && (pc.Done? || (pc.Deleted? && deleted && found == Some(pc.found)))
            && (cluster.Smooth() ==> (pc.Done? <==> found.None?))
  {
    deleted, found := false, None;
    var ok;
    ghost var at;
    ok, at := ReadTheKey(cluster, w);
    if !ok { return; }
    found := cluster.now.workers[w].pc.seen;
    if CallsFitMargin(cluster.config) && HolderSafe(cluster.config, cluster.first) { FindsOwn(cluster, w); }
    ghost var read := cluster.history;
    deleted := DeleteTheKey(cluster, w);
    FoundLater(cluster, old(cluster.history), read, cluster.history, KeyOf(old(cluster.now.workers[w])), found);
    NewSteps(Act(w, DeleteKey), old(cluster.history), read, cluster.history);
  }

  lemma NewSteps(step: Step, a: seq<Step>, b: seq<Step>, c: seq<Step>)
    requires a <= b <= c
    ensures step in c[|a|..] <==> step in b[|a|..] || step in c[|b|..]
  {
    assert c[|a|..] == b[|a|..] + c[|b|..];
  }

  /**
   * EtcdStartLimiter.release: the record at the key is read, the key deleted, whoever owns it, and
   * then the lease revoked that the record named, if there was one.  deleted says that the delete
   * took effect; revoked that the revoke did too, and then no key carries the lease found.  When no
   * call raises, the key is deleted, and a lease revoked exactly if one was found.  Within the
   * margin the lease found is the caller's own.
   */
  method Release(cluster: Cluster, w: Wid) returns (deleted: bool, revoked: bool, ghost found: Option<nat>)
    requires cluster.Valid() && w in cluster.now.workers && cluster.now.workers[w].pc.Releasing?
    modifies cluster
    ensures cluster.Valid() && old(cluster.history) < cluster.history
    ensures w in cluster.now.workers && cluster.now.workers[w].pc.Done?
    ensures deleted <==> Act(w, DeleteKey) in cluster.history[|old(cluster.history)|..]
    ensures deleted ==> Found(cluster, old(cluster.history), cluster.history, KeyOf(old(cluster.now.workers[w])), found)
    ensures revoked ==> deleted && found.Some? && forall k :: k in cluster.now.leases ==>
              cluster.now.leases[k].id != found.value
    ensures cluster.Smooth() ==> deleted && (revoked <==> found.Some?)
    ensures deleted && CallsFitMargin(cluster.config) && HolderSafe(cluster.config, cluster.first) ==>
              found == Some(old(cluster.now.workers[w].pc.lease))
  {
    deleted, found := ReadAndDelete(cluster, w);
    revoked := false;
    if cluster.now.workers[w].pc.Deleted? {
      ghost var gone := cluster.history;
      revoked := RevokeTheLease(cluster, w);
      FoundLater(cluster, old(cluster.history), gone, cluster.history, KeyOf(old(cluster.now.workers[w])), found);
      NewSteps(Act(w, DeleteKey), old(cluster.history), gone, cluster.history);
    }
  }
}
