/**
 * The locks of a fencing task: the key of its segment around the loop over the failure set, and the
 * key of each host inside.  A key hangs on a lease of lock_ttl, which nothing renews, and is deleted
 * by key.  Any number of tasks run at the same time, and any of their lock calls may raise.
 */
module FencingLock {
  import opened FencingTypes
  import opened Wrappers

  import FencingRecord

  /**
   * lockTtl is the option; maxHosts the cap of the failure set.  The budgets are not options:
   * hostBudget bounds the time one task spends with one host, from the grant of the lease to the
   * delete of the key, and restBudget the rest of the time until it deletes the segment's key.
   */
  datatype Config = Config(lockTtl: nat, maxHosts: nat, hostBudget: nat, restBudget: nat)

  /** The time of a whole segment section. */
  function SegmentBudget(c: Config): nat {
    c.restBudget + c.maxHosts * c.hostBudget
  }

  predicate Fits(c: Config) {
    SegmentBudget(c) < c.lockTtl
  }

  /** The section of every single host then fits the lease of its own lock, as FencingRecord asks. */
  lemma HostFits(c: Config, requiredReadings: nat)
    requires Fits(c) && c.maxHosts >= 1
    ensures FencingRecord.FitsLease(FencingRecord.Config(requiredReadings, c.lockTtl, c.hostBudget))
  {
    MulMono(1, c.maxHosts, c.hostBudget);
  }

  datatype Pc =
    | Called
    | SegmentGranted              // the lease is granted, the key not yet created
    | Looping                     // holds the segment, between two hosts
    | HostGranted
    | InHost                      // holds the host as well: powers it off
    | LeavingHost(failed: bool)   // its key is about to be deleted
    | HostUnlocked(failed: bool)  // its lease is about to be revoked
    | LeavingSegment
    | SegmentUnlocked
    | Ended
    | Dead

  /** restTime and doneTime are the times spent outside hosts and with earlier hosts, since the segment's grant. */
  datatype Task = Task(segment: string, hosts: seq<string>, next: nat, pc: Pc,
                       segmentGranted: nat, hostGranted: nat, restTime: nat, doneTime: nat)

  datatype State = State(clock: nat, locks: map<Key, Lock>, tasks: map<Id, Task>)

  datatype Action =
    | GrantSegment | CreateSegment
    | GrantHost | CreateHost
    | FinishHost(failed: bool)    // everything between the create and the delete of the host's key
    | DeleteHost | RevokeHost
    | EndLoop                     // after the last host, or by an exception
    | DeleteSegment | RevokeSegment
    | Crash

  datatype Step =
    | Start(i: Id, segment: string, hosts: seq<string>)
    | Act(i: Id, action: Action, reply: Reply)
    | Expire(key: Key)
    | Tick(d: nat)

  // ---------------------------------------------------------------- transitions

  /** From the create of the segment's key to its delete. */
  predicate InSegment(pc: Pc) {
    pc.Looping? || pc.HostGranted? || pc.InHost? || pc.LeavingHost? || pc.HostUnlocked? || pc.LeavingSegment?
  }

  predicate InHostSection(pc: Pc) {
    pc.InHost? || pc.LeavingHost?
  }

  /** The time counts as spent with a host. */
  predicate WithHost(pc: Pc) {
    pc.HostGranted? || InHostSection(pc)
  }

  predicate Timed(pc: Pc) {
    pc.SegmentGranted? || InSegment(pc)
  }

  predicate HasHost(me: Task) {
    me.next < |me.hosts|
  }

  function SegmentKey(me: Task): Key {
    SegmentLock(me.segment)
  }

  function HostKey(me: Task): Key
    requires HasHost(me)
  {
    HostLock(me.hosts[me.next])
  }

  predicate CanAct(c: Config, s: State, me: Task, action: Action, reply: Reply) {
    match action
    case GrantSegment => me.pc.Called?
    case CreateSegment => me.pc.SegmentGranted? && (reply.Refused? || s.clock < me.segmentGranted + c.lockTtl)
    case GrantHost => me.pc.Looping? && HasHost(me)
    case CreateHost => me.pc.HostGranted? && HasHost(me) && (reply.Refused? || s.clock < me.hostGranted + c.lockTtl)
    case FinishHost(_) => me.pc.InHost?
    case DeleteHost => me.pc.LeavingHost? && HasHost(me)
    case RevokeHost => me.pc.HostUnlocked? && HasHost(me)
    case EndLoop => me.pc.Looping?
    case DeleteSegment => me.pc.LeavingSegment?
    case RevokeSegment => me.pc.SegmentUnlocked?
    case Crash => true
  }

  function NextPc(c: Config, s: State, me: Task, action: Action, reply: Reply): Pc
    requires CanAct(c, s, me, action, reply)
  {
    match action
    case GrantSegment => if reply.Fine? then SegmentGranted else Ended
    case CreateSegment => if reply.Fine? && SegmentKey(me) !in s.locks then Looping else Ended
    case GrantHost => if reply.Fine? then HostGranted else LeavingSegment
    case CreateHost => if reply.Fine? && HostKey(me) !in s.locks then InHost else LeavingSegment
    case FinishHost(failed) => LeavingHost(failed)
    case DeleteHost => if reply.Fine? then HostUnlocked(me.pc.failed) else LeavingSegment
    case RevokeHost => if me.pc.failed then LeavingSegment else Looping          // its errors are swallowed
    case EndLoop => LeavingSegment
    case DeleteSegment => if reply.Fine? then SegmentUnlocked else Ended
    case RevokeSegment => Ended
    case Crash => Dead
  }

  function NextTask(c: Config, s: State, me: Task, action: Action, reply: Reply): Task
    requires CanAct(c, s, me, action, reply)
  {
    var pc := NextPc(c, s, me, action, reply);
    var moved := me.(pc := pc);
    match action
    case GrantSegment => moved.(segmentGranted := s.clock, restTime := 0, doneTime := 0)
    case GrantHost => moved.(hostGranted := s.clock)
    case RevokeHost => moved.(next := if me.pc.failed then me.next else me.next + 1)
    case _ =>
      if WithHost(me.pc) && !WithHost(pc) && s.clock >= me.hostGranted
      then moved.(doneTime := me.doneTime + (s.clock - me.hostGranted)) else moved
  }

  /** A create is refused by an existing key; a delete is by key, whoever owns it; a revoke is of the own lease. */
  function NextLocks(c: Config, s: State, i: Id, me: Task, action: Action, reply: Reply): map<Key, Lock>
    requires CanAct(c, s, me, action, reply)
  {
    if reply.Refused? then s.locks
    else match action
      case CreateSegment =>
        if SegmentKey(me) in s.locks then s.locks else s.locks[SegmentKey(me) := Lock(i, me.segmentGranted + c.lockTtl)]
      case CreateHost =>
        if HostKey(me) in s.locks then s.locks else s.locks[HostKey(me) := Lock(i, me.hostGranted + c.lockTtl)]
      case DeleteHost => s.locks - {HostKey(me)}
      case DeleteSegment => s.locks - {SegmentKey(me)}
      case RevokeHost =>
        if HostKey(me) in s.locks && s.locks[HostKey(me)].owner == i then s.locks - {HostKey(me)} else s.locks
      case RevokeSegment =>
        if SegmentKey(me) in s.locks && s.locks[SegmentKey(me)].owner == i then s.locks - {SegmentKey(me)} else s.locks
      case _ => s.locks
  }

  function Elapse(me: Task, d: nat): Task {
    if Timed(me.pc) && !WithHost(me.pc) then me.(restTime := me.restTime + d) else me
  }

  predicate OnTime(c: Config, me: Task, clock: nat) {
    && (Timed(me.pc) ==> me.restTime <= c.restBudget)
    && (WithHost(me.pc) ==> clock <= me.hostGranted + c.hostBudget)
  }

  predicate Distinct(hosts: seq<string>) {
    forall k, l :: 0 <= k < l < |hosts| ==> hosts[k] != hosts[l]
  }

  predicate Enabled(c: Config, s: State, step: Step) {
    match step
    case Start(i, _, hosts) => i !in s.tasks && |hosts| <= c.maxHosts
    case Act(i, action, reply) => i in s.tasks && CanAct(c, s, s.tasks[i], action, reply)
    case Expire(key) => key in s.locks && s.clock >= s.locks[key].expires
    case Tick(d) => forall i :: i in s.tasks ==> OnTime(c, Elapse(s.tasks[i], d), s.clock + d)
  }

  function Apply(c: Config, s: State, step: Step): State
    requires Enabled(c, s, step)
  {
    match step
    case Start(i, segment, hosts) => s.(tasks := s.tasks[i := Task(segment, hosts, 0, Called, 0, 0, 0, 0)])
    case Act(i, action, reply) =>
      State(s.clock, NextLocks(c, s, i, s.tasks[i], action, reply),
            s.tasks[i := NextTask(c, s, s.tasks[i], action, reply)])
    case Expire(key) => s.(locks := s.locks - {key})
    case Tick(d) => s.(clock := s.clock + d, tasks := map i | i in s.tasks :: Elapse(s.tasks[i], d))
  }

  datatype Outcome = Stuck | Reached(state: State)

  function Exec(c: Config, s: State, steps: seq<Step>): Outcome
    decreases |steps|
  {
    if steps == [] then Reached(s)
    else if !Enabled(c, s, steps[0]) then Stuck
    else Exec(c, Apply(c, s, steps[0]), steps[1..])
  }

  function Init(): State {
    State(0, map[], map[])
  }

  ghost predicate RunTo(c: Config, steps: seq<Step>, s: State) {
    Exec(c, Init(), steps) == Reached(s)
  }

  // ---------------------------------------------------------------- time

  /** The clock since the segment's grant is what the task spent with hosts and without. */
  predicate Punctual(c: Config, s: State, me: Task) {
    && OnTime(c, me, s.clock)
    && me.next <= |me.hosts| <= c.maxHosts && (me.pc.HostUnlocked? || WithHost(me.pc) ==> HasHost(me))
    && (Timed(me.pc) ==>
          && me.doneTime <= Slices(me) * c.hostBudget
          && (WithHost(me.pc) ==> me.hostGranted <= s.clock)
          && s.clock == me.segmentGranted + me.restTime + me.doneTime + (if WithHost(me.pc) then s.clock - me.hostGranted else 0))
  }

  /** How many hosts the time in doneTime was spent with. */
  function Slices(me: Task): nat {
    if me.pc.HostUnlocked? || (me.pc.LeavingSegment? && HasHost(me)) then me.next + 1 else me.next
  }

  ghost predicate TimeInv(c: Config, s: State) {
    forall i :: i in s.tasks ==> Punctual(c, s, s.tasks[i])
  }

  lemma MulMono(a: nat, b: nat, k: nat)
    requires a <= b
    ensures a * k <= b * k
  {
  }

  /** The time of the host in hand is added to that of the earlier ones when its section ends. */
  lemma PunctualHostEnds(c: Config, s: State, i: Id, action: Action, reply: Reply)
    requires i in s.tasks && Punctual(c, s, s.tasks[i]) && CanAct(c, s, s.tasks[i], action, reply)
    requires WithHost(s.tasks[i].pc) && !WithHost(NextPc(c, s, s.tasks[i], action, reply))
    ensures Punctual(c, Apply(c, s, Act(i, action, reply)), NextTask(c, s, s.tasks[i], action, reply))
  {
    var me := s.tasks[i];
    assert (me.next + 1) * c.hostBudget == me.next * c.hostBudget + c.hostBudget;
  }

  lemma PunctualAct(c: Config, s: State, i: Id, action: Action, reply: Reply)
    requires i in s.tasks && Punctual(c, s, s.tasks[i]) && CanAct(c, s, s.tasks[i], action, reply)
    ensures Punctual(c, Apply(c, s, Act(i, action, reply)), NextTask(c, s, s.tasks[i], action, reply))
  {
    if WithHost(s.tasks[i].pc) && !WithHost(NextPc(c, s, s.tasks[i], action, reply)) {
      PunctualHostEnds(c, s, i, action, reply);
    } else {
      MulMono(s.tasks[i].next, s.tasks[i].next + 1, c.hostBudget);
    }
  }

  lemma TimeStep(c: Config, s: State, step: Step)
    requires TimeInv(c, s) && Enabled(c, s, step)
    ensures TimeInv(c, Apply(c, s, step))
  {
    var t := Apply(c, s, step);
    forall i | i in t.tasks ensures Punctual(c, t, t.tasks[i]) {
      if i in s.tasks {
        assert Punctual(c, s, s.tasks[i]);
        if step.Act? && step.i == i { PunctualAct(c, s, i, step.action, step.reply); }
      }
    }
  }

  /** So a segment section stays within its budget. */
  lemma SectionFits(c: Config, s: State, me: Task)
    requires Punctual(c, s, me) && Timed(me.pc)
    ensures s.clock <= me.segmentGranted + SegmentBudget(c)
  {
    var n := if WithHost(me.pc) then me.next + 1 else Slices(me);
    assert (me.next + 1) * c.hostBudget == me.next * c.hostBudget + c.hostBudget;
    MulMono(n, c.maxHosts, c.hostBudget);
  }

  // ---------------------------------------------------------------- ownership

  predicate OwnsSegment(c: Config, s: State, i: Id, me: Task) {
    SegmentKey(me) in s.locks && s.locks[SegmentKey(me)] == Lock(i, me.segmentGranted + c.lockTtl)
  }

  predicate OwnsHost(c: Config, s: State, i: Id, me: Task) {
    HasHost(me) && HostKey(me) in s.locks && s.locks[HostKey(me)] == Lock(i, me.hostGranted + c.lockTtl)
  }

  /** Whoever is inside a section owns its key. */
  predicate Owns(c: Config, s: State, i: Id, me: Task) {
    (InSegment(me.pc) ==> OwnsSegment(c, s, i, me)) && (InHostSection(me.pc) ==> OwnsHost(c, s, i, me))
  }

  ghost predicate OwnerInv(c: Config, s: State) {
    forall i :: i in s.tasks ==> Owns(c, s, i, s.tasks[i])
  }

  /** Where the others' steps leave the keys of i. */
  lemma OwnsKept(c: Config, s: State, step: Step, i: Id)
    requires Fits(c) && c.maxHosts >= 1 && TimeInv(c, s) && OwnerInv(c, s) && Enabled(c, s, step)
    requires i in s.tasks && !(step.Act? && step.i == i)
    ensures Owns(c, Apply(c, s, step), i, Apply(c, s, step).tasks[i])
  {
    var me := s.tasks[i];
    assert Owns(c, s, i, me) && Punctual(c, s, me);
    match step
    case Expire(key) =>
      if InSegment(me.pc) {
        SectionFits(c, s, me);
        MulMono(1, c.maxHosts, c.hostBudget);
      }
    case Act(j, _, _) => assert Owns(c, s, j, s.tasks[j]);
    case _ =>
  }

  lemma OwnsActed(c: Config, s: State, i: Id, action: Action, reply: Reply)
    requires OwnerInv(c, s) && TimeInv(c, s) && i in s.tasks && CanAct(c, s, s.tasks[i], action, reply)
    ensures Owns(c, Apply(c, s, Act(i, action, reply)), i, NextTask(c, s, s.tasks[i], action, reply))
  {
    assert Owns(c, s, i, s.tasks[i]) && Punctual(c, s, s.tasks[i]);
  }

  lemma OwnerStep(c: Config, s: State, step: Step)
    requires Fits(c) && c.maxHosts >= 1 && TimeInv(c, s) && OwnerInv(c, s) && Enabled(c, s, step)
    ensures OwnerInv(c, Apply(c, s, step))
  {
    var t := Apply(c, s, step);
    forall i | i in t.tasks ensures Owns(c, t, i, t.tasks[i]) {
      if i in s.tasks {
        if step.Act? && step.i == i { OwnsActed(c, s, i, step.action, step.reply); } else { OwnsKept(c, s, step, i); }
      }
    }
  }

  lemma {:induction false} OwnerRun(c: Config, s: State, steps: seq<Step>)
    requires Fits(c) && c.maxHosts >= 1 && TimeInv(c, s) && OwnerInv(c, s) && Exec(c, s, steps).Reached?
    ensures OwnerInv(c, Exec(c, s, steps).state)
    decreases |steps|
  {
    if steps != [] {
      TimeStep(c, s, steps[0]);
      OwnerStep(c, s, steps[0]);
      OwnerRun(c, Apply(c, s, steps[0]), steps[1..]);
    }
  }

  // ---------------------------------------------------------------- what the locks are for

  /** No two tasks are inside the section of one segment, nor of one host. */
  ghost predicate Exclusive(s: State) {
    && (forall i, j :: i in s.tasks && j in s.tasks && InSegment(s.tasks[i].pc) && InSegment(s.tasks[j].pc)
                       && s.tasks[i].segment == s.tasks[j].segment ==>
                         i == j)
    && (forall i, j :: i in s.tasks && j in s.tasks && InHostSection(s.tasks[i].pc) && InHostSection(s.tasks[j].pc)
                       && HasHost(s.tasks[i]) && HasHost(s.tasks[j]) && HostKey(s.tasks[i]) == HostKey(s.tasks[j]) ==>
                         i == j)
  }

  /** Whoever powers a host off owns the keys of the host and of its segment. */
  ghost predicate UnderBothLocks(s: State) {
    forall i :: i in s.tasks && s.tasks[i].pc.InHost? ==>
                  && HasHost(s.tasks[i])
                  && HostKey(s.tasks[i]) in s.locks && s.locks[HostKey(s.tasks[i])].owner == i
                  && SegmentKey(s.tasks[i]) in s.locks && s.locks[SegmentKey(s.tasks[i])].owner == i
  }

  lemma Protected(c: Config, steps: seq<Step>, s: State)
    requires Fits(c) && c.maxHosts >= 1 && RunTo(c, steps, s)
    ensures Exclusive(s) && UnderBothLocks(s)
  {
    OwnerRun(c, Init(), steps);
    assert forall i :: i in s.tasks ==> Owns(c, s, i, s.tasks[i]);
  }

  // ---------------------------------------------------------------- as one task sees it

  /** The keys of a task. */
  ghost function Owned(locks: map<Key, Lock>, i: Id): set<Key> {
    set key | key in locks && locks[key].owner == i
  }

  /** Keys of the task whose lease has not run out at the clock are still there. */
  ghost predicate StillThere(before: map<Key, Lock>, after: map<Key, Lock>, i: Id, clock: nat) {
    forall key :: key in before && before[key].owner == i && clock < before[key].expires ==>
                    key in after && after[key] == before[key]
  }

  /** Only time passes for the task while the others run, and they never give it a key. */
  ghost predicate Undisturbed(i: Id, a: State, b: State) {
    && i in a.tasks && i in b.tasks && b.tasks[i] == a.tasks[i].(restTime := b.tasks[i].restTime)
    && a.clock <= b.clock && Owned(b.locks, i) <= Owned(a.locks, i)
  }

  predicate StepOf(i: Id, step: Step) {
    step.Act? && step.i == i
  }

  lemma OtherStep(c: Config, s: State, step: Step, i: Id)
    requires Enabled(c, s, step) && !StepOf(i, step) && i in s.tasks
    ensures Undisturbed(i, s, Apply(c, s, step))
  {
  }

  /** Others delete only keys that they own. */
  lemma KeysStay(c: Config, s: State, step: Step, i: Id)
    requires OwnerInv(c, s) && Enabled(c, s, step) && !StepOf(i, step)
    ensures StillThere(s.locks, Apply(c, s, step).locks, i, Apply(c, s, step).clock)
  {
    if step.Act? {
      assert Owns(c, s, step.i, s.tasks[step.i]);
    }
  }

  /** What whole runs of fitting sections keep. */
  lemma Kept(c: Config, steps: seq<Step>, s: State)
    requires Fits(c) && c.maxHosts >= 1 && RunTo(c, steps, s)
    ensures OwnerInv(c, s) && TimeInv(c, s)
  {
    OwnerRun(c, Init(), steps);
    TimeRun(c, Init(), steps);
  }

  lemma {:induction false} TimeRun(c: Config, s: State, steps: seq<Step>)
    requires TimeInv(c, s) && Exec(c, s, steps).Reached?
    ensures TimeInv(c, Exec(c, s, steps).state)
    decreases |steps|
  {
    if steps != [] {
      TimeStep(c, s, steps[0]);
      TimeRun(c, Apply(c, s, steps[0]), steps[1..]);
    }
  }

  // ---------------------------------------------------------------- a section that outlives its lease

  lemma {:induction false} ExecAppend(c: Config, s: State, a: seq<Step>, b: seq<Step>)
    requires Exec(c, s, a).Reached?
    ensures Exec(c, s, a + b) == Exec(c, Exec(c, s, a).state, b)
    decreases |a|
  {
    if a == [] {
      assert a + b == b;
    } else {
      assert (a + b)[1..] == a[1..] + b;
      ExecAppend(c, Apply(c, s, a[0]), a[1..], b);
    }
  }

  /** One more step of a run. */
  lemma Extend(c: Config, before: seq<Step>, s: State, step: Step) returns (steps: seq<Step>, t: State)
    requires RunTo(c, before, s) && Enabled(c, s, step)
    ensures RunTo(c, steps, t) && t == Apply(c, s, step)
  {
    ExecAppend(c, Init(), before, [step]);
    assert [step][1..] == [];
    steps, t := before + [step], Apply(c, s, step);
  }

  /** n different host names. */
  function Names(n: nat): (names: seq<string>)
    ensures |names| == n && Distinct(names)
  {
    seq(n, k requires 0 <= k => seq(k, _ => 'h'))
  }

  /** Only task 0 exists. */
  function Solo(clock: nat, locks: map<Key, Lock>, me: Task): State {
    State(clock, locks, map[0 := me])
  }

  /** It makes a call. */
  lemma SoloAct(c: Config, before: seq<Step>, clock: nat, locks: map<Key, Lock>, me: Task, action: Action)
    returns (steps: seq<Step>, s: State)
    requires RunTo(c, before, Solo(clock, locks, me)) && CanAct(c, Solo(clock, locks, me), me, action, Fine)
    ensures RunTo(c, steps, s)
    ensures s == Solo(clock, NextLocks(c, Solo(clock, locks, me), 0, me, action, Fine),
                      NextTask(c, Solo(clock, locks, me), me, action, Fine))
  {
    steps, s := Extend(c, before, Solo(clock, locks, me), Act(0, action, Fine));
  }

  /** Time passes for it. */
  lemma SoloTick(c: Config, before: seq<Step>, clock: nat, locks: map<Key, Lock>, me: Task, d: nat)
    returns (steps: seq<Step>, s: State)
    requires RunTo(c, before, Solo(clock, locks, me)) && OnTime(c, Elapse(me, d), clock + d)
    ensures RunTo(c, steps, s) && s == Solo(clock + d, locks, Elapse(me, d))
  {
    steps, s := Extend(c, before, Solo(clock, locks, me), Tick(d));
    assert s.tasks == map[0 := Elapse(me, d)];
  }

  /** The task in segment "s" with the given hosts, after it spent the rest of its time before its first host. */
  function Slow(c: Config, hosts: seq<string>, next: nat, pc: Pc, hostGranted: nat, doneTime: nat): Task {
    Task("s", hosts, next, pc, 0, hostGranted, c.restBudget, doneTime)
  }

  function SegmentOnly(c: Config): map<Key, Lock> {
    map[SegmentLock("s") := Lock(0, c.lockTtl)]
  }

  lemma SlowStart(c: Config, hosts: seq<string>) returns (steps: seq<Step>, s: State)
    requires c.lockTtl >= 1 && |hosts| == c.maxHosts && Distinct(hosts)
    ensures RunTo(c, steps, s) && s == Solo(c.restBudget, SegmentOnly(c), Slow(c, hosts, 0, Looping, 0, 0))
  {
    var me := Task("s", hosts, 0, Called, 0, 0, 0, 0);
    steps, s := Extend(c, [], Init(), Start(0, "s", hosts));
    assert s == Solo(0, map[], me);
    steps, s := SoloAct(c, steps, 0, map[], me, GrantSegment);
    steps, s := SoloAct(c, steps, 0, map[], me.(pc := SegmentGranted), CreateSegment);
    assert s.locks == SegmentOnly(c);
    steps, s := SoloTick(c, steps, 0, SegmentOnly(c), me.(pc := Looping), c.restBudget);
  }

  /** It takes a host and spends the whole budget with it. */
  lemma SlowHost(c: Config, hosts: seq<string>, before: seq<Step>, next: nat, clock: nat, g: nat, done: nat)
    returns (steps: seq<Step>, s: State)
    requires c.lockTtl >= 1 && next < |hosts|
    requires RunTo(c, before, Solo(clock, SegmentOnly(c), Slow(c, hosts, next, Looping, g, done)))
    ensures RunTo(c, steps, s)
    ensures s == Solo(clock + c.hostBudget, SegmentOnly(c)[HostLock(hosts[next]) := Lock(0, clock + c.lockTtl)],
                      Slow(c, hosts, next, InHost, clock, done))
  {
    steps, s := SoloAct(c, before, clock, SegmentOnly(c), Slow(c, hosts, next, Looping, g, done), GrantHost);
    steps, s := SoloAct(c, steps, clock, SegmentOnly(c), Slow(c, hosts, next, HostGranted, clock, done), CreateHost);
    steps, s := SoloTick(c, steps, clock, SegmentOnly(c)[HostLock(hosts[next]) := Lock(0, clock + c.lockTtl)],
                         Slow(c, hosts, next, InHost, clock, done), c.hostBudget);
  }

  /** Its key is deleted. */
  lemma HostDeleted(c: Config, hosts: seq<string>, before: seq<Step>, next: nat, end: nat, clock: nat, done: nat)
    returns (steps: seq<Step>, s: State)
    requires next < |hosts| && end == clock + c.hostBudget
    requires RunTo(c, before, Solo(end, SegmentOnly(c)[HostLock(hosts[next]) := Lock(0, clock + c.lockTtl)],
                                   Slow(c, hosts, next, InHost, clock, done)))
    ensures RunTo(c, steps, s)
    ensures s == Solo(end, SegmentOnly(c), Slow(c, hosts, next, HostUnlocked(false), clock, done + c.hostBudget))
  {
    var locks := SegmentOnly(c)[HostLock(hosts[next]) := Lock(0, clock + c.lockTtl)];
    steps, s := SoloAct(c, before, end, locks, Slow(c, hosts, next, InHost, clock, done), FinishHost(false));
    steps, s := SoloAct(c, steps, end, locks, Slow(c, hosts, next, LeavingHost(false), clock, done), DeleteHost);
    assert s.locks == SegmentOnly(c);
  }

  /** And leaves it. */
  lemma HostDone(c: Config, hosts: seq<string>, before: seq<Step>, next: nat, clock: nat, g: nat, done: nat)
    returns (steps: seq<Step>, s: State)
    requires c.lockTtl >= 1 && next < |hosts|
    requires RunTo(c, before, Solo(clock, SegmentOnly(c), Slow(c, hosts, next, Looping, g, done)))
    ensures RunTo(c, steps, s)
    ensures s == Solo(clock + c.hostBudget, SegmentOnly(c), Slow(c, hosts, next + 1, Looping, clock, done + c.hostBudget))
  {
    var end := clock + c.hostBudget;
    steps, s := SlowHost(c, hosts, before, next, clock, g, done);
    steps, s := HostDeleted(c, hosts, steps, next, end, clock, done);
    steps, s := SoloAct(c, steps, end, SegmentOnly(c), Slow(c, hosts, next, HostUnlocked(false), clock, done + c.hostBudget), RevokeHost);
  }

  lemma {:induction false} SlowHosts(c: Config, hosts: seq<string>, n: nat) returns (steps: seq<Step>, s: State, g: nat)
    requires c.lockTtl >= 1 && n <= |hosts| == c.maxHosts && Distinct(hosts)
    ensures RunTo(c, steps, s)
    ensures s == Solo(c.restBudget + n * c.hostBudget, SegmentOnly(c), Slow(c, hosts, n, Looping, g, n * c.hostBudget))
  {
    if n == 0 {
      steps, s := SlowStart(c, hosts);
      g := 0;
    } else {
      steps, s, g := SlowHosts(c, hosts, n - 1);
      var clock := c.restBudget + (n - 1) * c.hostBudget;
      assert (n - 1) * c.hostBudget + c.hostBudget == n * c.hostBudget;
      steps, s := HostDone(c, hosts, steps, n - 1, clock, g, (n - 1) * c.hostBudget);
      g := clock;
    }
  }

  /** With its last host in hand, it has spent the whole budget. */
  lemma LastHost(c: Config) returns (steps: seq<Step>, s: State)
    requires c.lockTtl >= 1 && c.maxHosts >= 1
    ensures RunTo(c, steps, s) && s.tasks.Keys == {0} && s.tasks[0].pc.InHost? && s.tasks[0].segment == "s"
    ensures s.clock == SegmentBudget(c) && SegmentLock("s") in s.locks && s.locks[SegmentLock("s")] == Lock(0, c.lockTtl)
  {
    var n := c.maxHosts - 1;
    var hosts, g := Names(c.maxHosts), 0;
    steps, s, g := SlowHosts(c, hosts, n);
    steps, s := SlowHost(c, hosts, steps, n, c.restBudget + n * c.hostBudget, g, n * c.hostBudget);
    assert n * c.hostBudget + c.hostBudget == c.maxHosts * c.hostBudget;
  }

  /** The segment's lease has run out by then. */
  lemma LeaseRunsOut(c: Config) returns (steps: seq<Step>, s: State)
    requires c.lockTtl >= 1 && c.maxHosts >= 1 && !Fits(c)
    ensures RunTo(c, steps, s) && s.tasks.Keys == {0} && s.tasks[0].pc.InHost? && s.tasks[0].segment == "s"
    ensures SegmentLock("s") !in s.locks
  {
    steps, s := LastHost(c);
    steps, s := Extend(c, steps, s, Expire(SegmentLock("s")));
  }

  /** Then the host is powered off without the segment's lock, and another task enters the segment. */
  lemma Overrun(c: Config)
    requires c.lockTtl >= 1 && c.maxHosts >= 1 && !Fits(c)
    ensures exists steps, s :: RunTo(c, steps, s) && !UnderBothLocks(s)
    ensures exists steps, s :: RunTo(c, steps, s) && !Exclusive(s)
  {
    var steps, s := LeaseRunsOut(c);
    assert s.tasks[0].pc.InHost? && SegmentKey(s.tasks[0]) !in s.locks;
    assert RunTo(c, steps, s) && !UnderBothLocks(s);
    steps, s := Extend(c, steps, s, Start(1, "s", []));
    steps, s := Extend(c, steps, s, Act(1, GrantSegment, Fine));
    steps, s := Extend(c, steps, s, Act(1, CreateSegment, Fine));
    assert InSegment(s.tasks[0].pc) && InSegment(s.tasks[1].pc);
  }

  /**
   * Exactly when the locks protect: for every lock_ttl of at least one unit, in every run no two
   * tasks are inside one segment or one host, and hosts are powered off only by the owner of both
   * keys, if and only if the rest of a section and the whole failure set, one host after the
   * other, fit strictly inside lock_ttl.
   */
  lemma ProtectedIffFits(c: Config)
    requires c.lockTtl >= 1 && c.maxHosts >= 1
    ensures Fits(c) <==> forall steps, s :: RunTo(c, steps, s) ==> Exclusive(s)
    ensures Fits(c) <==> forall steps, s :: RunTo(c, steps, s) ==> UnderBothLocks(s)
  {
    if Fits(c) {
      forall steps, s | RunTo(c, steps, s) ensures Exclusive(s) && UnderBothLocks(s) {
        Protected(c, steps, s);
      }
    } else {
      Overrun(c);
    }
  }
}
