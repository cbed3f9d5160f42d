/**
 * The fencing record of one host and the lock around it: registrations, compare-and-replace
 * transitions and the recording of power-off proofs by any number of engines.
 *
 * Every etcd operation on the host's record and lock keys is one step, and any of them may raise,
 * before or after it took effect.  The clock drives the leases; the history is timed in steps.
 */
module FencingRecord {
  import opened FencingTypes
  import opened Wrappers

  const MAX_CAS_RETRIES: nat := 8

  /**
   * The configured number of stable readings and lock_ttl.  sectionBudget is not an option of the
   * program: it bounds the time one engine spends with the host, from the grant of the lock's
   * lease to the delete of its key.
   */
  datatype Config = Config(requiredReadings: nat, lockTtl: nat, sectionBudget: nat)

  predicate FitsLease(cfg: Config) {
    cfg.sectionBudget < cfg.lockTtl
  }

  /** verified is "" and readings is 0 while the record carries no proof. */
  datatype Record = Record(state: HostState, event: string, owner: Id, updatedAt: int, verified: string, readings: nat)

  datatype Registrar = Registrar(event: string, phase: RegistrarPhase)

  datatype RegistrarPhase =
    | MustGet
    | MustPut(seen: Option<Record>)      // the unconditional put rests on this possibly stale read
    | Registered

  datatype Pc =
    | Called
    | Granted                                // the lock's lease is granted, its key not yet created
    | Locked(tries: nat)                     // inside the section, transition loop
    | TransitionRead(cur: Record, tries: nat)
    | NotReady                               // the transition returned nothing
    | Preparing                              // FENCING is written; configuration, client, reset
    | Reading                                // the row of readings that is to become the proof
    | Proved(readings: nat, tries: nat)      // mark_fenced loop
    | MarkRead(readings: nat, cur: Record, tries: nat)
    | Failing(tries: nat)                    // mark_fence_failed loop
    | FailRead(cur: Record, tries: nat)
    | Leaving                                // finally: the lock key is about to be deleted
    | Unlocked                               // its lease is about to be revoked
    | Ended
    | Dead

  /**
   * granted is a time of the clock.  The others are history: the steps of the transition, of the
   * first and after the last reading of the row, and the record as it was at the first reading.
   */
  datatype Fencer = Fencer(event: string, pc: Pc, granted: nat, transitioned: int, since: int, until: int,
                           atReading: Option<Record>)

  datatype State = State(
    time: nat,
    clock: nat,
    record: Option<Record>,
    lock: Option<Lock>,
    registrars: map<Id, Registrar>,
    fencers: map<Id, Fencer>,
    history: History)

  /**
   * When the last registration was put and the last proof recorded, when the readings of that
   * proof began and ended, and whether the record it replaced was FENCING, and was the one that
   * was there when the readings began.
   */
  datatype History = History(registeredAt: int, markedAt: int, since: int, until: int,
                             replacedFencing: bool, replacedUnchanged: bool)

  datatype Action =
    | GrantLease
    | CreateLock
    | ReadForTransition
    | ReplaceByFencing
    | Reread
    | BeginReads                  // also after a broken row or a retried attempt
    | FenceReturns(readings: nat)
    | ReadForMark
    | ReplaceByFenced
    | ReadForFailure
    | ReplaceByFailed
    | DeleteLock
    | RevokeLease
    | Crash

  datatype Step =
    | CallRegister(i: Id, event: string)
    | RegisterGet(i: Id)
    | RegisterPut(i: Id, now: int)
    | CallFence(f: Id, event: string)
    | Act(f: Id, action: Action, reply: Reply, now: int)
    | LockExpires
    | Tick(d: nat)

  // ---------------------------------------------------------------- transitions

  /** From the create of the lock key to its delete. */
  predicate InSection(pc: Pc) {
    pc.Locked? || pc.TransitionRead? || pc.NotReady? || Gathering(pc) || pc.Failing? || pc.FailRead? || pc.Leaving?
  }

  /** From the transition to the mark. */
  predicate Gathering(pc: Pc) {
    pc.Preparing? || HasReadings(pc)
  }

  predicate HasReadings(pc: Pc) {
    pc.Reading? || pc.Proved? || pc.MarkRead?
  }

  predicate CanAct(cfg: Config, s: State, me: Fencer, action: Action, reply: Reply) {
    match action
    case GrantLease => me.pc.Called?
    case CreateLock => me.pc.Granted? && (reply.Refused? || s.clock < me.granted + cfg.lockTtl)
    case ReadForTransition => me.pc.Locked?
    case ReplaceByFencing => me.pc.TransitionRead?
    case Reread => me.pc.NotReady?
    case BeginReads => me.pc.Preparing? || me.pc.Reading?
    case FenceReturns(readings) => me.pc.Reading? && readings >= cfg.requiredReadings
    case ReadForMark => me.pc.Proved?
    case ReplaceByFenced => me.pc.MarkRead?
    case ReadForFailure => me.pc.Failing?
    case ReplaceByFailed => me.pc.FailRead?
    case DeleteLock => me.pc.Leaving?
    case RevokeLease => me.pc.Unlocked?
    case Crash => true
  }

  predicate Hits(s: State, cur: Record) {
    s.record == Some(cur)
  }

  /** Where an exception takes the thread: to the handler, out of the handler, or out of the task. */
  function RaisedPc(pc: Pc): Pc {
    match pc
    case Called => Ended
    case Granted => Ended
    case Failing(_) => Leaving
    case FailRead(_, _) => Leaving
    case Leaving => Ended
    case Unlocked => Ended
    case _ => Failing(0)
  }

  function NextPc(cfg: Config, s: State, me: Fencer, action: Action, reply: Reply): Pc
    requires CanAct(cfg, s, me, action, reply)
  {
    var pc := me.pc;
    if action.Crash? then Dead
    else if !reply.Fine? then RaisedPc(pc)
    else match action
      case GrantLease => Granted
      case CreateLock => if s.lock.None? then Locked(0) else Ended
      case ReadForTransition =>
        if s.record.Some? && (s.record.value.state.FenceRequired? || s.record.value.state.Fencing?)
        then TransitionRead(s.record.value, pc.tries) else NotReady
      case ReplaceByFencing =>
        if Hits(s, pc.cur) then Preparing
        else if pc.tries + 1 < MAX_CAS_RETRIES then Locked(pc.tries + 1) else Failing(0)
      case Reread => if s.record.Some? && s.record.value.state.Fenced? then Leaving else Failing(0)
      case BeginReads => Reading
      case FenceReturns(readings) => Proved(readings, 0)
      case ReadForMark => if s.record.Some? then MarkRead(pc.readings, s.record.value, pc.tries) else Failing(0)
      case ReplaceByFenced =>
        if Hits(s, pc.cur) then Leaving
        else if pc.tries + 1 < MAX_CAS_RETRIES then Proved(pc.readings, pc.tries + 1) else Failing(0)
      case ReadForFailure => if s.record.Some? then FailRead(s.record.value, pc.tries) else Leaving
      case ReplaceByFailed =>
        if Hits(s, pc.cur) || pc.tries + 1 >= MAX_CAS_RETRIES then Leaving else Failing(pc.tries + 1)
      case DeleteLock => Unlocked
      case RevokeLease => Ended
      case Crash => Dead
  }

  function NextFencer(cfg: Config, s: State, me: Fencer, action: Action, reply: Reply): Fencer
    requires CanAct(cfg, s, me, action, reply)
  {
    var pc := NextPc(cfg, s, me, action, reply);
    match action
    case GrantLease => me.(pc := pc, granted := s.clock)
    case ReplaceByFencing => me.(pc := pc, transitioned := s.time)
    case BeginReads => me.(pc := pc, since := s.time, atReading := s.record)
    case FenceReturns(_) => me.(pc := pc, until := s.time)
    case _ => me.(pc := pc)
  }

  /** The record after the action: a replace writes only over the very record it read. */
  function NextRecord(cfg: Config, s: State, f: Id, me: Fencer, action: Action, reply: Reply, now: int): Option<Record>
    requires CanAct(cfg, s, me, action, reply)
  {
    if reply.Refused? then s.record
    else match action
      case ReplaceByFencing =>
        if Hits(s, me.pc.cur) then Some(me.pc.cur.(state := Fencing, owner := f, updatedAt := now)) else s.record
      case ReplaceByFenced =>
        if Hits(s, me.pc.cur) then Some(Record(Fenced, me.event, f, now, "Off", me.pc.readings)) else s.record
      case ReplaceByFailed =>
        if Hits(s, me.pc.cur) then Some(me.pc.cur.(state := FenceFailed, event := me.event, owner := f, updatedAt := now))
        else s.record
      case _ => s.record
  }

  /** The delete is by key, whoever owns it; the revoke is of the engine's own lease. */
  function NextLock(cfg: Config, s: State, f: Id, me: Fencer, action: Action, reply: Reply): Option<Lock> {
    if reply.Refused? then s.lock
    else match action
      case CreateLock => if s.lock.None? then Some(Lock(f, me.granted + cfg.lockTtl)) else s.lock
      case DeleteLock => None
      case RevokeLease => if s.lock.Some? && s.lock.value.owner == f then None else s.lock
      case _ => s.lock
  }

  predicate MarksFenced(s: State, pc: Pc, action: Action, reply: Reply) {
    action.ReplaceByFenced? && !reply.Refused? && pc.MarkRead? && Hits(s, pc.cur)
  }

  function NextHistory(s: State, me: Fencer, action: Action, reply: Reply): History {
    if MarksFenced(s, me.pc, action, reply)
    then History(s.history.registeredAt, s.time, me.since, me.until, me.pc.cur.state.Fencing?, me.atReading == Some(me.pc.cur))
    else s.history
  }

  /** What register_host_failure puts after the read it made; i identifies the registration by its owner and time stamp. */
  function RegisteredRecord(i: Id, event: string, seen: Option<Record>, now: int): Record {
    if seen.None? || seen.value.state.Fenced? || seen.value.state.FenceFailed?
    then Record(FenceRequired, event, i, now, "", 0)
    else seen.value.(state := FenceRequired, event := event, owner := i, updatedAt := now)
  }

  /** A fencer whose lease is granted and that has not yet deleted its key stays within its budget. */
  predicate OnTime(cfg: Config, me: Fencer, clock: nat) {
    me.pc.Granted? || InSection(me.pc) ==> clock <= me.granted + cfg.sectionBudget
  }

  predicate Enabled(cfg: Config, s: State, step: Step) {
    match step
    case CallRegister(i, _) => i !in s.registrars
    case RegisterGet(i) => i in s.registrars && s.registrars[i].phase.MustGet?
    case RegisterPut(i, _) => i in s.registrars && s.registrars[i].phase.MustPut?
    case CallFence(f, _) => f !in s.fencers
    case Act(f, action, reply, _) => f in s.fencers && CanAct(cfg, s, s.fencers[f], action, reply)
    case LockExpires => s.lock.Some? && s.clock >= s.lock.value.expires
    case Tick(d) => forall f :: f in s.fencers ==> OnTime(cfg, s.fencers[f], s.clock + d)
  }

  function Apply(cfg: Config, s: State, step: Step): State
    requires Enabled(cfg, s, step)
  {
    match step
    case CallRegister(i, event) =>
      s.(time := s.time + 1, registrars := s.registrars[i := Registrar(event, MustGet)])
    case RegisterGet(i) =>
      s.(time := s.time + 1, registrars := s.registrars[i := s.registrars[i].(phase := MustPut(s.record))])
    case RegisterPut(i, now) =>
      var r := s.registrars[i];
      s.(time := s.time + 1, registrars := s.registrars[i := r.(phase := Registered)],
         record := Some(RegisteredRecord(i, r.event, r.phase.seen, now)),
         history := s.history.(registeredAt := s.time))
    case CallFence(f, event) =>
      s.(time := s.time + 1, fencers := s.fencers[f := Fencer(event, Called, 0, -1, -1, -1, None)])
    case Act(f, action, reply, now) =>
      var me := s.fencers[f];
      State(s.time + 1, s.clock, NextRecord(cfg, s, f, me, action, reply, now), NextLock(cfg, s, f, me, action, reply),
            s.registrars, s.fencers[f := NextFencer(cfg, s, me, action, reply)], NextHistory(s, me, action, reply))
    case LockExpires => s.(time := s.time + 1, lock := None)
    case Tick(d) => s.(time := s.time + 1, clock := s.clock + d)
  }

  datatype Outcome = Stuck | Reached(state: State)

  function Exec(cfg: Config, s: State, steps: seq<Step>): Outcome
    decreases |steps|
  {
    if steps == [] then Reached(s)
    else if !Enabled(cfg, s, steps[0]) then Stuck
    else Exec(cfg, Apply(cfg, s, steps[0]), steps[1..])
  }

  function Init(): State {
    State(0, 0, None, None, map[], map[], History(-1, -1, -1, -1, false, false))
  }

  // ---------------------------------------------------------------- the lock

  ghost predicate TimeInv(cfg: Config, s: State) {
    forall f :: f in s.fencers ==> OnTime(cfg, s.fencers[f], s.clock)
  }

  /** Whoever is inside the section owns the lock key, under the lease granted to it. */
  ghost predicate LockInv(cfg: Config, s: State) {
    forall f :: f in s.fencers && InSection(s.fencers[f].pc) ==> s.lock == Some(Lock(f, s.fencers[f].granted + cfg.lockTtl))
  }

  lemma TimeStep(cfg: Config, s: State, step: Step)
    requires TimeInv(cfg, s) && Enabled(cfg, s, step)
    ensures TimeInv(cfg, Apply(cfg, s, step))
  {
  }

  lemma LockStep(cfg: Config, s: State, step: Step)
    requires FitsLease(cfg) && TimeInv(cfg, s) && LockInv(cfg, s) && Enabled(cfg, s, step)
    ensures LockInv(cfg, Apply(cfg, s, step))
  {
    var t := Apply(cfg, s, step);
    forall f | f in t.fencers && InSection(t.fencers[f].pc) ensures t.lock == Some(Lock(f, t.fencers[f].granted + cfg.lockTtl)) {
      LockKept(cfg, s, step, f);
    }
  }

  /** Nobody deletes or revokes the key of a fencer inside, and its lease does not run out. */
  lemma LockKept(cfg: Config, s: State, step: Step, f: Id)
    requires FitsLease(cfg) && TimeInv(cfg, s) && LockInv(cfg, s) && Enabled(cfg, s, step)
    requires f in Apply(cfg, s, step).fencers && InSection(Apply(cfg, s, step).fencers[f].pc)
    ensures Apply(cfg, s, step).lock == Some(Lock(f, Apply(cfg, s, step).fencers[f].granted + cfg.lockTtl))
  {
    assert OnTime(cfg, s.fencers[f], s.clock);
  }

  // ---------------------------------------------------------------- the proof

  /** A FENCED record carries its proof, recorded after the last registration. */
  ghost predicate ProofInv(cfg: Config, s: State) {
    s.history.registeredAt < s.time && s.history.markedAt < s.time
    && (s.record.Some? && s.record.value.state.Fenced? ==>
          && s.record.value.verified == "Off" && s.record.value.readings >= cfg.requiredReadings
          && s.history.markedAt > s.history.registeredAt)
    && (forall f :: f in s.fencers ==> EnoughReads(cfg, s.fencers[f].pc))
  }

  predicate EnoughReads(cfg: Config, pc: Pc) {
    pc.Proved? || pc.MarkRead? ==> pc.readings >= cfg.requiredReadings
  }

  lemma ProofStep(cfg: Config, s: State, step: Step)
    requires ProofInv(cfg, s) && Enabled(cfg, s, step)
    ensures ProofInv(cfg, Apply(cfg, s, step))
  {
    var t := Apply(cfg, s, step);
    forall f | f in t.fencers ensures EnoughReads(cfg, t.fencers[f].pc) {
      assert f in s.fencers ==> EnoughReads(cfg, s.fencers[f].pc);
    }
  }

  /**
   * Between the transition and the mark, the record is FENCING if nobody registered since the
   * transition and FENCE_REQUIRED if somebody did.
   */
  ghost predicate GatherInv(s: State) {
    forall f :: f in s.fencers && Gathering(s.fencers[f].pc) ==> GatheringSince(s, s.fencers[f].transitioned)
  }

  predicate GatheringSince(s: State, since: int) {
    && since < s.time && s.record.Some? && s.history.registeredAt != since
    && (s.history.registeredAt < since ==> s.record.value.state.Fencing?)
    && (s.history.registeredAt > since ==> s.record.value.state.FenceRequired?)
  }

  predicate HasRegistered(s: State, i: Id) {
    i in s.registrars && s.registrars[i].phase.Registered?
  }

  /** A FENCE_REQUIRED record was put by a finished registration. */
  predicate PutByRegistrar(s: State, r: Option<Record>) {
    r.Some? && r.value.state.FenceRequired? ==> HasRegistered(s, r.value.owner)
  }

  /** From the first reading to the mark, the record is the one of then if and only if nobody registered since. */
  ghost predicate ReadInv(s: State) {
    && PutByRegistrar(s, s.record)
    && forall f :: f in s.fencers && HasReadings(s.fencers[f].pc) ==> ReadSince(s, s.fencers[f])
  }

  predicate ReadSince(s: State, me: Fencer) {
    && me.transitioned < me.since < s.time && s.history.registeredAt != me.since && PutByRegistrar(s, me.atReading)
    && (s.history.registeredAt < me.since ==> s.record == me.atReading)
    && (s.history.registeredAt > me.since ==> s.record != me.atReading)
  }

  lemma GatherStep(cfg: Config, s: State, step: Step)
    requires LockInv(cfg, s) && GatherInv(s) && s.history.registeredAt < s.time && Enabled(cfg, s, step)
    ensures GatherInv(Apply(cfg, s, step))
  {
    var t := Apply(cfg, s, step);
    forall f | f in t.fencers && Gathering(t.fencers[f].pc) ensures GatheringSince(t, t.fencers[f].transitioned) {
      if f in s.fencers && Gathering(s.fencers[f].pc) {
        assert GatheringSince(s, s.fencers[f].transitioned);
      }
    }
  }

  lemma ReadStep(cfg: Config, s: State, step: Step)
    requires LockInv(cfg, s) && GatherInv(s) && ReadInv(s) && s.history.registeredAt < s.time && Enabled(cfg, s, step)
    ensures ReadInv(Apply(cfg, s, step))
  {
    var t := Apply(cfg, s, step);
    forall f | f in t.fencers && HasReadings(t.fencers[f].pc) ensures ReadSince(t, t.fencers[f]) {
      ReadStepOf(cfg, s, step, f);
    }
  }

  /** A fencer has readings because it had them, or because it begins to read. */
  lemma ReadOrigin(cfg: Config, s: State, step: Step, f: Id)
    requires Enabled(cfg, s, step) && f in Apply(cfg, s, step).fencers && HasReadings(Apply(cfg, s, step).fencers[f].pc)
    ensures f in s.fencers && Gathering(s.fencers[f].pc)
    ensures var me := Apply(cfg, s, step).fencers[f];
            if step.Act? && step.f == f && step.action.BeginReads?
            then me.since == s.time && me.atReading == s.record && me.transitioned == s.fencers[f].transitioned
            else HasReadings(s.fencers[f].pc) && me.since == s.fencers[f].since && me.atReading == s.fencers[f].atReading
                 && me.transitioned == s.fencers[f].transitioned
  {
  }

  /** While f has readings, only a registration changes the record, and never back to what was read. */
  lemma RecordStays(cfg: Config, s: State, step: Step, f: Id)
    requires LockInv(cfg, s) && GatherInv(s) && ReadInv(s) && Enabled(cfg, s, step)
    requires f in s.fencers && HasReadings(s.fencers[f].pc) && HasReadings(Apply(cfg, s, step).fencers[f].pc)
    ensures var t := Apply(cfg, s, step);
            if step.RegisterPut? then t.record != s.fencers[f].atReading && t.history.registeredAt == s.time
            else t.record == s.record && t.history.registeredAt == s.history.registeredAt
  {
    assert GatheringSince(s, s.fencers[f].transitioned);
    assert ReadSince(s, s.fencers[f]);
  }

  lemma ReadStepOf(cfg: Config, s: State, step: Step, f: Id)
    requires LockInv(cfg, s) && GatherInv(s) && ReadInv(s) && s.history.registeredAt < s.time && Enabled(cfg, s, step)
    requires f in Apply(cfg, s, step).fencers && HasReadings(Apply(cfg, s, step).fencers[f].pc)
    ensures ReadSince(Apply(cfg, s, step), Apply(cfg, s, step).fencers[f])
  {
    ReadOrigin(cfg, s, step, f);
    assert GatheringSince(s, s.fencers[f].transitioned);
    if !(step.Act? && step.f == f && step.action.BeginReads?) {
      assert ReadSince(s, s.fencers[f]);
      RecordStays(cfg, s, step, f);
    }
  }

  /**
   * The readings behind a FENCED record began after the last registration iff the record that was
   * replaced was the one of the first reading; a FENCING record suffices.
   */
  ghost predicate FreshInv(s: State) {
    s.record.Some? && s.record.value.state.Fenced? ==>
      && (s.history.since > s.history.registeredAt <==> s.history.replacedUnchanged)
      && (s.history.replacedFencing ==> s.history.since > s.history.registeredAt)
  }

  lemma FreshStep(cfg: Config, s: State, step: Step)
    requires GatherInv(s) && ReadInv(s) && FreshInv(s) && Enabled(cfg, s, step)
    ensures FreshInv(Apply(cfg, s, step))
  {
    if step.Act? && MarksFenced(s, s.fencers[step.f].pc, step.action, step.reply) {
      assert GatheringSince(s, s.fencers[step.f].transitioned);
      assert ReadSince(s, s.fencers[step.f]);
    }
  }

  // ---------------------------------------------------------------- whole runs

  lemma {:induction false} ProofRun(cfg: Config, s: State, steps: seq<Step>)
    requires ProofInv(cfg, s) && Exec(cfg, s, steps).Reached?
    ensures ProofInv(cfg, Exec(cfg, s, steps).state)
    decreases |steps|
  {
    if steps != [] {
      ProofStep(cfg, s, steps[0]);
      ProofRun(cfg, Apply(cfg, s, steps[0]), steps[1..]);
    }
  }

  ghost predicate Exclusive(cfg: Config, s: State) {
    && TimeInv(cfg, s) && LockInv(cfg, s) && GatherInv(s) && ReadInv(s) && FreshInv(s)
    && s.history.registeredAt < s.time
  }

  lemma {:induction false} ExclusiveRun(cfg: Config, s: State, steps: seq<Step>)
    requires FitsLease(cfg) && Exclusive(cfg, s) && Exec(cfg, s, steps).Reached?
    ensures Exclusive(cfg, Exec(cfg, s, steps).state)
    decreases |steps|
  {
    if steps != [] {
      TimeStep(cfg, s, steps[0]);
      LockStep(cfg, s, steps[0]);
      GatherStep(cfg, s, steps[0]);
      ReadStep(cfg, s, steps[0]);
      FreshStep(cfg, s, steps[0]);
      ExclusiveRun(cfg, Apply(cfg, s, steps[0]), steps[1..]);
    }
  }

  ghost predicate RunTo(cfg: Config, steps: seq<Step>, s: State) {
    Exec(cfg, Init(), steps) == Reached(s)
  }

  predicate IsFenced(s: State) {
    s.record.Some? && s.record.value.state.Fenced?
  }

  /**
   * In every run, whatever the leases do and whichever calls raise: a FENCED record says Off with
   * at least the required number of reads, and it was recorded after the host's latest registration.
   */
  lemma FencedCarriesProof(cfg: Config, steps: seq<Step>, s: State)
    requires RunTo(cfg, steps, s) && IsFenced(s)
    ensures s.record.value.verified == "Off" && s.record.value.readings >= cfg.requiredReadings
    ensures s.history.markedAt > s.history.registeredAt
  {
    ProofRun(cfg, Init(), steps);
  }

  /** When the section fits the lease, two engines are never inside the section of a host. */
  lemma OneFencerAtATime(cfg: Config, steps: seq<Step>, s: State, f: Id, g: Id)
    requires FitsLease(cfg) && RunTo(cfg, steps, s)
    requires f in s.fencers && g in s.fencers && InSection(s.fencers[f].pc) && InSection(s.fencers[g].pc)
    ensures f == g
  {
    ExclusiveRun(cfg, Init(), steps);
  }

  /**
   * Recorded after is not read after.  The readings behind a FENCED record began after the host's
   * latest registration exactly when the record that mark_fenced replaced was the very record
   * that was there at the first reading; that it was still FENCING is enough.
   */
  lemma ProofFreshIffUnchanged(cfg: Config, steps: seq<Step>, s: State)
    requires FitsLease(cfg) && RunTo(cfg, steps, s) && IsFenced(s)
    ensures s.history.since > s.history.registeredAt <==> s.history.replacedUnchanged
    ensures s.history.replacedFencing ==> s.history.since > s.history.registeredAt
  {
    ExclusiveRun(cfg, Init(), steps);
  }

  /** The same tests, made by the engine on the record in its hand before it writes. */
  lemma MarkIsFreshIffUnchanged(cfg: Config, steps: seq<Step>, s: State, f: Id, reply: Reply, now: int)
    requires FitsLease(cfg) && RunTo(cfg, steps, s)
    requires Enabled(cfg, s, Act(f, ReplaceByFenced, reply, now)) && MarksFenced(s, s.fencers[f].pc, ReplaceByFenced, reply)
    ensures var t := Apply(cfg, s, Act(f, ReplaceByFenced, reply, now));
            var me := s.fencers[f];
            && IsFenced(t)
            && (t.history.since > t.history.registeredAt <==> Some(me.pc.cur) == me.atReading)
            && (me.pc.cur.state.Fencing? ==> t.history.since > t.history.registeredAt)
  {
    ExclusiveRun(cfg, Init(), steps);
    assert GatheringSince(s, s.fencers[f].transitioned);
    assert ReadSince(s, s.fencers[f]);
  }

  // ---------------------------------------------------------------- a registration during fencing

  lemma {:induction false} ExecAppend(cfg: Config, s: State, a: seq<Step>, b: seq<Step>)
    requires Exec(cfg, s, a).Reached?
    ensures Exec(cfg, s, a + b) == Exec(cfg, Exec(cfg, s, a).state, b)
    decreases |a|
  {
    if a == [] {
      assert a + b == b;
    } else {
      assert (a + b)[1..] == a[1..] + b;
      ExecAppend(cfg, Apply(cfg, s, a[0]), a[1..], b);
    }
  }

  /** One more step of a run. */
  lemma Extend(cfg: Config, before: seq<Step>, s: State, step: Step) returns (steps: seq<Step>, t: State)
    requires RunTo(cfg, before, s) && Enabled(cfg, s, step)
    ensures RunTo(cfg, steps, t) && t == Apply(cfg, s, step)
  {
    ExecAppend(cfg, Init(), before, [step]);
    assert [step][1..] == [];
    steps, t := before + [step], Apply(cfg, s, step);
  }

  /** Event e1 is registered. */
  lemma FirstRegistration(cfg: Config) returns (steps: seq<Step>, s: State)
    ensures RunTo(cfg, steps, s) && s.registrars.Keys == {0} && s.time == 3 && s.clock == 0
    ensures s.fencers == map[] && s.lock.None? && s.record == Some(Record(FenceRequired, "e1", 0, 0, "", 0))
  {
    steps, s := Extend(cfg, [], Init(), CallRegister(0, "e1"));
    steps, s := Extend(cfg, steps, s, RegisterGet(0));
    steps, s := Extend(cfg, steps, s, RegisterPut(0, 0));
  }

  /** Its engine takes the lock. */
  lemma LockTaken(cfg: Config) returns (steps: seq<Step>, s: State)
    requires cfg.lockTtl >= 1
    ensures RunTo(cfg, steps, s) && s.registrars.Keys == {0} && s.time == 6 && s.clock == 0
    ensures s.fencers == map[0 := Fencer("e1", Locked(0), 0, -1, -1, -1, None)]
    ensures s.record == Some(Record(FenceRequired, "e1", 0, 0, "", 0))
  {
    steps, s := FirstRegistration(cfg);
    steps, s := Extend(cfg, steps, s, CallFence(0, "e1"));
    steps, s := Extend(cfg, steps, s, Act(0, GrantLease, Fine, 0));
    steps, s := Extend(cfg, steps, s, Act(0, CreateLock, Fine, 0));
  }

  /** And writes FENCING. */
  lemma PreparingReached(cfg: Config) returns (steps: seq<Step>, s: State)
    requires cfg.lockTtl >= 1
    ensures RunTo(cfg, steps, s) && s.registrars.Keys == {0} && s.time == 8 && s.clock == 0
    ensures s.fencers == map[0 := Fencer("e1", Preparing, 0, 7, -1, -1, None)]
    ensures s.record == Some(Record(Fencing, "e1", 0, 0, "", 0))
  {
    steps, s := LockTaken(cfg);
    steps, s := Extend(cfg, steps, s, Act(0, ReadForTransition, Fine, 0));
    steps, s := Extend(cfg, steps, s, Act(0, ReplaceByFencing, Fine, 0));
  }

  /** Event e2 is registered meanwhile. */
  lemma SecondRegistration(cfg: Config, before: seq<Step>, s0: State) returns (steps: seq<Step>, s: State)
    requires RunTo(cfg, before, s0) && 1 !in s0.registrars && s0.record.Some? && s0.record.value.state.Fencing?
    ensures RunTo(cfg, steps, s) && s.time == s0.time + 3 && s.clock == s0.clock && s.fencers == s0.fencers
    ensures s.history.registeredAt == s0.time + 2
    ensures s.record.Some? && s.record.value == RegisteredRecord(1, "e2", s0.record, 0)
  {
    steps, s := Extend(cfg, before, s0, CallRegister(1, "e2"));
    steps, s := Extend(cfg, steps, s, RegisterGet(1));
    steps, s := Extend(cfg, steps, s, RegisterPut(1, 0));
  }

  /** The engine records the proof it has. */
  lemma Marked(cfg: Config, before: seq<Step>, s0: State) returns (steps: seq<Step>, s: State)
    requires RunTo(cfg, before, s0) && 0 in s0.fencers && s0.fencers[0].pc.Proved? && s0.record.Some?
    ensures RunTo(cfg, steps, s) && IsFenced(s)
    ensures s.history == History(s0.history.registeredAt, s0.time + 1, s0.fencers[0].since, s0.fencers[0].until,
                                 s0.record.value.state.Fencing?, s0.fencers[0].atReading == s0.record)
  {
    steps, s := Extend(cfg, before, s0, Act(0, ReadForMark, Fine, 0));
    steps, s := Extend(cfg, steps, s, Act(0, ReplaceByFenced, Fine, 0));
  }

  /**
   * So an older event's proof can be accepted, whatever the timing: all its readings were made
   * before the host's latest registration.
   */
  lemma OlderProofAccepted(cfg: Config)
    requires cfg.lockTtl >= 1
    ensures exists steps, s :: RunTo(cfg, steps, s) && IsFenced(s)
              && s.history.since < s.history.until < s.history.registeredAt
  {
    var steps, s := PreparingReached(cfg);
    steps, s := Extend(cfg, steps, s, Act(0, BeginReads, Fine, 0));
    steps, s := Extend(cfg, steps, s, Act(0, FenceReturns(cfg.requiredReadings), Fine, 0));
    steps, s := SecondRegistration(cfg, steps, s);
    steps, s := Marked(cfg, steps, s);
  }

  /** A test for FENCING would be more than is needed: a registration before the first reading does no harm. */
  lemma FencingTestNotNecessary(cfg: Config)
    requires cfg.lockTtl >= 1
    ensures exists steps, s :: RunTo(cfg, steps, s) && IsFenced(s) && !s.history.replacedFencing
              && s.history.since > s.history.registeredAt
  {
    var steps, s := PreparingReached(cfg);
    steps, s := SecondRegistration(cfg, steps, s);
    steps, s := Extend(cfg, steps, s, Act(0, BeginReads, Fine, 0));
    steps, s := Extend(cfg, steps, s, Act(0, FenceReturns(cfg.requiredReadings), Fine, 0));
    steps, s := Marked(cfg, steps, s);
  }
}
