/**
 * The store's methods over the fencing record: every etcd operation they make is an enabled step of
 * the machine, in the order of the source, whatever the other engines do in between and whichever
 * calls raise, so what holds of all runs of the machine holds of the program.
 */
module FencingStore {
  import opened FencingTypes
  import opened Wrappers

  import opened FencingRecord

  predicate ByFencer(f: Id, step: Step) {
    (step.Act? && step.f == f) || (step.CallFence? && step.f == f)
  }

  predicate ByRegistrar(i: Id, step: Step) {
    (step.CallRegister? || step.RegisterGet? || step.RegisterPut?) && step.i == i
  }

  /** How many calls the fencer made. */
  function Calls(f: Id, steps: seq<Step>): nat
    decreases |steps|
  {
    if steps == [] then 0 else Calls(f, steps[..|steps| - 1]) + if ByFencer(f, steps[|steps| - 1]) then 1 else 0
  }

  lemma OneMoreCall(f: Id, steps: seq<Step>, step: Step)
    ensures Calls(f, steps + [step]) == Calls(f, steps) + if ByFencer(f, step) then 1 else 0
  {
    assert (steps + [step])[..|steps|] == steps;
  }

  predicate Owns(s: State, f: Id) {
    s.lock.Some? && s.lock.value.owner == f
  }

  /** What the others leave to a fencer: where it stands; and they never make it the lock's owner. */
  ghost predicate FencerKept(f: Id, a: State, b: State) {
    f in a.fencers && f in b.fencers && a.fencers[f] == b.fencers[f] && (Owns(b, f) ==> Owns(a, f)) && a.clock <= b.clock
  }

  ghost predicate RegistrarKept(i: Id, a: State, b: State) {
    i in a.registrars && i in b.registrars && a.registrars[i] == b.registrars[i]
  }

  lemma OtherStep(cfg: Config, f: Id, s: State, step: Step)
    requires Enabled(cfg, s, step) && !ByFencer(f, step) && f in s.fencers
    ensures FencerKept(f, s, Apply(cfg, s, step))
  {
  }

  /** The state at occurred somewhere on the way from the history `before` to the history `after`. */
  ghost predicate Passed(cfg: Config, before: seq<Step>, after: seq<Step>, at: State) {
    exists k :: |before| <= k <= |after| && RunTo(cfg, after[..k], at)
  }

  /** Somewhere on the way the state was such. */
  ghost predicate Saw(cfg: Config, before: seq<Step>, after: seq<Step>, p: State -> bool) {
    exists k :: |before| <= k <= |after| && Exec(cfg, Init(), after[..k]).Reached? && p(Exec(cfg, Init(), after[..k]).state)
  }

  lemma SawThere(cfg: Config, before: seq<Step>, at: seq<Step>, after: seq<Step>, s: State, p: State -> bool)
    requires before <= at <= after && RunTo(cfg, at, s) && p(s)
    ensures Saw(cfg, before, after, p)
  {
    assert after[..|at|] == at;
  }

  lemma SawLater(cfg: Config, a: seq<Step>, b: seq<Step>, c: seq<Step>, d: seq<Step>, p: State -> bool)
    requires a <= b && c <= d && Saw(cfg, b, c, p)
    ensures Saw(cfg, a, d, p)
  {
    var k :| |b| <= k <= |c| && Exec(cfg, Init(), c[..k]).Reached? && p(Exec(cfg, Init(), c[..k]).state);
    assert d[..k] == c[..k];
  }

  predicate IsMissing(s: State) {
    s.record.None?
  }

  predicate LostCreate(f: Id, step: Step) {
    step.Act? && step.f == f && step.action.CreateLock? && step.reply.Lost?
  }

  predicate RefusedDelete(f: Id, step: Step) {
    step.Act? && step.f == f && step.action.DeleteLock? && step.reply.Refused?
  }

  /** Between the two histories the create of f lost its answer, or its delete was refused. */
  ghost predicate LeftBehind(f: Id, before: seq<Step>, after: seq<Step>) {
    exists k :: |before| <= k < |after| && (LostCreate(f, after[k]) || RefusedDelete(f, after[k]))
  }

  lemma LeftLater(f: Id, a: seq<Step>, b: seq<Step>, c: seq<Step>, d: seq<Step>)
    requires a <= b && c <= d && LeftBehind(f, b, c)
    ensures LeftBehind(f, a, d)
  {
    var k :| |b| <= k < |c| && (LostCreate(f, c[k]) || RefusedDelete(f, c[k]));
    assert d[k] == c[k];
  }

  /** Nobody else does anything: every batch is empty. */
  predicate Quiet(schedule: seq<seq<Step>>) {
    forall k :: 0 <= k < |schedule| ==> schedule[k] == []
  }

  /** The record asks for fencing. */
  predicate Asks(record: Option<Record>) {
    record.Some? && (record.value.state.FenceRequired? || record.value.state.Fencing?)
  }

  /** With nobody else about, the host is fenced already, or it is to be and its power-off is proved. */
  predicate FencedAlone(record: Option<Record>, readings: Option<nat>) {
    (record.Some? && record.value.state.Fenced?) || (Asks(record) && readings.Some?)
  }

  class Store {
    const config: Config
    const replies: nat -> Reply        // how this store's own calls end
    var now: State
    var schedule: seq<seq<Step>>       // the others: one batch of steps before each call
    var calls: nat
    ghost var history: seq<Step>

    ghost predicate Valid()
      reads this
    {
      RunTo(config, history, now)
    }

    constructor (config: Config, replies: nat -> Reply, schedule: seq<seq<Step>>)
      ensures Valid() && this.config == config && now == Init() && this.schedule == schedule
    {
      this.config, this.replies, this.now, this.schedule := config, replies, Init(), schedule;
      this.calls, this.history := 0, [];
    }

    /** No call of this store raises. */
    ghost predicate Smooth() {
      forall k :: replies(k).Fine?
    }

    method NextReply() returns (reply: Reply)
      modifies `calls
      ensures Smooth() ==> reply.Fine?
    {
      reply := replies(calls);
      calls := calls + 1;
    }

    method Perform(step: Step)
      requires Valid() && Enabled(config, now, step)
      modifies `now, `history
      ensures Valid() && now == Apply(config, old(now), step) && history == old(history) + [step]
    {
      ExecAppend(config, Init(), history, [step]);
      assert [step][1..] == [];
      now := Apply(config, now, step);
      history := history + [step];
    }

    method OthersThanFencer(f: Id)
      requires Valid() && f in now.fencers
      modifies `now, `history, `schedule
      ensures Valid() && FencerKept(f, old(now), now) && old(history) <= history
      ensures Calls(f, history) == Calls(f, old(history))
      ensures Quiet(old(schedule)) ==> Quiet(schedule) && now == old(now)
    {
      if schedule == [] { return; }
      var batch := schedule[0];
      schedule := schedule[1..];
      for k := 0 to |batch|
        invariant Valid() && FencerKept(f, old(now), now) && old(history) <= history
        invariant Calls(f, history) == Calls(f, old(history))
        invariant schedule == old(schedule)[1..] && (Quiet(old(schedule)) ==> now == old(now))
      {
        if !ByFencer(f, batch[k]) && Enabled(config, now, batch[k]) {
          OtherStep(config, f, now, batch[k]);
          OneMoreCall(f, history, batch[k]);
          Perform(batch[k]);
        }
      }
    }

    method OthersThanRegistrar(i: Id)
      requires Valid() && i in now.registrars
      modifies `now, `history, `schedule
      ensures Valid() && RegistrarKept(i, old(now), now) && old(history) <= history
    {
      if schedule == [] { return; }
      var batch := schedule[0];
      schedule := schedule[1..];
      for k := 0 to |batch|
        invariant Valid() && RegistrarKept(i, old(now), now) && old(history) <= history
      {
        if !ByRegistrar(i, batch[k]) && Enabled(config, now, batch[k]) {
          Perform(batch[k]);
        }
      }
    }

    /**
     * The host part of register_host_failure: a read, then an unconditional put of what follows
     * from it, whatever the record is by then.  An exception may come before the put or after it.
     */
    method RegisterHostFailure(i: Id, event: string) returns (ok: bool, seen: Option<Record>)
      requires Valid() && i !in now.registrars
      modifies this
      ensures Valid() && old(history) < history && i in now.registrars && now.registrars[i].event == event
      ensures ok ==> now.registrars[i].phase.Registered?
      ensures now.registrars[i].phase.Registered? ==>
                && (exists at :: Passed(config, old(history), history, at) && seen == at.record)
                && (exists stamp :: now.record == Some(RegisteredRecord(i, event, seen, stamp)))
                && now.history.registeredAt == now.time - 1
      ensures Smooth() ==> ok
    {
      Perform(CallRegister(i, event));
      OthersThanRegistrar(i);
      ghost var at, before := now, history;
      seen := now.record;
      var get := NextReply();
      if !get.Fine? { return false, seen; }
      Perform(RegisterGet(i));
      OthersThanRegistrar(i);
      var put := NextReply();
      if put.Refused? { return false, seen; }
      var stamp := now.time;
      Perform(RegisterPut(i, stamp));
      assert now.record == Some(RegisteredRecord(i, event, seen, stamp));
      assert history[..|before|] == before;
      assert Passed(config, old(history), history, at);
      ok := put.Fine?;
    }

    /** The others run, then the fencer makes its next call; at is the state it finds. */
    method Call(f: Id, action: Action) returns (reply: Reply, ghost at: State)
      requires Valid() && f in now.fencers && !action.CreateLock? && CanAct(config, now, now.fencers[f], action, Fine)
      modifies this
      ensures Valid() && old(history) < history && Calls(f, history) == Calls(f, old(history)) + 1
      ensures FencerKept(f, old(now), at) && Enabled(config, at, Act(f, action, reply, at.time))
      ensures now == Apply(config, at, Act(f, action, reply, at.time))
      ensures history[|history| - 1] == Act(f, action, reply, at.time)
      ensures old(history) <= history[..|history| - 1] && RunTo(config, history[..|history| - 1], at)
      ensures Smooth() ==> reply.Fine?
      ensures Quiet(old(schedule)) ==> Quiet(schedule) && at == old(now)
    {
      OthersThanFencer(f);
      at := now;
      reply := NextReply();
      var step := Act(f, action, reply, now.time);
      OneMoreCall(f, history, step);
      ghost var found := history;
      Perform(step);
      assert history[..|history| - 1] == found;
    }

    /** The create of the lock key, under the lease just granted: etcd refuses it when the lease is gone. */
    method CreateKey(f: Id)
      requires Valid() && f in now.fencers && now.fencers[f].pc.Granted? && !Owns(now, f)
      modifies this
      ensures Valid() && old(history) < history && f in now.fencers
      ensures now.fencers[f].event == old(now).fencers[f].event
      ensures var pc := now.fencers[f].pc; pc == Locked(0) || pc.Ended?
      ensures now.fencers[f].pc.Ended? && Owns(now, f) ==> LeftBehind(f, old(history), history)
      ensures Quiet(old(schedule)) ==> Quiet(schedule) && now.record == old(now).record
      ensures Smooth() && Quiet(old(schedule)) && old(now).clock < old(now).fencers[f].granted + config.lockTtl ==>
                (now.fencers[f].pc.Locked? <==> old(now).lock.None?)
    {
      OthersThanFencer(f);
      var reply := NextReply();
      if now.clock >= now.fencers[f].granted + config.lockTtl { reply := Refused; }
      var step := Act(f, CreateLock, reply, now.time);
      Perform(step);
      assert history[|history| - 1] == step;
    }

    /** One round: a read and, if the record asks for fencing, a replace. */
    method TransitionRound(f: Id) returns (again: bool)
      requires Valid() && f in now.fencers && now.fencers[f].pc.Locked?
      modifies this
      ensures Valid() && old(history) < history && f in now.fencers && now.fencers[f].event == old(now).fencers[f].event
      ensures var tries, pc := old(now).fencers[f].pc.tries, now.fencers[f].pc;
              if again then pc == Locked(tries + 1) && tries + 1 < MAX_CAS_RETRIES
              else pc.NotReady? || pc.Preparing? || pc == Failing(0)
      ensures now.fencers[f].pc.Preparing? ==>
                now.record.Some? && now.record.value.state.Fencing? && now.record.value.owner == f
      ensures now.fencers[f].pc.NotReady? ==>
                now.record.None? || now.record.value.state.Fenced? || now.record.value.state.FenceFailed?
      ensures Calls(f, history) <= Calls(f, old(history)) + 2
      ensures again || (Smooth() && now.fencers[f].pc.Failing?) ==> Calls(f, history) == Calls(f, old(history)) + 2
      ensures Smooth() && now.fencers[f].pc.Failing? ==> old(now).fencers[f].pc.tries + 1 >= MAX_CAS_RETRIES
      ensures Smooth() && Quiet(old(schedule)) ==>
                && Quiet(schedule) && !again
                && if Asks(old(now).record) then now.fencers[f].pc.Preparing?
                   else now.fencers[f].pc.NotReady? && now.record == old(now).record
    {
      ghost var reply, at;
      reply, at := Call(f, ReadForTransition);
      if !now.fencers[f].pc.TransitionRead? { return false; }
      reply, at := Call(f, ReplaceByFencing);
      again := now.fencers[f].pc.Locked?;
    }

    /**
     * transition_fencing_state to FENCING: at most MAX_CAS_RETRIES rounds of two calls.  It succeeds
     * over the very record it read, which was FENCE_REQUIRED or FENCING; it gives up at once on any
     * other; and a conflict, when no call raises, takes all the rounds.
     */
    method TransitionToFencing(f: Id)
      requires Valid() && f in now.fencers && now.fencers[f].pc == Locked(0)
      modifies this
      ensures Valid() && old(history) < history && f in now.fencers && now.fencers[f].event == old(now).fencers[f].event
      ensures var pc := now.fencers[f].pc; pc.NotReady? || pc.Preparing? || pc == Failing(0)
      ensures now.fencers[f].pc.Preparing? ==>
                now.record.Some? && now.record.value.state.Fencing? && now.record.value.owner == f
      ensures now.fencers[f].pc.NotReady? ==>
                now.record.None? || now.record.value.state.Fenced? || now.record.value.state.FenceFailed?
      ensures Calls(f, history) <= Calls(f, old(history)) + 2 * MAX_CAS_RETRIES
      ensures Smooth() && now.fencers[f].pc.Failing? ==> Calls(f, history) == Calls(f, old(history)) + 2 * MAX_CAS_RETRIES
      ensures Smooth() && Quiet(old(schedule)) ==>
                && Quiet(schedule) && !now.fencers[f].pc.Failing?
                && if Asks(old(now).record) then now.fencers[f].pc.Preparing?
                   else now.fencers[f].pc.NotReady? && now.record == old(now).record
    {
      for tries := 0 to MAX_CAS_RETRIES
        invariant Valid() && old(history) <= history && (tries > 0 ==> old(history) < history)
        invariant f in now.fencers && now.fencers[f].event == old(now).fencers[f].event
        invariant now.fencers[f].pc == if tries < MAX_CAS_RETRIES then Locked(tries) else Failing(0)
        invariant Smooth() && Quiet(old(schedule)) ==> tries == 0 && Quiet(schedule) && now.record == old(now).record
        invariant Calls(f, history) == Calls(f, old(history)) + 2 * tries
      {
        var again := TransitionRound(f);
        if !again { return; }
      }
    }

    /** mark_fenced: when it returns, the record is FENCED by this event with this many readings. */
    method MarkFenced(f: Id)
      requires Valid() && f in now.fencers && now.fencers[f].pc.Proved? && now.fencers[f].pc.tries == 0
      modifies this
      ensures Valid() && old(history) < history && f in now.fencers && now.fencers[f].event == old(now).fencers[f].event
      ensures var pc := now.fencers[f].pc; pc.Leaving? || pc == Failing(0)
      ensures now.fencers[f].pc.Leaving? ==>
                && IsFenced(now) && now.record.value.event == now.fencers[f].event && now.record.value.owner == f
                && now.record.value.verified == "Off" && now.record.value.readings == old(now).fencers[f].pc.readings
      ensures Calls(f, history) <= Calls(f, old(history)) + 2 * MAX_CAS_RETRIES
      ensures Smooth() && Quiet(old(schedule)) && old(now).record.Some? ==> now.fencers[f].pc.Leaving?
    {
      ghost var pc0 := now.fencers[f].pc;
      ghost var reply, at;
      for tries := 0 to MAX_CAS_RETRIES
        invariant Valid() && old(history) <= history && (tries > 0 ==> old(history) < history)
        invariant f in now.fencers && now.fencers[f].event == old(now).fencers[f].event
        invariant now.fencers[f].pc == if tries < MAX_CAS_RETRIES then Proved(pc0.readings, tries) else Failing(0)
        invariant Smooth() && Quiet(old(schedule)) && old(now).record.Some? ==>
                    tries == 0 && Quiet(schedule) && now.record == old(now).record
        invariant Calls(f, history) == Calls(f, old(history)) + 2 * tries
      {
        reply, at := Call(f, ReadForMark);
        if now.fencers[f].pc.Failing? { return; }
        reply, at := Call(f, ReplaceByFenced);
        if !now.fencers[f].pc.Proved? { return; }
      }
    }

    /** The read of one round. */
    method ReadToFail(f: Id)
      requires Valid() && f in now.fencers && now.fencers[f].pc.Failing?
      modifies this
      ensures Valid() && old(history) < history && f in now.fencers && Calls(f, history) == Calls(f, old(history)) + 1
      ensures now.fencers[f] == old(now).fencers[f].(pc := now.fencers[f].pc)
      ensures now.fencers[f].pc.Leaving? || (now.fencers[f].pc.FailRead?
                && now.fencers[f].pc.tries == old(now).fencers[f].pc.tries)
      ensures Smooth() && now.fencers[f].pc.Leaving? ==> Saw(config, old(history), history, IsMissing)
    {
      var reply;
      ghost var at;
      reply, at := Call(f, ReadForFailure);
      if at.record.None? { SawThere(config, old(history), history[..|history| - 1], history, at, IsMissing); }
    }

    /** One round of mark_fence_failed: a read and, if there is a record, a replace. */
    method FailRound(f: Id) returns (ghost marked: bool)
      requires Valid() && f in now.fencers && now.fencers[f].pc.Failing?
      modifies this
      ensures Valid() && old(history) < history && f in now.fencers
      ensures now.fencers[f] == old(now).fencers[f].(pc := now.fencers[f].pc)
      ensures var tries := old(now).fencers[f].pc.tries;
              now.fencers[f].pc.Leaving? || (now.fencers[f].pc == Failing(tries + 1) && tries + 1 < MAX_CAS_RETRIES)
      ensures marked ==> now.fencers[f].pc.Leaving? && now.record.Some? && now.record.value.state.FenceFailed?
                         && now.record.value.event == now.fencers[f].event && now.record.value.owner == f
      ensures Smooth() && !marked ==>
                || Saw(config, old(history), history, IsMissing)
                || (Calls(f, history) == Calls(f, old(history)) + 2
                    && (now.fencers[f].pc.Failing? || old(now).fencers[f].pc.tries + 1 >= MAX_CAS_RETRIES))
    {
      ReadToFail(f);
      ghost var read := history;
      if now.fencers[f].pc.Leaving? {
        if Smooth() { SawLater(config, old(history), old(history), read, history, IsMissing); }
        return false;
      }
      ghost var cur := now.fencers[f].pc.cur;
      var reply;
      ghost var at;
      reply, at := Call(f, ReplaceByFailed);
      marked := reply.Fine? && Hits(at, cur);
    }

    /**
     * mark_fence_failed, whose errors are swallowed: it always gets to the release of the lock.
     * marked says that a replace hit; when no call raises, nothing but a missing record or eight
     * rounds lost to other writers prevents that.
     */
    method MarkFenceFailed(f: Id) returns (ghost marked: bool)
      requires Valid() && f in now.fencers && now.fencers[f].pc == Failing(0)
      modifies this
      ensures Valid() && old(history) < history && f in now.fencers
      ensures now.fencers[f] == old(now).fencers[f].(pc := Leaving)
      ensures marked ==> now.record.Some? && now.record.value.state.FenceFailed?
                         && now.record.value.event == now.fencers[f].event && now.record.value.owner == f
      ensures Smooth() && !marked ==> Saw(config, old(history), history, IsMissing)
                                      || Calls(f, history) == Calls(f, old(history)) + 2 * MAX_CAS_RETRIES
    {
      marked := false;
      var tries := 0;
      while now.fencers[f].pc.Failing?
        invariant Valid() && old(history) <= history && (tries > 0 ==> old(history) < history)
        invariant f in now.fencers && now.fencers[f] == old(now).fencers[f].(pc := now.fencers[f].pc)
        invariant now.fencers[f].pc.Leaving? || (now.fencers[f].pc == Failing(tries) && tries < MAX_CAS_RETRIES)
        invariant tries == 0 ==> now.fencers[f].pc.Failing?
        invariant marked ==> now.fencers[f].pc.Leaving? && now.record.Some? && now.record.value.state.FenceFailed?
                             && now.record.value.event == now.fencers[f].event && now.record.value.owner == f
        invariant Smooth() && !marked ==>
                    || Saw(config, old(history), history, IsMissing)
                    || (Calls(f, history) == Calls(f, old(history)) + 2 * tries
                        && (now.fencers[f].pc.Failing? || tries >= MAX_CAS_RETRIES))
        invariant tries <= MAX_CAS_RETRIES
        decreases MAX_CAS_RETRIES - tries, now.fencers[f].pc.Failing?
      {
        ghost var before := history;
        marked := FailRound(f);
        if Smooth() && !marked {
          if Saw(config, old(history), before, IsMissing) { SawLater(config, old(history), old(history), before, history, IsMissing); }
          if Saw(config, before, history, IsMissing) { SawLater(config, old(history), before, history, history, IsMissing); }
        }
        tries := tries + 1;
      }
    }

    /**
     * release_host_fencing_lock: the key, whoever owns it by then, and after that the lease.  The
     * key stays this engine's only if the delete was refused.
     */
    method ReleaseHostLock(f: Id)
      requires Valid() && f in now.fencers && now.fencers[f].pc.Leaving?
      modifies this
      ensures Valid() && old(history) < history && f in now.fencers && now.fencers[f].pc.Ended?
      ensures Owns(now, f) ==> LeftBehind(f, old(history), history)
    {
      ghost var reply, at;
      reply, at := Call(f, DeleteLock);
      assert Owns(now, f) ==> RefusedDelete(f, history[|history| - 1]);
      if now.fencers[f].pc.Unlocked? {
        reply, at := Call(f, RevokeLease);
      }
    }

    /** From the lock to the proof; readings are those of fence_off, None when it raised. */
    method FenceLocked(f: Id, readings: Option<nat>) returns (fenced: bool)
      requires Valid() && f in now.fencers && now.fencers[f].pc == Locked(0)
      requires readings.Some? ==> readings.value >= config.requiredReadings
      modifies this
      ensures Valid() && old(history) < history && f in now.fencers
      ensures fenced ==> now.fencers[f].pc.Leaving? && Saw(config, old(history), history, IsFenced)
      ensures !fenced ==> now.fencers[f].pc == Failing(0)
      ensures Smooth() && Quiet(old(schedule)) ==> (fenced <==> FencedAlone(old(now).record, readings))
    {
      TransitionToFencing(f);
      ghost var reply, at;
      if now.fencers[f].pc.NotReady? {
        reply, at := Call(f, Reread);
        if now.fencers[f].pc.Leaving? { SawThere(config, old(history), history, history, now, IsFenced); }
        return now.fencers[f].pc.Leaving?;
      }
      if now.fencers[f].pc.Failing? { return false; }
      fenced := PowerOff(f, readings);
      if fenced { SawThere(config, old(history), history, history, now, IsFenced); }
    }

    /** The readings and the mark. */
    method PowerOff(f: Id, readings: Option<nat>) returns (fenced: bool)
      requires Valid() && f in now.fencers && now.fencers[f].pc.Preparing?
      requires readings.Some? ==> readings.value >= config.requiredReadings
      modifies this
      ensures Valid() && old(history) < history && f in now.fencers
      ensures fenced ==> now.fencers[f].pc.Leaving? && IsFenced(now)
      ensures !fenced ==> now.fencers[f].pc == Failing(0)
      ensures Smooth() && Quiet(old(schedule)) && old(now).record.Some? ==> (fenced <==> readings.Some?)
    {
      ghost var reply, at;
      reply, at := Call(f, BeginReads);
      if now.fencers[f].pc.Failing? { return false; }
      if readings.None? {
        OthersThanFencer(f);
        var step := Act(f, FenceReturns(config.requiredReadings), Refused, now.time);
        Perform(step);
        return false;
      }
      reply, at := Call(f, FenceReturns(readings.value));
      if now.fencers[f].pc.Failing? { return false; }
      MarkFenced(f);
      fenced := now.fencers[f].pc.Leaving?;
    }

    /** Try, except and finally. */
    method FenceAndRelease(f: Id, readings: Option<nat>) returns (fenced: bool)
      requires Valid() && f in now.fencers && now.fencers[f].pc == Locked(0)
      requires readings.Some? ==> readings.value >= config.requiredReadings
      modifies this
      ensures Valid() && old(history) < history && f in now.fencers && now.fencers[f].pc.Ended?
      ensures Owns(now, f) ==> LeftBehind(f, old(history), history)
      ensures fenced ==> Saw(config, old(history), history, IsFenced)
      ensures Smooth() && Quiet(old(schedule)) ==> (fenced <==> FencedAlone(old(now).record, readings))
    {
      fenced := FenceLocked(f, readings);
      if !fenced { ghost var marked := MarkFenceFailed(f); }
      ghost var before := history;
      ReleaseHostLock(f);
      if fenced { SawLater(config, old(history), old(history), before, history, IsFenced); }
      if Owns(now, f) { LeftLater(f, old(history), before, history, history); }
    }

    /**
     * The life of one _fence_one.  On every way out the engine is outside the section, and the lock
     * key is this engine's only if the create lost its answer or the delete was refused.  If it
     * fenced the host, the record was FENCED on the way.  When nobody interferes and no call raises,
     * it does exactly if the lock is free and the record is FENCED already, or asks for fencing and
     * the power-off is proved.
     */
    method FenceOne(f: Id, event: string, readings: Option<nat>) returns (fenced: bool)
      requires Valid() && f !in now.fencers && !Owns(now, f)
      requires readings.Some? ==> readings.value >= config.requiredReadings
      modifies this
      ensures Valid() && old(history) < history && f in now.fencers && now.fencers[f].pc.Ended?
      ensures Owns(now, f) ==> LeftBehind(f, old(history), history)
      ensures fenced ==> Saw(config, old(history), history, IsFenced)
      ensures Smooth() && Quiet(old(schedule)) && config.lockTtl >= 1 ==>
                (fenced <==> old(now).lock.None? && FencedAlone(old(now).record, readings))
    {
      Perform(CallFence(f, event));
      ghost var reply, at;
      reply, at := Call(f, GrantLease);
      if now.fencers[f].pc.Ended? { return false; }
      ghost var before := history;
      CreateKey(f);
      if now.fencers[f].pc.Ended? {
        if Owns(now, f) { LeftLater(f, old(history), before, history, history); }
        return false;
      }
      before := history;
      fenced := FenceAndRelease(f, readings);
      if fenced { SawLater(config, old(history), before, history, history, IsFenced); }
      if Owns(now, f) { LeftLater(f, old(history), before, history, history); }
    }
  }
}
