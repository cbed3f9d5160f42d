/**
 * The task that fences a failure set: one segment lock around the loop, one host lock around each
 * host, and the clean-up on every way out.
 *
 * Every lock operation it makes is an enabled step of the machine of FencingLock, whatever the other
 * tasks do in between, so what holds of all runs of the machine holds of the program.  Any call may
 * raise, before or after it took effect, and the records are whatever the others make of them.
 */
module FencingTask {
  import opened FencingTypes
  import opened Wrappers

  import L = FencingLock

  datatype Record = Record(state: HostState, verified: string)

  /** What the k-th call meets: its reply, and the records as the others left them. */
  datatype World = World(reply: Reply, records: map<string, Record>)

  datatype Error = Disabled | LockHeld | NotReady | Unproved | Raised

  datatype Result<T> = Ok(value: T) | Err(error: Error)

  datatype Event =
    | Took(key: Key)
    | Freed(key: Key, owner: Option<Id>)      // the key is deleted; owner is who had it then
    | Leaked(key: Key)                        // the create's answer was lost, or the delete was refused
    | FoundFenced(host: string)
    | PowerOff(host: string, held: set<Key>)  // fence_off is called; held are the keys owned then
    | MarkedFenced(host: string)
    | MarkFailed(host: string)                // mark_fence_failed is called; its errors are swallowed
    | Closed(host: string)

  // ---------------------------------------------------------------- logs

  /** What the log owes after event number i. */
  predicate Tidy(log: seq<Event>, i: nat)
    requires i < |log|
  {
    match log[i]
    case Took(HostLock(h)) =>
      i + 1 < |log| && (log[i + 1] == FoundFenced(h) || log[i + 1] == MarkFailed(h)
                        || (log[i + 1].PowerOff? && log[i + 1].host == h))
    case PowerOff(h, _) =>
      && 0 < i && log[i - 1] == Took(HostLock(h))
      && i + 2 < |log| && (log[i + 1] == MarkedFenced(h) || log[i + 1] == MarkFailed(h)) && log[i + 2] == Closed(h)
    case FoundFenced(h) => i + 1 < |log| && Ends(log[i + 1], HostLock(h))
    case MarkFailed(h) => i + 1 < |log| && (log[i + 1] == Closed(h) || Ends(log[i + 1], HostLock(h)))
    case Closed(h) => i + 1 < |log| && Ends(log[i + 1], HostLock(h))
    case _ => true
  }

  /** The release of a lock was called. */
  predicate Ends(e: Event, key: Key) {
    (e.Freed? && e.key == key) || e == Leaked(key)
  }

  ghost predicate AllTidy(log: seq<Event>) {
    forall i :: 0 <= i < |log| ==> Tidy(log, i)
  }

  /** Every host is powered off under its own lock and the segment's. */
  ghost predicate UnderBothLocks(log: seq<Event>, segment: string) {
    forall i :: 0 <= i < |log| && log[i].PowerOff? ==> HostLock(log[i].host) in log[i].held && SegmentLock(segment) in log[i].held
  }

  /** Every deleted key was this engine's. */
  ghost predicate DeletesOwn(log: seq<Event>, me: Id) {
    forall i :: 0 <= i < |log| && log[i].Freed? ==> log[i].owner == Some(me)
  }

  predicate Settled(log: seq<Event>, host: string) {
    MarkedFenced(host) in log || FoundFenced(host) in log
  }

  /** Only these hosts were locked. */
  ghost predicate Touches(log: seq<Event>, hosts: seq<string>) {
    forall i :: 0 <= i < |log| && log[i].Took? && log[i].key.HostLock? ==> log[i].key.host in hosts
  }

  /** The record is in a state from which fencing may start. */
  predicate ToFence(records: map<string, Record>, host: string) {
    host in records && (records[host].state.FenceRequired? || records[host].state.Fencing?)
  }

  ghost predicate AllProve(readings: seq<Option<Record>>) {
    forall i :: 0 <= i < |readings| ==> Proves(readings[i])
  }

  predicate Proves(r: Option<Record>) {
    r.Some? && r.value.state.Fenced? && r.value.verified == "Off"
  }

  lemma TidyAppend(a: seq<Event>, b: seq<Event>)
    requires AllTidy(a) && AllTidy(b)
    ensures AllTidy(a + b)
  {
    forall i | 0 <= i < |a + b| ensures Tidy(a + b, i) {
      if i < |a| {
        assert Tidy(a, i);
      } else {
        assert Tidy(b, i - |a|);
      }
    }
  }

  /** What the guarded part of _fence_one may log, when it owns these keys. */
  ghost predicate GuardedLog(host: string, held: set<Key>, log: seq<Event>) {
    || log == [FoundFenced(host)] || log == [PowerOff(host, held), MarkedFenced(host), Closed(host)]
    || log == [MarkFailed(host)] || log == [PowerOff(host, held), MarkFailed(host), Closed(host)]
  }

  lemma HostLogTidy(host: string, held: set<Key>, middle: seq<Event>, end: Event)
    requires GuardedLog(host, held, middle) && Ends(end, HostLock(host))
    ensures var log := [Took(HostLock(host))] + middle + [end];
            && AllTidy(log) && Touches(log, [host])
            && (forall i :: 0 <= i < |log| && log[i].PowerOff? ==> log[i] == PowerOff(host, held))
            && (forall i :: 0 <= i < |log| && log[i].Freed? ==> log[i] == end)
            && (forall k :: Leaked(k) in log <==> Leaked(k) == end)
            && (Settled(middle, host) ==> Settled(log, host))
  {
    var log := [Took(HostLock(host))] + middle + [end];
    if |middle| == 1 {
      assert log == [Took(HostLock(host)), middle[0], end];
    } else {
      assert log == [Took(HostLock(host)), middle[0], middle[1], middle[2], end];
    }
  }

  /** The log of execute, around what happened in the segment's section. */
  lemma Around(segment: string, hosts: seq<string>, n: nat, middle: seq<Event>, end: Event)
    requires AllTidy(middle) && n <= |hosts| && Touches(middle, hosts[..n]) && Ends(end, SegmentLock(segment))
    ensures var log := [Took(SegmentLock(segment))] + middle + [end];
            AllTidy(log) && Touches(log, hosts[..n])
  {
    TidyAppend([Took(SegmentLock(segment))], middle);
    TidyAppend([Took(SegmentLock(segment))] + middle, [end]);
  }

  /** The log after the first n hosts. */
  ghost predicate LogUpTo(log: seq<Event>, hosts: seq<string>, n: nat)
    requires n <= |hosts|
  {
    && AllTidy(log) && Touches(log, hosts[..n]) && (forall k :: Leaked(k) !in log)
    && forall j :: 0 <= j < n ==> Settled(log, hosts[j])
  }

  lemma OneMoreHost(log: seq<Event>, hosts: seq<string>, n: nat, one: seq<Event>)
    requires n < |hosts| && LogUpTo(log, hosts, n) && AllTidy(one) && Touches(one, [hosts[n]])
    ensures AllTidy(log + one) && Touches(log + one, hosts[..n + 1])
    ensures forall j :: 0 <= j < n ==> Settled(log + one, hosts[j])
    ensures Settled(one, hosts[n]) && (forall k :: Leaked(k) !in one) ==> LogUpTo(log + one, hosts, n + 1)
    ensures forall k :: Leaked(k) in log + one ==> Leaked(k) in one
  {
    TidyAppend(log, one);
    assert hosts[..n + 1] == hosts[..n] + [hosts[n]];
  }

  lemma AroundProtected(segment: string, middle: seq<Event>, end: Event, me: Id)
    requires Protected(middle, segment, me) && Ends(end, SegmentLock(segment)) && (end.Freed? ==> end.owner == Some(me))
    ensures Protected([Took(SegmentLock(segment))] + middle + [end], segment, me)
  {
    ProtectedAppend([Took(SegmentLock(segment))], middle, segment, me);
    ProtectedAppend([Took(SegmentLock(segment))] + middle, [end], segment, me);
  }

  /** Hosts are powered off under both locks, and what is deleted is the task's own. */
  ghost predicate Protected(log: seq<Event>, segment: string, me: Id) {
    UnderBothLocks(log, segment) && DeletesOwn(log, me)
  }

  lemma ProtectedAppend(a: seq<Event>, b: seq<Event>, segment: string, me: Id)
    requires Protected(a, segment, me) && Protected(b, segment, me)
    ensures Protected(a + b, segment, me)
  {
    forall i | 0 <= i < |a + b| && (a + b)[i].PowerOff?
      ensures HostLock((a + b)[i].host) in (a + b)[i].held && SegmentLock(segment) in (a + b)[i].held
    {
      if i < |a| {
        assert (a + b)[i] == a[i];
      } else {
        assert (a + b)[i] == b[i - |a|];
      }
    }
  }

  lemma HostLogProtected(segment: string, host: string, held: set<Key>, middle: seq<Event>, end: Event, me: Id)
    requires GuardedLog(host, held, middle) && Ends(end, HostLock(host)) && (end.Freed? ==> end.owner == Some(me))
    requires HostLock(host) in held && SegmentLock(segment) in held
    ensures Protected([Took(HostLock(host))] + middle + [end], segment, me)
  {
    HostLogTidy(host, held, middle, end);
  }

  // ---------------------------------------------------------------- keys

  /** Keys of the task whose lease has not run out at the clock are still there, but for one. */
  ghost predicate StillThereBut(but: Key, before: map<Key, Lock>, after: map<Key, Lock>, me: Id, clock: nat) {
    forall key :: key in before && before[key].owner == me && clock < before[key].expires && key != but ==>
                    key in after && after[key] == before[key]
  }

  /** Whatever is left behind stays with the task, at least until then. */
  ghost predicate LeaksStay(log: seq<Event>, locks: map<Key, Lock>, me: Id, until: nat) {
    forall key :: Leaked(key) in log ==> key in locks && locks[key].owner == me && locks[key].expires >= until
  }

  /** Nothing is owned beyond what was, but for keys left behind. */
  ghost predicate OnlyLeaksMore(before: set<Key>, after: set<Key>, log: seq<Event>) {
    forall key :: key in after ==> key in before || Leaked(key) in log
  }

  /** Somewhere on the way somebody had the key. */
  ghost predicate Taken(c: L.Config, before: seq<L.Step>, after: seq<L.Step>, key: Key) {
    exists k :: |before| <= k <= |after| && L.Exec(c, L.Init(), after[..k]).Reached?
                && key in L.Exec(c, L.Init(), after[..k]).state.locks
  }

  lemma TakenThere(c: L.Config, before: seq<L.Step>, at: seq<L.Step>, after: seq<L.Step>, s: L.State, key: Key)
    requires before <= at <= after && L.RunTo(c, at, s) && key in s.locks
    ensures Taken(c, before, after, key)
  {
    assert after[..|at|] == at;
  }

  lemma TakenOn(c: L.Config, a: seq<L.Step>, b: seq<L.Step>, d: seq<L.Step>, key: Key)
    requires b <= d && Taken(c, a, b, key)
    ensures Taken(c, a, d, key)
  {
    var k :| |a| <= k <= |b| && L.Exec(c, L.Init(), b[..k]).Reached? && key in L.Exec(c, L.Init(), b[..k]).state.locks;
    assert d[..k] == b[..k];
  }

  lemma TakenLater(c: L.Config, a: seq<L.Step>, b: seq<L.Step>, d: seq<L.Step>, key: Key)
    requires a <= b <= d && Taken(c, b, d, key)
    ensures Taken(c, a, d, key)
  {
  }

  /** The task is at the same host of the same failure set. */
  predicate SamePlace(a: L.Task, b: L.Task) {
    a.segment == b.segment && a.hosts == b.hosts && a.next == b.next
  }

  /** The task holds the same segment, for the same failure set. */
  predicate SameRun(a: L.Task, b: L.Task) {
    a.segment == b.segment && a.hosts == b.hosts && a.segmentGranted == b.segmentGranted
  }

  predicate HasKey(ofHost: bool, me: L.Task) {
    ofHost ==> L.HasHost(me)
  }

  function LockKey(ofHost: bool, me: L.Task): Key
    requires HasKey(ofHost, me)
  {
    if ofHost then L.HostKey(me) else L.SegmentKey(me)
  }

  function GrantedAt(ofHost: bool, me: L.Task): nat {
    if ofHost then me.hostGranted else me.segmentGranted
  }

  class Engine {
    const config: L.Config
    const enabled: bool
    const world: nat -> World
    var calls: nat
    var now: L.State
    var schedule: seq<seq<L.Step>>     // the other tasks and time: one batch of steps before each call
    var records: map<string, Record>
    ghost var history: seq<L.Step>

    ghost predicate Valid()
      reads this
    {
      L.RunTo(config, history, now)
    }

    constructor (config: L.Config, enabled: bool, world: nat -> World, schedule: seq<seq<L.Step>>)
      ensures Valid() && this.config == config && this.enabled == enabled && this.world == world
    {
      this.config, this.enabled, this.world, this.schedule := config, enabled, world, schedule;
      this.calls, this.now, this.records, this.history := 0, L.Init(), map[], [];
    }

    ghost function Held(me: Id): set<Key>
      reads `now
    {
      L.Owned(now.locks, me)
    }

    /** No call ever raises; the others do what they like. */
    ghost predicate Smooth() {
      forall k :: world(k).reply.Fine?
    }

    /** The sections of all tasks fit the leases. */
    ghost predicate Safe() {
      L.Fits(config) && config.maxHosts >= 1
    }

    method Perform(step: L.Step)
      requires Valid() && L.Enabled(config, now, step)
      modifies `now, `history
      ensures Valid() && now == L.Apply(config, old(now), step) && history == old(history) + [step]
    {
      L.ExecAppend(config, L.Init(), history, [step]);
      assert [step][1..] == [];
      now := L.Apply(config, now, step);
      history := history + [step];
    }

    /** One step that is not the task's, if it is enabled. */
    method Other(me: Id, step: L.Step)
      requires Valid() && me in now.tasks
      modifies `now, `history
      ensures Valid() && L.Undisturbed(me, old(now), now) && old(history) <= history
      ensures Safe() ==> L.StillThere(old(now).locks, now.locks, me, now.clock)
    {
      if !L.StepOf(me, step) && L.Enabled(config, now, step) {
        L.OtherStep(config, now, step, me);
        if Safe() {
          L.Kept(config, history, now);
          L.KeysStay(config, now, step, me);
        }
        Perform(step);
      }
    }

    method Others(me: Id)
      requires Valid() && me in now.tasks
      modifies `now, `schedule, `history
      ensures Valid() && L.Undisturbed(me, old(now), now) && old(history) <= history
      ensures Safe() ==> L.StillThere(old(now).locks, now.locks, me, now.clock)
    {
      if schedule == [] { return; }
      var batch := schedule[0];
      schedule := schedule[1..];
      for k := 0 to |batch|
        invariant Valid() && L.Undisturbed(me, old(now), now) && old(history) <= history
        invariant Safe() ==> L.StillThere(old(now).locks, now.locks, me, now.clock)
      {
        Other(me, batch[k]);
      }
    }

    /** The others' turn, and the reply to the next call. */
    method Turn(me: Id) returns (reply: Reply)
      requires Valid() && me in now.tasks
      modifies this
      ensures Valid() && L.Undisturbed(me, old(now), now) && old(history) <= history
      ensures Safe() ==> L.StillThere(old(now).locks, now.locks, me, now.clock)
      ensures calls == old(calls) + 1 && records == world(old(calls)).records && reply == world(old(calls)).reply
    {
      Others(me);
      calls, records, reply := calls + 1, world(calls).records, world(calls).reply;
    }

    /** The grant of the lease. */
    method GrantLease(me: Id, ofHost: bool) returns (ok: bool)
      requires Valid() && me in now.tasks && HasKey(ofHost, now.tasks[me])
      requires if ofHost then now.tasks[me].pc.Looping? else now.tasks[me].pc.Called?
      modifies this
      ensures Valid() && old(history) <= history && old(now).clock <= now.clock && calls == old(calls) + 1
      ensures me in now.tasks && SamePlace(old(now).tasks[me], now.tasks[me]) && Held(me) <= old(Held(me))
      ensures now.tasks[me].pc == if ok then (if ofHost then L.HostGranted else L.SegmentGranted)
                                  else if ofHost then L.LeavingSegment else L.Ended
      ensures ok ==> old(now).clock <= GrantedAt(ofHost, now.tasks[me]) <= now.clock
      ensures ofHost ==> SameRun(old(now).tasks[me], now.tasks[me])
      ensures Smooth() ==> ok
    {
      var reply := Turn(me);
      Perform(L.Act(me, if ofHost then L.GrantHost else L.GrantSegment, reply));
      ok := reply.Fine?;
    }

    /** The create of the key under the lease; found says that somebody had it. */
    method CreateKey(me: Id, ofHost: bool) returns (created: Reply, found: bool)
      requires Valid() && me in now.tasks && HasKey(ofHost, now.tasks[me])
      requires if ofHost then now.tasks[me].pc.HostGranted? else now.tasks[me].pc.SegmentGranted?
      modifies this
      ensures Valid() && old(history) <= history && old(now).clock <= now.clock && calls == old(calls) + 1
      ensures me in now.tasks && SamePlace(old(now).tasks[me], now.tasks[me])
      ensures GrantedAt(ofHost, now.tasks[me]) == GrantedAt(ofHost, old(now).tasks[me])
      ensures SameRun(old(now).tasks[me], now.tasks[me])
      ensures now.tasks[me].pc == if created.Fine? && !found then (if ofHost then L.InHost else L.Looping)
                                  else if ofHost then L.LeavingSegment else L.Ended
      ensures var key := LockKey(ofHost, old(now).tasks[me]);
              if created.Refused? || found then Held(me) <= old(Held(me))
              else key in now.locks && now.locks[key] == Lock(me, GrantedAt(ofHost, now.tasks[me]) + config.lockTtl)
                   && Held(me) <= old(Held(me)) + {key}
      ensures found ==> Taken(config, old(history), history, LockKey(ofHost, old(now).tasks[me]))
      ensures Smooth() && created.Refused? ==> now.clock >= GrantedAt(ofHost, now.tasks[me]) + config.lockTtl
      ensures Smooth() ==> !created.Lost?
    {
      created := Turn(me);
      ghost var at, before := now, history;
      var task := now.tasks[me];
      if now.clock >= GrantedAt(ofHost, task) + config.lockTtl { created := Refused; }
      found := LockKey(ofHost, task) in now.locks;
      Perform(L.Act(me, if ofHost then L.CreateHost else L.CreateSegment, created));
      if found { TakenThere(config, old(history), before, history, at, LockKey(ofHost, task)); }
    }

    /** _acquire_lock: Ok(false) when somebody has the key. */
    method AcquireLock(me: Id, ofHost: bool) returns (r: Result<bool>, ghost log: seq<Event>)
      requires Valid() && me in now.tasks && HasKey(ofHost, now.tasks[me])
      requires if ofHost then now.tasks[me].pc.Looping? else now.tasks[me].pc.Called?
      modifies this
      ensures calls >= old(calls)
      ensures Valid() && old(history) <= history && old(now).clock <= now.clock
      ensures me in now.tasks && SamePlace(old(now).tasks[me], now.tasks[me])
      ensures now.tasks[me].pc == if r == Ok(true) then (if ofHost then L.InHost else L.Looping)
                                  else if ofHost then L.LeavingSegment else L.Ended
      ensures var key := LockKey(ofHost, old(now).tasks[me]);
              && Held(me) <= old(Held(me)) + {key} && (log == [] ==> Held(me) <= old(Held(me)))
              && (r == Ok(true) ==> log == [Took(key)] && key in Held(me))
              && (r == Ok(false) ==> log == [] && Taken(config, old(history), history, key))
              && (r.Err? ==> r.error.Raised? && (log == [] || log == [Leaked(key)]))
              && LeaksStay(log, now.locks, me, old(now).clock + config.lockTtl)
      ensures r == Ok(true) ==> GrantedAt(ofHost, now.tasks[me]) >= old(now).clock && calls == old(calls) + 2
      ensures ofHost ==> SameRun(old(now).tasks[me], now.tasks[me])
      ensures Smooth() && r.Err? ==> log == [] && now.clock >= old(now).clock + config.lockTtl
    {
      log := [];
      var key := LockKey(ofHost, now.tasks[me]);
      var granted := GrantLease(me, ofHost);
      if !granted { return Err(Raised), log; }
      ghost var leased := history;
      var created, found := CreateKey(me, ofHost);
      if created.Refused? || (found && created.Lost?) { return Err(Raised), log; }
      if found {
        ghost var before := history;
        TakenLater(config, old(history), leased, history, key);
        var revoke := Turn(me);
        TakenOn(config, old(history), before, history, key);
        return Ok(false), log;
      }
      if created.Lost? { return Err(Raised), [Leaked(key)]; }
      return Ok(true), [Took(key)];
    }

    /** The delete of the key, whoever owns it. */
    method DeleteKey(me: Id, ofHost: bool) returns (deleted: Reply, ghost log: seq<Event>)
      requires Valid() && me in now.tasks && HasKey(ofHost, now.tasks[me])
      requires if ofHost then now.tasks[me].pc.LeavingHost? else now.tasks[me].pc.LeavingSegment?
      modifies this
      ensures calls >= old(calls)
      ensures Valid() && old(history) <= history && old(now).clock <= now.clock
      ensures me in now.tasks && SamePlace(old(now).tasks[me], now.tasks[me]) && SameRun(old(now).tasks[me], now.tasks[me])
      ensures Held(me) <= old(Held(me))
      ensures var pc := old(now).tasks[me].pc;
              now.tasks[me].pc == if deleted.Fine? then (if ofHost then L.HostUnlocked(pc.failed) else L.SegmentUnlocked)
                                  else if ofHost then L.LeavingSegment else L.Ended
      ensures var key := LockKey(ofHost, old(now).tasks[me]);
              && |log| == 1 && Ends(log[0], key) && (log[0].Freed? <==> !deleted.Refused?)
              && (log[0].Freed? ==> key !in now.locks)
              && (Safe() && log[0].Freed? ==> log[0].owner == Some(me))
              && (Safe() && log[0].Leaked? ==>
                    key in now.locks && now.locks[key] == Lock(me, GrantedAt(ofHost, old(now).tasks[me]) + config.lockTtl))
              && (Safe() ==> StillThereBut(key, old(now).locks, now.locks, me, now.clock))
      ensures Smooth() ==> deleted.Fine?
    {
      deleted := Turn(me);
      var key := LockKey(ofHost, now.tasks[me]);
      if Safe() {
        L.Kept(config, history, now);
        assert L.Owns(config, now, me, now.tasks[me]);
      }
      log := if deleted.Refused? then [Leaked(key)] else [Freed(key, if key in now.locks then Some(now.locks[key].owner) else None)];
      Perform(L.Act(me, if ofHost then L.DeleteHost else L.DeleteSegment, deleted));
    }

    /** The revoke of the lease, whose errors are swallowed. */
    method RevokeLease(me: Id, ofHost: bool)
      requires Valid() && me in now.tasks && HasKey(ofHost, now.tasks[me]) && LockKey(ofHost, now.tasks[me]) !in Held(me)
      requires if ofHost then now.tasks[me].pc.HostUnlocked? else now.tasks[me].pc.SegmentUnlocked?
      modifies this
      ensures calls >= old(calls)
      ensures Valid() && old(history) <= history && old(now).clock <= now.clock
      ensures me in now.tasks && SameRun(old(now).tasks[me], now.tasks[me])
      ensures var pc := old(now).tasks[me].pc;
              && now.tasks[me].pc == (if !ofHost then L.Ended else if !pc.failed then L.Looping else L.LeavingSegment)
              && now.tasks[me].next == old(now).tasks[me].next + if now.tasks[me].pc.Looping? then 1 else 0
      ensures Held(me) <= old(Held(me)) && (Safe() ==> L.StillThere(old(now).locks, now.locks, me, now.clock))
    {
      var revoked := Turn(me);
      Perform(L.Act(me, if ofHost then L.RevokeHost else L.RevokeSegment, revoked));
    }

    /** _release_lock: the key is deleted, whoever owns it; the lease is revoked only after that. */
    method ReleaseLock(me: Id, ofHost: bool) returns (r: Result<()>, ghost log: seq<Event>)
      requires Valid() && me in now.tasks && HasKey(ofHost, now.tasks[me])
      requires if ofHost then now.tasks[me].pc.LeavingHost? else now.tasks[me].pc.LeavingSegment?
      modifies this
      ensures calls >= old(calls)
      ensures Valid() && old(history) <= history && old(now).clock <= now.clock
      ensures me in now.tasks && SameRun(old(now).tasks[me], now.tasks[me])
      ensures var pc := old(now).tasks[me].pc;
              && now.tasks[me].pc == (if !ofHost then L.Ended else if r.Ok? && !pc.failed then L.Looping else L.LeavingSegment)
              && now.tasks[me].next == old(now).tasks[me].next + if now.tasks[me].pc.Looping? then 1 else 0
      ensures var key := LockKey(ofHost, old(now).tasks[me]);
              && Held(me) <= old(Held(me)) && |log| == 1 && Ends(log[0], key) && (log[0].Freed? ==> key !in Held(me))
              && (Safe() && log[0].Freed? ==> log[0].owner == Some(me))
              && (Safe() ==> LeaksStay(log, now.locks, me, GrantedAt(ofHost, old(now).tasks[me]) + config.lockTtl))
              && (Safe() ==> StillThereBut(key, old(now).locks, now.locks, me, now.clock))
      ensures if r.Err? then r.error.Raised? && !Smooth() else log[0].Freed?
    {
      var deleted;
      deleted, log := DeleteKey(me, ofHost);
      if !deleted.Fine? { return Err(Raised), log; }
      RevokeLease(me, ofHost);
      return Ok(()), log;
    }

    /** transition_fencing_state to FENCING; Ok(false) when the record is in no expected state. */
    method TransitionToFencing(me: Id, host: string) returns (r: Result<bool>)
      requires Valid() && me in now.tasks
      modifies this
      ensures Valid() && L.Undisturbed(me, old(now), now) && old(history) <= history
      ensures r == Ok(true) ==> host in records && records[host].state.Fencing?
      ensures calls == old(calls) + 1
      ensures r.Ok? <==> world(old(calls)).reply.Fine?
      ensures r.Ok? ==> (r.value <==> ToFence(world(old(calls)).records, host))
      ensures r.Err? ==> r.error.Raised?
    {
      var reply := Turn(me);
      if reply.Refused? { return Err(Raised); }
      if !ToFence(records, host) { return if reply.Fine? then Ok(false) else Err(Raised); }
      records := records[host := records[host].(state := Fencing)];
      return if reply.Fine? then Ok(true) else Err(Raised);
    }

    /** get_fencing_state */
    method GetFencingState(me: Id, host: string) returns (r: Result<Option<Record>>)
      requires Valid() && me in now.tasks
      modifies this
      ensures Valid() && L.Undisturbed(me, old(now), now) && old(history) <= history
      ensures calls == old(calls) + 1 && records == world(old(calls)).records
      ensures r.Ok? <==> world(old(calls)).reply.Fine?
      ensures r.Ok? ==> r.value == if host in records then Some(records[host]) else None
      ensures r.Err? ==> r.error.Raised?
    {
      var reply := Turn(me);
      if !reply.Fine? { return Err(Raised); }
      return Ok(if host in records then Some(records[host]) else None);
    }

    /** update_fencing_state, which raises for a host without a record. */
    method UpdateFencingState(me: Id, host: string, state: HostState, verified: Option<string>) returns (r: Result<()>)
      requires Valid() && me in now.tasks
      modifies this
      ensures calls >= old(calls)
      ensures Valid() && L.Undisturbed(me, old(now), now) && old(history) <= history
      ensures r.Ok? ==> host in records && records[host].state == state
                        && (verified.Some? ==> records[host].verified == verified.value)
      ensures r.Err? ==> r.error.Raised? && (Smooth() ==> host !in records)
      ensures r.Ok? <==> world(old(calls)).reply.Fine? && host in world(old(calls)).records
    {
      var reply := Turn(me);
      if reply.Refused? || host !in records { return Err(Raised); }
      var kept := records[host].verified;
      records := records[host := Record(state, if verified.Some? then verified.value else kept)];
      return if reply.Fine? then Ok(()) else Err(Raised);
    }

    /** The task is in the section of this host. */
    ghost predicate InHostOf(me: Id, host: string)
      reads this
    {
      me in now.tasks && now.tasks[me].pc.InHost? && L.HasHost(now.tasks[me]) && now.tasks[me].hosts[now.tasks[me].next] == host
    }

    /** The keys of the host and of the segment are among these. */
    ghost predicate BothLocks(me: Id, host: string, held: set<Key>)
      reads this
    {
      me in now.tasks && HostLock(host) in held && L.SegmentKey(now.tasks[me]) in held
    }

    /** Whoever is in the section of a host owns both keys, when the sections fit. */
    lemma OwnsBoth(me: Id, host: string)
      requires Valid() && Safe() && InHostOf(me, host)
      ensures BothLocks(me, host, Held(me))
    {
      L.Kept(config, history, now);
      assert L.Owns(config, now, me, now.tasks[me]);
    }

    /** Configuration, client, power-off and mark all succeed, from call number k on. */
    ghost predicate PowersOff(k: nat, host: string) {
      && world(k).reply.Fine? && world(k + 1).reply.Fine? && world(k + 2).reply.Fine? && world(k + 3).reply.Fine?
      && host in world(k + 3).records
    }

    /**
     * The try block of _fence_one succeeds, from call number k on: a record to be fenced is taken to
     * FENCING and the power-off is done and marked; any other has to be found FENCED.
     */
    ghost predicate TryOk(k: nat, host: string) {
      && world(k).reply.Fine?
      && if ToFence(world(k).records, host) then PowersOff(k + 1, host)
         else world(k + 1).reply.Fine? && host in world(k + 1).records && world(k + 1).records[host].state.Fenced?
    }

    /** The part of the try block after the transition: configuration, client, power-off, proof. */
    method PowerOffAndMark(me: Id, host: string)
      returns (r: Result<()>, connected: bool, ghost log: seq<Event>, ghost held: set<Key>)
      requires Valid() && InHostOf(me, host)
      modifies this
      ensures calls >= old(calls)
      ensures Valid() && L.Undisturbed(me, old(now), now) && old(history) <= history && (connected <==> log != [])
      ensures Safe() ==> BothLocks(me, host, held)
      ensures log == [] || log == [PowerOff(host, held)] || log == [PowerOff(host, held), MarkedFenced(host)]
      ensures r.Ok? <==> |log| == 2
      ensures r.Ok? ==> host in records && Proves(Some(records[host]))
      ensures r.Err? ==> r.error.Raised? && (Smooth() ==> log == [PowerOff(host, held)] && host !in records)
      ensures r.Ok? <==> PowersOff(old(calls), host)
    {
      if Safe() { OwnsBoth(me, host); }
      held := Held(me);
      var loaded := Turn(me);
      if !loaded.Fine? { return Err(Raised), false, [], held; }
      var client := Turn(me);
      if !client.Fine? { return Err(Raised), false, [], held; }
      if Safe() { OwnsBoth(me, host); }
      held := Held(me);
      log := [PowerOff(host, held)];
      var proof := Turn(me);
      if !proof.Fine? { return Err(Raised), true, log, held; }
      r := UpdateFencingState(me, host, Fenced, Some("Off"));
      if r.Ok? { log := log + [MarkedFenced(host)]; }
      connected := true;
    }

    /** The whole try block of _fence_one. */
    method TryFence(me: Id, host: string)
      returns (r: Result<()>, connected: bool, ghost log: seq<Event>, ghost held: set<Key>)
      requires Valid() && InHostOf(me, host)
      modifies this
      ensures calls >= old(calls)
      ensures Valid() && L.Undisturbed(me, old(now), now) && old(history) <= history
      ensures Safe() ==> BothLocks(me, host, held)
      ensures r.Ok? ==> if connected then log == [PowerOff(host, held), MarkedFenced(host)] else log == [FoundFenced(host)]
      ensures r.Err? ==> if connected then log == [PowerOff(host, held)] else log == []
      ensures r.Err? ==> r.error.Raised? || r.error.NotReady?
      ensures r.Err? && Smooth() ==> if connected then host !in records else r.error.NotReady?
      ensures r == Err(NotReady) || (r.Ok? && !connected) ==> !ToFence(world(old(calls)).records, host)
      ensures r.Ok? <==> TryOk(old(calls), host)
      ensures r.Ok? && !connected ==> var seen := world(old(calls) + 1).records; host in seen && seen[host].state.Fenced?
    {
      if Safe() { OwnsBoth(me, host); }
      held := Held(me);
      var transitioned := TransitionToFencing(me, host);
      if transitioned.Err? { return Err(transitioned.error), false, [], held; }
      if !transitioned.value {
        var current := GetFencingState(me, host);
        if current.Err? { return Err(current.error), false, [], held; }
        if current.value.Some? && current.value.value.state.Fenced? { return Ok(()), false, [FoundFenced(host)], held; }
        return Err(NotReady), false, [], held;
      }
      r, connected, log, held := PowerOffAndMark(me, host);
    }

    /** Try block and handler of _fence_one, and the client's close in its finally block. */
    method GuardedFence(me: Id, host: string) returns (r: Result<()>, ghost log: seq<Event>, ghost held: set<Key>)
      requires Valid() && InHostOf(me, host)
      modifies this
      ensures calls >= old(calls)
      ensures Valid() && L.Undisturbed(me, old(now), now) && old(history) <= history
      ensures Safe() ==> BothLocks(me, host, held)
      ensures GuardedLog(host, held, log) && (r.Ok? <==> Settled(log, host)) && (r.Ok? <==> TryOk(old(calls), host))
      ensures r == Err(NotReady) || FoundFenced(host) in log ==> !ToFence(world(old(calls)).records, host)
      ensures r.Err? ==> r.error.Raised? || r.error.NotReady?
    {
      var connected;
      r, connected, log, held := TryFence(me, host);
      if r.Err? {
        var marked := UpdateFencingState(me, host, FenceFailed, None);
        log := log + [MarkFailed(host)];
      }
      if connected {
        var closed := Turn(me);
        log := log + [Closed(host)];
      }
    }

    /** _fence_one after its lock is taken: try, except, finally. */
    method FenceHeld(me: Id, host: string)
      returns (r: Result<()>, ghost middle: seq<Event>, ghost end: Event, ghost held: set<Key>)
      requires Valid() && InHostOf(me, host)
      modifies this
      ensures calls >= old(calls)
      ensures Valid() && old(history) <= history && old(now).clock <= now.clock
      ensures me in now.tasks && SameRun(old(now).tasks[me], now.tasks[me])
      ensures now.tasks[me].pc == if r.Ok? then L.Looping else L.LeavingSegment
      ensures now.tasks[me].next == old(now).tasks[me].next + if r.Ok? then 1 else 0
      ensures Held(me) <= old(Held(me)) && (Safe() ==> BothLocks(me, host, held))
      ensures GuardedLog(host, held, middle) && Ends(end, HostLock(host)) && (end.Freed? ==> HostLock(host) !in Held(me))
      ensures Safe() && end.Freed? ==> end.owner == Some(me)
      ensures Safe() ==> LeaksStay([end], now.locks, me, old(now).tasks[me].hostGranted + config.lockTtl)
      ensures r.Ok? ==> Settled(middle, host) && end.Freed?
      ensures r.Err? ==> r.error.Raised? || r.error.NotReady?
      ensures r.Ok? ==> TryOk(old(calls), host)
      ensures Smooth() ==> end.Freed? && (r.Ok? <==> TryOk(old(calls), host))
    {
      r, middle, held := GuardedFence(me, host);
      Perform(L.Act(me, L.FinishHost(r.Err?), Fine));
      ghost var log;
      var released;
      released, log := ReleaseLock(me, true);
      end := log[0];
      assert log == [end];
      if released.Err? { r := Err(released.error); }
    }

    /**
     * _fence_one.  On every way out nothing is owned beyond what was, but for the host's key when
     * its create lost its answer or its delete was refused.  When the sections fit the leases, the
     * host is powered off under its own lock and the segment's, the key that is deleted is this
     * task's, and a key left behind is still there.
     */
    method FenceOne(me: Id, host: string) returns (r: Result<()>, ghost log: seq<Event>)
      requires Valid() && me in now.tasks && now.tasks[me].pc.Looping? && L.HasHost(now.tasks[me])
      requires now.tasks[me].hosts[now.tasks[me].next] == host
      modifies this
      ensures Valid() && old(history) <= history && old(now).clock <= now.clock
      ensures me in now.tasks && SameRun(old(now).tasks[me], now.tasks[me])
      ensures now.tasks[me].pc == if r.Ok? then L.Looping else L.LeavingSegment
      ensures now.tasks[me].next == old(now).tasks[me].next + if r.Ok? then 1 else 0
      ensures OnlyLeaksMore(old(Held(me)), Held(me), log)
      ensures forall k :: Leaked(k) in log ==> k == HostLock(host) && r.Err?
      ensures AllTidy(log) && Touches(log, [host])
      ensures Safe() ==> Protected(log, now.tasks[me].segment, me)
                         && LeaksStay(log, now.locks, me, old(now).clock + config.lockTtl)
      ensures r.Ok? ==> Settled(log, host) && log != [] && TryOk(old(calls) + 2, host)
      ensures Smooth() && log != [] ==> (r.Ok? <==> TryOk(old(calls) + 2, host))
      ensures Smooth() && r.Err? ==>
                GaveUp(old(history), history, old(calls), host, now.clock >= old(now).clock + config.lockTtl)
      ensures calls >= old(calls)
      ensures r == Err(LockHeld) ==> log == [] && Taken(config, old(history), history, HostLock(host))
      ensures Smooth() && now.clock < old(now).clock + config.lockTtl ==>
                if log == [] then r == Err(LockHeld)
                else log[0] == Took(HostLock(host)) && log[|log| - 1].Freed?
    {
      var lock;
      lock, log := AcquireLock(me, true);
      if lock.Err? { return Err(lock.error), log; }
      if !lock.value { return Err(LockHeld), log; }
      ghost var middle, end, held;
      r, middle, end, held := FenceHeld(me, host);
      HostLogTidy(host, held, middle, end);
      if Safe() { HostLogProtected(now.tasks[me].segment, host, held, middle, end, me); }
      log := log + middle + [end];
    }

    /** assert_hosts_fenced; readings are the records it read, host by host. */
    method AssertHostsFenced(me: Id, hosts: seq<string>) returns (r: Result<()>, ghost readings: seq<Option<Record>>)
      requires Valid() && me in now.tasks
      modifies this
      ensures Valid() && L.Undisturbed(me, old(now), now) && old(history) <= history
      ensures |readings| <= |hosts|
      ensures r.Ok? <==> |readings| == |hosts| && forall i :: 0 <= i < |readings| ==> Proves(readings[i])
      ensures r == Err(Unproved) ==> |readings| == |hosts|
      ensures r.Err? && r.error != Unproved ==>
                r.error.Raised? && |readings| < |hosts| && !world(old(calls) + |readings|).reply.Fine?
      ensures ReadFrom(old(calls), hosts, readings)
    {
      var missing, failed: seq<string> := [], [];
      ghost var bad := 0;
      readings := [];
      for i := 0 to |hosts|
        invariant Valid() && L.Undisturbed(me, old(now), now) && old(history) <= history
        invariant |readings| == i && calls == old(calls) + i
        invariant missing == failed == [] ==> forall j :: 0 <= j < i ==> Proves(readings[j])
        invariant missing != [] || failed != [] ==> bad < i && !Proves(readings[bad])
        invariant forall j :: 0 <= j < i ==> ReadAt(old(calls) + j, hosts[j], readings[j])
      {
        var state := GetFencingState(me, hosts[i]);
        if state.Err? { return Err(state.error), readings; }
        readings := readings + [state.value];
        if !Proves(state.value) { bad := i; }
        if state.value.None? {
          missing := missing + [hosts[i]];
        } else if !state.value.value.state.Fenced? {
          failed := failed + [hosts[i]];
        } else if state.value.value.verified != "Off" {
          failed := failed + [hosts[i]];
        }
      }
      return if missing != [] || failed != [] then Err(Unproved) else Ok(()), readings;
    }

    /** These are the records that the calls from number k on find, host by host. */
    ghost predicate ReadFrom(k: nat, hosts: seq<string>, readings: seq<Option<Record>>) {
      |readings| <= |hosts| && forall i :: 0 <= i < |readings| ==> ReadAt(k + i, hosts[i], readings[i])
    }

    /** What call number k finds in the host's record. */
    ghost predicate ReadAt(k: nat, host: string, r: Option<Record>) {
      r == if host in world(k).records then Some(world(k).records[host]) else None
    }

    /** The task holds its segment and is about to take the first host. */
    ghost predicate AtFirst(me: Id, segment: string, hosts: seq<string>)
      reads this
    {
      me in now.tasks && now.tasks[me].pc.Looping? && now.tasks[me].segment == segment && now.tasks[me].hosts == hosts
      && now.tasks[me].next == 0
    }

    /** The task has this segment and failure set and stands there. */
    ghost predicate Stands(me: Id, segment: string, hosts: seq<string>, pc: L.Pc)
      reads this
    {
      me in now.tasks && now.tasks[me].pc == pc && now.tasks[me].segment == segment && now.tasks[me].hosts == hosts
    }

    /**
     * Why the loop ended at a host though no call raised: on the way its key was somebody's, or a
     * lease ran out before its create, or its try block failed at some call after the first.
     */
    ghost predicate GaveUp(before: seq<L.Step>, after: seq<L.Step>, from: nat, host: string, late: bool) {
      Taken(config, before, after, HostLock(host)) || late || exists k :: k >= from && !TryOk(k, host)
    }

    lemma GaveUpLater(a: seq<L.Step>, b: seq<L.Step>, c: seq<L.Step>, d: seq<L.Step>, from: nat, earlier: nat, host: string,
                      late: bool, later: bool)
      requires a <= b <= c <= d && earlier <= from && (late ==> later) && GaveUp(b, c, from, host, late)
      ensures GaveUp(a, d, earlier, host, later)
    {
      if Taken(config, b, c, HostLock(host)) {
        TakenLater(config, a, b, c, HostLock(host));
        TakenOn(config, a, c, d, HostLock(host));
      } else if !late {
        var k :| k >= from && !TryOk(k, host);
        assert k >= earlier;
      }
    }

    /** The loop of execute: hosts in order, up to the first failure. */
    method FenceAll(me: Id, segment: string, hosts: seq<string>)
      returns (r: Result<()>, ghost log: seq<Event>, ghost done: nat)
      requires Valid() && AtFirst(me, segment, hosts)
      modifies this
      ensures Valid() && old(history) <= history && old(now).clock <= now.clock
      ensures Stands(me, segment, hosts, if r.Ok? then L.Looping else L.LeavingSegment)
      ensures SameRun(old(now).tasks[me], now.tasks[me])
      ensures OnlyLeaksMore(old(Held(me)), Held(me), log)
      ensures forall k :: Leaked(k) in log ==> k.HostLock? && r.Err?
      ensures AllTidy(log)
      ensures Safe() ==> Protected(log, segment, me) && LeaksStay(log, now.locks, me, old(now).clock + config.lockTtl)
      ensures done <= |hosts| && Touches(log, hosts[..if done < |hosts| then done + 1 else done])
      ensures forall j :: 0 <= j < done ==> Settled(log, hosts[j])
      ensures if r.Ok? then done == |hosts| else done < |hosts|
      ensures Smooth() && r.Err? ==>
                GaveUp(old(history), history, old(calls), hosts[done], now.clock >= old(now).clock + config.lockTtl)
      ensures calls >= old(calls)
    {
      log := [];
      for i := 0 to |hosts|
        invariant Valid() && old(history) <= history && old(now).clock <= now.clock
        invariant Stands(me, segment, hosts, L.Looping) && now.tasks[me].next == i
        invariant SameRun(old(now).tasks[me], now.tasks[me])
        invariant Held(me) <= old(Held(me)) && LogUpTo(log, hosts, i) && calls >= old(calls)
        invariant Safe() ==> Protected(log, segment, me)
      {
        ghost var one;
        ghost var before, from, started := history, calls, now.clock;
        r, one := FenceOne(me, hosts[i]);
        if Smooth() && r.Err? {
          GaveUpLater(old(history), before, history, history, from, old(calls), hosts[i],
                      now.clock >= started + config.lockTtl, now.clock >= old(now).clock + config.lockTtl);
        }
        OneMoreHost(log, hosts, i, one);
        if Safe() { ProtectedAppend(log, one, segment, me); }
        log := log + one;
        if r.Err? { return r, log, i; }
      }
      return Ok(()), log, |hosts|;
    }

    /** The try block of execute: the loop, then the proof. */
    method FenceAndAssert(me: Id, segment: string, hosts: seq<string>)
      returns (r: Result<()>, ghost log: seq<Event>, ghost done: nat, ghost readings: seq<Option<Record>>)
      requires Valid() && AtFirst(me, segment, hosts)
      modifies this
      ensures Valid() && old(history) <= history && old(now).clock <= now.clock
      ensures Stands(me, segment, hosts, L.LeavingSegment) && SameRun(old(now).tasks[me], now.tasks[me])
      ensures OnlyLeaksMore(old(Held(me)), Held(me), log)
      ensures forall k :: Leaked(k) in log ==> k.HostLock?
      ensures AllTidy(log)
      ensures Safe() ==> Protected(log, segment, me) && LeaksStay(log, now.locks, me, old(now).clock + config.lockTtl)
      ensures done <= |hosts| && Touches(log, hosts[..if done < |hosts| then done + 1 else done])
      ensures forall j :: 0 <= j < done ==> Settled(log, hosts[j])
      ensures r.Ok? <==> done == |hosts| == |readings| && forall i :: 0 <= i < |hosts| ==> Proves(readings[i])
      ensures exists k: nat :: k >= old(calls) && ReadFrom(k, hosts, readings)
      ensures Smooth() ==> RunsIff(old(history), history, old(calls), hosts, done, readings, r.Ok?,
                                   now.clock >= old(now).clock + config.lockTtl)
    {
      r, log, done := FenceAll(me, segment, hosts);
      if r.Err? {
        assert ReadFrom(calls, hosts, []);
        return r, log, done, [];
      }
      r, readings := AssertHostsFenced(me, hosts);
      Perform(L.Act(me, L.EndLoop, Fine));
    }

    /**
     * When no call raises, the task returns exactly if the loop got through and every record read
     * behind it proves the host fenced; the loop ends early only at a host it has to give up.
     */
    ghost predicate RunsIff(before: seq<L.Step>, after: seq<L.Step>, from: nat, hosts: seq<string>, done: nat,
                            readings: seq<Option<Record>>, ok: bool, late: bool) {
      && done <= |hosts| && (ok <==> done == |hosts| == |readings| && AllProve(readings))
      && (done == |hosts| ==> |readings| == |hosts|)
      && (done < |hosts| ==> GaveUp(before, after, from, hosts[done], late))
    }

    lemma RunsIffLater(a: seq<L.Step>, b: seq<L.Step>, c: seq<L.Step>, d: seq<L.Step>, from: nat, earlier: nat,
                       hosts: seq<string>, done: nat, readings: seq<Option<Record>>, ok: bool, late: bool, later: bool)
      requires a <= b <= c <= d && earlier <= from && (late ==> later)
      requires RunsIff(b, c, from, hosts, done, readings, ok, late)
      ensures RunsIff(a, d, earlier, hosts, done, readings, ok, later)
    {
      if done < |hosts| { GaveUpLater(a, b, c, d, from, earlier, hosts[done], late, later); }
    }

    /** execute after its lock is taken: try, finally. */
    method ExecuteHeld(me: Id, segment: string, hosts: seq<string>)
      returns (r: Result<()>, ghost middle: seq<Event>, ghost end: Event, ghost done: nat, ghost readings: seq<Option<Record>>)
      requires Valid() && AtFirst(me, segment, hosts)
      modifies this
      ensures Valid() && old(history) <= history && old(now).clock <= now.clock
      ensures Stands(me, segment, hosts, L.Ended)
      ensures OnlyLeaksMore(old(Held(me)), Held(me), middle) && Ends(end, SegmentLock(segment))
      ensures end.Freed? ==> SegmentLock(segment) !in Held(me)
      ensures forall k :: Leaked(k) in middle ==> k.HostLock?
      ensures AllTidy(middle)
      ensures Safe() ==> Protected(middle, segment, me) && (end.Freed? ==> end.owner == Some(me))
      ensures Safe() && now.clock < old(now).clock + config.lockTtl ==>
                LeaksStay(middle, now.locks, me, old(now).clock + config.lockTtl)
      ensures Safe() ==> LeaksStay([end], now.locks, me, old(now).tasks[me].segmentGranted + config.lockTtl)
      ensures done <= |hosts| && Touches(middle, hosts[..if done < |hosts| then done + 1 else done])
      ensures forall j :: 0 <= j < done ==> Settled(middle, hosts[j])
      ensures r.Ok? ==> done == |hosts| == |readings| && forall i :: 0 <= i < |hosts| ==> Proves(readings[i])
      ensures exists k: nat :: k >= old(calls) && ReadFrom(k, hosts, readings)
      ensures Smooth() ==> end.Freed? && RunsIff(old(history), history, old(calls), hosts, done, readings, r.Ok?,
                                                 now.clock >= old(now).clock + config.lockTtl)
    {
      r, middle, done, readings := FenceAndAssert(me, segment, hosts);
      ghost var log, over, ended := [], history, now.clock;
      var released;
      released, log := ReleaseLock(me, false);
      if Smooth() {
        RunsIffLater(old(history), old(history), over, history, old(calls), old(calls), hosts, done, readings, r.Ok?,
                     ended >= old(now).clock + config.lockTtl, now.clock >= old(now).clock + config.lockTtl);
      }
      end := log[0];
      assert log == [end];
      if released.Err? { r := Err(released.error); }
    }

    /** execute from the acquisition of the segment's lock on. */
    method ExecuteLocked(me: Id, segment: string, hosts: seq<string>)
      returns (r: Result<seq<string>>, ghost log: seq<Event>, ghost done: nat, ghost readings: seq<Option<Record>>)
      requires Valid() && Stands(me, segment, hosts, L.Called) && now.tasks[me].next == 0
      modifies this
      ensures Valid() && old(history) <= history && old(now).clock <= now.clock
      ensures Stands(me, segment, hosts, L.Ended)
      ensures OnlyLeaksMore(old(Held(me)), Held(me), log)
      ensures AllTidy(log)
      ensures Safe() ==> Protected(log, segment, me)
      ensures Safe() && now.clock < old(now).clock + config.lockTtl ==>
                LeaksStay(log, now.locks, me, old(now).clock + config.lockTtl)
      ensures done <= |hosts| && Touches(log, hosts[..if done < |hosts| then done + 1 else done])
      ensures forall j :: 0 <= j < done ==> Settled(log, hosts[j])
      ensures r.Ok? ==> r.value == hosts && done == |hosts|
      ensures exists k: nat :: k >= old(calls) && ReadFrom(k, hosts, readings)
      ensures Smooth() && log != [] ==>
                RunsIff(old(history), history, old(calls), hosts, done, readings, r.Ok?,
                        now.clock >= old(now).clock + config.lockTtl)
      ensures r.Ok? ==> |readings| == |hosts| && forall i :: 0 <= i < |hosts| ==> Proves(readings[i])
      ensures r == Err(LockHeld) && log == [] ==> Taken(config, old(history), history, SegmentLock(segment))
      ensures Smooth() && now.clock < old(now).clock + config.lockTtl ==>
                if log == [] then r == Err(LockHeld)
                else log[0] == Took(SegmentLock(segment)) && log[|log| - 1].Freed?
    {
      done, readings := 0, [];
      assert ReadFrom(calls, hosts, readings);
      var lock;
      lock, log := AcquireLock(me, false);
      if lock.Err? { return Err(lock.error), log, done, readings; }
      if !lock.value { return Err(LockHeld), log, done, readings; }
      ghost var middle, end;
      var fenced;
      ghost var before, from, started := history, calls, now.clock;
      fenced, middle, end, done, readings := ExecuteHeld(me, segment, hosts);
      if Smooth() {
        RunsIffLater(old(history), before, history, history, from, old(calls), hosts, done, readings, fenced.Ok?,
                     now.clock >= started + config.lockTtl, now.clock >= old(now).clock + config.lockTtl);
      }
      Around(segment, hosts, if done < |hosts| then done + 1 else done, middle, end);
      if Safe() { AroundProtected(segment, middle, end, me); }
      log := log + middle + [end];
      r := if fenced.Err? then Err(fenced.error) else Ok(hosts);
    }

    /**
     * execute, as a new task of the machine.  On every way out it is in no section, and it owns
     * nothing beyond what it owned but for keys whose create lost its answer or whose delete was
     * refused; what is deleted is deleted by key.  When the sections of all tasks fit lock_ttl,
     * hosts are powered off only under their own lock and the segment's, every deleted key is this
     * task's, and, before lock_ttl is over, keys left behind are still there.  A failed power-off is
     * marked and its client closed before the host's key goes; hosts after the first failure are
     * not touched; and a normal return has read every host as FENCED and Off after settling it.
     */
    method Execute(me: Id, segment: string, hosts: seq<string>)
      returns (r: Result<seq<string>>, ghost log: seq<Event>, ghost done: nat, ghost readings: seq<Option<Record>>)
      requires Valid() && me !in now.tasks && |hosts| <= config.maxHosts
      modifies this
      ensures Valid() && old(history) <= history && old(now).clock <= now.clock
      ensures enabled ==> me in now.tasks && (now.tasks[me].pc.Called? || now.tasks[me].pc.Ended?)
      ensures OnlyLeaksMore(old(Held(me)), Held(me), log)
      ensures AllTidy(log)
      ensures Safe() ==> UnderBothLocks(log, segment) && DeletesOwn(log, me)
      ensures Safe() && now.clock < old(now).clock + config.lockTtl ==>
                LeaksStay(log, now.locks, me, old(now).clock + config.lockTtl)
      ensures done <= |hosts| && Touches(log, hosts[..if done < |hosts| then done + 1 else done])
      ensures forall j :: 0 <= j < done ==> Settled(log, hosts[j])
      ensures r.Ok? ==> enabled && r.value == hosts && done == |hosts|
      ensures r.Ok? ==> |readings| == |hosts| && forall i :: 0 <= i < |hosts| ==> Proves(readings[i])
      ensures exists k: nat :: k >= old(calls) && ReadFrom(k, hosts, readings)
      ensures Smooth() && log != [] ==>
                RunsIff(old(history), history, old(calls), hosts, done, readings, r.Ok?,
                        now.clock >= old(now).clock + config.lockTtl)
      ensures !enabled ==> r == Err(Disabled) && log == []
      ensures r == Err(LockHeld) && log == [] ==> Taken(config, old(history), history, SegmentLock(segment))
      ensures enabled && Smooth() && now.clock < old(now).clock + config.lockTtl ==>
                if log == [] then r == Err(LockHeld)
                else log[0] == Took(SegmentLock(segment)) && log[|log| - 1].Freed?
    {
      done, readings, log := 0, [], [];
      assert ReadFrom(calls, hosts, readings);
      if !enabled { return Err(Disabled), log, done, readings; }
      Perform(L.Start(me, segment, hosts));
      var available := Turn(me);
      if !available.Fine? { return Err(Raised), log, done, readings; }
      ghost var before, from, started := history, calls, now.clock;
      r, log, done, readings := ExecuteLocked(me, segment, hosts);
      if Smooth() && log != [] {
        RunsIffLater(old(history), before, history, history, from, old(calls), hosts, done, readings, r.Ok?,
                     now.clock >= started + config.lockTtl, now.clock >= old(now).clock + config.lockTtl);
      }
      if r == Err(LockHeld) && log == [] { TakenLater(config, old(history), before, history, SegmentLock(segment)); }
    }
  }
}
