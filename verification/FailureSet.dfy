/**
 * Collecting the failure set: before a host may be fenced, its failure is registered in etcd, the
 * recent failures of its segment are listed, and the set is refused when it is too large or
 * leaves too few hosts.  Any number of engines do this at the same time.
 */
module FailureSet {
  import opened FiniteSets
  import opened Wrappers

  type Host = string
  type Id = nat

  datatype Config = Config(window: nat, maxHosts: nat, minSurviving: nat)

  /** The key of a failure record: segment, event, host. */
  datatype FailureKey = FailureKey(segment: string, event: string, host: Host)

  datatype Failure = Failure(key: FailureKey, createdAt: int)

  type Failures = map<FailureKey, int>

  /** A record counts when its event matches (window 0) or when it is not older than the window. */
  predicate Recent(cfg: Config, event: string, now: int, key: FailureKey, createdAt: int) {
    if cfg.window == 0 then key.event == event else now - createdAt <= cfg.window
  }

  /** The hosts that a listing of the segment's failures returns, and the failed host itself. */
  function FailureSetOf(cfg: Config, me: FailureKey, seen: Failures, now: int): set<Host> {
    (set k | k in seen.Keys && k.segment == me.segment && Recent(cfg, me.event, now, k, seen[k]) :: k.host) + {me.host}
  }

  /** Somewhere in the segment the host failed in this event, or, with a window, not longer ago than that. */
  ghost predicate FailedLately(cfg: Config, me: FailureKey, seen: Failures, now: int, host: Host) {
    exists k :: k in seen && k.segment == me.segment && k.host == host
                && (cfg.window == 0 ==> k.event == me.event) && (cfg.window > 0 ==> seen[k] >= now - cfg.window)
  }

  /**
   * Who is in the failure set: the failed host, and a host with a record that counts.  A record of
   * another event (window 0), or older than the window, puts nobody into it.
   */
  lemma FailureSetHosts(cfg: Config, me: FailureKey, seen: Failures, now: int, host: Host)
    ensures host in FailureSetOf(cfg, me, seen, now) <==> host == me.host || FailedLately(cfg, me, seen, now, host)
  {
    if FailedLately(cfg, me, seen, now, host) {
      var k :| k in seen && k.segment == me.segment && k.host == host
               && (cfg.window == 0 ==> k.event == me.event) && (cfg.window > 0 ==> seen[k] >= now - cfg.window);
      assert k in seen.Keys && Recent(cfg, me.event, now, k, seen[k]);
    }
  }

  /** When the task returns its failure set instead of raising. */
  predicate Accepts(cfg: Config, failureSet: set<Host>, mapped: set<Host>, segmentHosts: set<Host>) {
    && |failureSet| <= cfg.maxHosts
    && failureSet <= mapped
    && |segmentHosts - failureSet| >= cfg.minSurviving
  }

  // ---------------------------------------------------------------- the task on one listing

  datatype Verdict = Collected(failureSet: set<Host>) | TooMany | Unmapped(host: Host) | TooFewSurvivors | Raised

  /** The rows of list_recent_failures that pass its filters, in the order they were read. */
  method ListRecentFailures(cfg: Config, event: string, now: int, rows: seq<Failure>) returns (failures: seq<Failure>)
    ensures forall f :: f in failures <==> f in rows && Recent(cfg, event, now, f.key, f.createdAt)
    ensures |failures| <= |rows|
  {
    failures := [];
    for i := 0 to |rows|
      invariant |failures| <= i
      invariant forall f :: f in failures <==> f in rows[..i] && Recent(cfg, event, now, f.key, f.createdAt)
    {
      assert rows[..i + 1] == rows[..i] + [rows[i]];
      if cfg.window == 0 {
        if rows[i].key.event != event { continue; }
      } else {
        var age := now - rows[i].createdAt;
        if age > cfg.window { continue; }
      }
      failures := failures + [rows[i]];
    }
  }

  /** A prefix read returns each record of the segment once. */
  ghost predicate IsListing(rows: seq<Failure>, segment: string, seen: Failures) {
    && (forall f :: f in rows ==> f.key in seen && seen[f.key] == f.createdAt && f.key.segment == segment)
    && (forall k :: k in seen && k.segment == segment ==> Failure(k, seen[k]) in rows)
  }

  /** The grouped hosts, with the failed host added when no record named it. */
  method GroupHosts(cfg: Config, me: FailureKey, now: int, rows: seq<Failure>, ghost seen: Failures)
    returns (failureSet: set<Host>)
    requires IsListing(rows, me.segment, seen)
    ensures failureSet == FailureSetOf(cfg, me, seen, now)
    ensures forall host :: host in failureSet <==> host == me.host || FailedLately(cfg, me, seen, now, host)
  {
    var failures := ListRecentFailures(cfg, me.event, now, rows);
    failureSet := set f | f in failures :: f.key.host;
    if me.host !in failureSet {
      failureSet := failureSet + {me.host};
    }
    forall k | k in seen && k.segment == me.segment && Recent(cfg, me.event, now, k, seen[k]) ensures k.host in failureSet {
      assert Failure(k, seen[k]) in failures;
    }
    forall host ensures host in failureSet <==> host == me.host || FailedLately(cfg, me, seen, now, host) {
      FailureSetHosts(cfg, me, seen, now, host);
    }
  }

  /** The loader loop: every host of the set must have a Redfish mapping. */
  method FirstUnmapped(failureSet: set<Host>, mapped: set<Host>) returns (ok: bool, missing: Host)
    ensures ok <==> failureSet <= mapped
    ensures !ok ==> missing in failureSet - mapped
  {
    ok, missing := true, "";
    var todo := failureSet;
    while todo != {}
      invariant todo <= failureSet && failureSet - todo <= mapped
      decreases |todo|
    {
      var host :| host in todo;
      if host !in mapped { return false, host; }
      todo := todo - {host};
    }
  }

  /** The first check of the set that fails. */
  ghost predicate Decides(cfg: Config, failureSet: set<Host>, mapped: set<Host>, segmentHosts: set<Host>, v: Verdict) {
    && (v.Collected? <==> Accepts(cfg, failureSet, mapped, segmentHosts))
    && (v.Collected? ==> v.failureSet == failureSet)
    && (v.TooMany? <==> |failureSet| > cfg.maxHosts)
    && (v.Unmapped? <==> !v.TooMany? && !(failureSet <= mapped))
    && (v.Unmapped? ==> v.host in failureSet - mapped)
  }

  /** The checks that come before the hosts of the segment are read. */
  method FirstChecks(cfg: Config, failureSet: set<Host>, mapped: set<Host>) returns (r: Option<Verdict>)
    ensures r.None? <==> |failureSet| <= cfg.maxHosts && failureSet <= mapped
    ensures r.Some? ==>
              (r.value.TooMany? || r.value.Unmapped?) && forall hosts :: Decides(cfg, failureSet, mapped, hosts, r.value)
  {
    if |failureSet| > cfg.maxHosts { return Some(TooMany); }
    var ok, missing := FirstUnmapped(failureSet, mapped);
    if !ok { return Some(Unmapped(missing)); }
    return None;
  }

  // ---------------------------------------------------------------- any number of engines

  datatype Phase =
    | Called
    | Registered            // the failure record is put
    | Recorded              // the host state is reset: register_host_failure returned
    | Listed
    | Succeeded
    | Rejected

  /** One execution of the task; order counts the registrations of the whole cluster. */
  datatype Collect = Collect(
    key: FailureKey, phase: Phase, order: nat,
    seen: Failures, now: int,
    failureSet: set<Host>, segmentHosts: set<Host>)

  datatype State = State(failures: Failures, nextOrder: nat, collects: map<Id, Collect>)

  datatype Step =
    | Call(id: Id, key: FailureKey)
    | PutFailure(id: Id, createdAt: int)
    | ResetHostState(id: Id)
    | ListFailures(id: Id, now: int)
    | Check(id: Id, mapped: set<Host>, segmentHosts: set<Host>)
    | Raise(id: Id)

  predicate In(s: State, id: Id, phase: Phase) {
    id in s.collects && s.collects[id].phase == phase
  }

  predicate Enabled(s: State, step: Step) {
    match step
    case Call(id, _) => id !in s.collects
    case PutFailure(id, _) => In(s, id, Called)
    case ResetHostState(id) => In(s, id, Registered)
    case ListFailures(id, _) => In(s, id, Recorded)
    case Check(id, _, _) => In(s, id, Listed)
    case Raise(id) => id in s.collects && s.collects[id].phase != Succeeded
  }

  function Apply(cfg: Config, s: State, step: Step): State
    requires Enabled(s, step)
  {
    match step
    case Call(id, key) => s.(collects := s.collects[id := Collect(key, Called, 0, map[], 0, {}, {})])
    case PutFailure(id, createdAt) =>
      var c := s.collects[id];
      State(s.failures[c.key := createdAt], s.nextOrder + 1,
            s.collects[id := c.(phase := Registered, order := s.nextOrder)])
    case ResetHostState(id) => s.(collects := s.collects[id := s.collects[id].(phase := Recorded)])
    case ListFailures(id, now) =>
      var c := s.collects[id];
      s.(collects := s.collects[id := c.(phase := Listed, seen := s.failures, now := now,
      failureSet := FailureSetOf(cfg, c.key, s.failures, now))])
    case Check(id, mapped, hosts) =>
      var c := s.collects[id];
      s.(collects := s.collects[id :=
      c.(phase := if Accepts(cfg, c.failureSet, mapped, hosts) then Succeeded else Rejected, segmentHosts := hosts)])
    case Raise(id) => s.(collects := s.collects[id := s.collects[id].(phase := Rejected)])
  }

  datatype Outcome = Stuck | Reached(state: State)

  function Exec(cfg: Config, s: State, steps: seq<Step>): Outcome
    decreases |steps|
  {
    if steps == [] then Reached(s)
    else if !Enabled(s, steps[0]) then Stuck
    else Exec(cfg, Apply(cfg, s, steps[0]), steps[1..])
  }

  function Init(failures: Failures): State {
    State(failures, 0, map[])
  }

  // ---------------------------------------------------------------- register before list

  predicate HasRegistered(c: Collect) {
    c.phase.Registered? || c.phase.Recorded? || HasListed(c)
  }

  predicate HasListed(c: Collect) {
    c.phase.Listed? || c.phase.Succeeded?
  }

  /** A registered failure stays in the store. */
  ghost predicate RecordsStay(s: State) {
    forall i :: i in s.collects && HasRegistered(s.collects[i]) ==>
                  s.collects[i].key in s.failures && s.collects[i].order < s.nextOrder
  }

  /** Whoever registered no later than l is in the listing of l. */
  ghost predicate RegisterBeforeList(s: State) {
    forall i, l :: i in s.collects && l in s.collects
                   && HasRegistered(s.collects[i]) && HasListed(s.collects[l])
                   && s.collects[i].order <= s.collects[l].order ==>
                     s.collects[i].key in s.collects[l].seen
  }

  ghost predicate SuccessChecked(cfg: Config, s: State) {
    forall i :: i in s.collects && HasListed(s.collects[i]) ==> Checked(cfg, s.collects[i])
  }

  predicate Checked(cfg: Config, c: Collect) {
    && c.failureSet == FailureSetOf(cfg, c.key, c.seen, c.now)
    && (c.phase.Succeeded? ==> |c.failureSet| <= cfg.maxHosts && |c.segmentHosts - c.failureSet| >= cfg.minSurviving)
  }

  ghost predicate Inv(cfg: Config, s: State) {
    RecordsStay(s) && RegisterBeforeList(s) && SuccessChecked(cfg, s)
  }

  lemma RecordsStep(cfg: Config, s: State, step: Step)
    requires RecordsStay(s) && Enabled(s, step)
    ensures RecordsStay(Apply(cfg, s, step))
  {
  }

  lemma ListingStep(cfg: Config, s: State, step: Step)
    requires RecordsStay(s) && RegisterBeforeList(s) && Enabled(s, step)
    ensures RegisterBeforeList(Apply(cfg, s, step))
  {
    var t := Apply(cfg, s, step);
    forall i, l | i in t.collects && l in t.collects && HasRegistered(t.collects[i]) && HasListed(t.collects[l])
                  && t.collects[i].order <= t.collects[l].order
      ensures t.collects[i].key in t.collects[l].seen
    {
      if !HasListed(s.collects[l]) {
        assert step.ListFailures? && step.id == l && t.collects[l].seen == s.failures;
        assert i in s.collects && HasRegistered(s.collects[i]);
      }
    }
  }

  lemma CheckedStep(cfg: Config, s: State, step: Step)
    requires SuccessChecked(cfg, s) && Enabled(s, step)
    ensures SuccessChecked(cfg, Apply(cfg, s, step))
  {
    var t := Apply(cfg, s, step);
    forall i | i in t.collects && HasListed(t.collects[i]) ensures Checked(cfg, t.collects[i]) {
      if i in s.collects && HasListed(s.collects[i]) {
        assert Checked(cfg, s.collects[i]);
      }
    }
  }

  lemma {:induction false} WholeRun(cfg: Config, s: State, steps: seq<Step>)
    requires Inv(cfg, s) && Exec(cfg, s, steps).Reached?
    ensures Inv(cfg, Exec(cfg, s, steps).state)
    decreases |steps|
  {
    if steps != [] {
      RecordsStep(cfg, s, steps[0]);
      ListingStep(cfg, s, steps[0]);
      CheckedStep(cfg, s, steps[0]);
      WholeRun(cfg, Apply(cfg, s, steps[0]), steps[1..]);
    }
  }

  // ---------------------------------------------------------------- the cap over whole runs

  /** Successful collections of one segment. */
  ghost predicate AllSucceeded(s: State, ids: set<Id>, segment: string) {
    forall i :: i in ids ==> i in s.collects && s.collects[i].phase.Succeeded? && s.collects[i].key.segment == segment
  }

  function HostsOf(s: State, ids: set<Id>): set<Host>
    requires forall i :: i in ids ==> i in s.collects
  {
    set i | i in ids :: s.collects[i].key.host
  }

  /** The record of i was not aged out (or not of another event) when l listed. */
  predicate StillCounted(cfg: Config, s: State, i: Id, l: Id)
    requires i in s.collects && l in s.collects
  {
    var c, last := s.collects[i], s.collects[l];
    c.key in last.seen ==> Recent(cfg, last.key.event, last.now, c.key, last.seen[c.key])
  }

  lemma LastRegistrant(s: State, ids: set<Id>) returns (l: Id)
    requires ids != {} && forall i :: i in ids ==> i in s.collects
    ensures l in ids && forall i :: i in ids ==> s.collects[i].order <= s.collects[l].order
    decreases |ids|
  {
    l :| l in ids;
    if ids != {l} {
      var m := LastRegistrant(s, ids - {l});
      if s.collects[m].order > s.collects[l].order { l := m; }
    }
  }

  /**
   * The fencing cap over whole runs: take any collections of one segment that all succeeded.  If
   * their failure records still count when the last of them to register lists, then their hosts
   * together are within the cap and leave the required survivors, although no engine ever saw
   * the others' decisions.
   */
  lemma CapOverRuns(cfg: Config, initial: Failures, steps: seq<Step>, s: State, segment: string, ids: set<Id>, l: Id)
    requires Exec(cfg, Init(initial), steps) == Reached(s)
    requires AllSucceeded(s, ids, segment)
    requires l in ids && forall i :: i in ids ==> s.collects[i].order <= s.collects[l].order
    requires forall i :: i in ids ==> StillCounted(cfg, s, i, l)
    ensures |HostsOf(s, ids)| <= cfg.maxHosts
    ensures |s.collects[l].segmentHosts - HostsOf(s, ids)| >= cfg.minSurviving
  {
    WholeRun(cfg, Init(initial), steps);
    var last := s.collects[l];
    forall i | i in ids ensures s.collects[i].key.host in last.failureSet {
      assert s.collects[i].key in last.seen;
      assert StillCounted(cfg, s, i, l);
    }
    SubsetCard(HostsOf(s, ids), last.failureSet);
    SubsetCard(last.segmentHosts - last.failureSet, last.segmentHosts - HostsOf(s, ids));
  }

  /** So more successes than the cap are possible only if some record no longer counted at the last listing. */
  lemma CapExceededOnlyByAge(cfg: Config, initial: Failures, steps: seq<Step>, s: State, segment: string, ids: set<Id>)
    requires Exec(cfg, Init(initial), steps) == Reached(s)
    requires AllSucceeded(s, ids, segment) && |HostsOf(s, ids)| > cfg.maxHosts
    ensures exists i, l :: i in ids && l in ids && s.collects[i].order <= s.collects[l].order && !StillCounted(cfg, s, i, l)
  {
    var l := LastRegistrant(s, ids);
    if forall i :: i in ids ==> StillCounted(cfg, s, i, l) {
      CapOverRuns(cfg, initial, steps, s, segment, ids, l);
    }
  }

  // ---------------------------------------------------------------- the program of one engine

  lemma {:induction false} ExecAppend(cfg: Config, s: State, a: seq<Step>, b: seq<Step>)
    requires Exec(cfg, s, a).Reached?
    ensures Exec(cfg, s, a + b) == Exec(cfg, Exec(cfg, s, a).state, b)
    decreases |a|
  {
    if a == [] {
      assert a + b == b;
    } else {
      assert (a + b)[1..] == a[1..] + b;
      ExecAppend(cfg, Apply(cfg, s, a[0]), a[1..], b);
    }
  }

  /** What the others leave to a collection. */
  predicate SameCollect(id: Id, a: State, b: State) {
    id in a.collects && id in b.collects && a.collects[id] == b.collects[id]
  }

  /** The store of the failures as one execution of the task meets it; any of its calls may raise. */
  class Collector {
    const cfg: Config
    const first: Failures
    const replies: nat -> Reply
    var now: State
    var schedule: seq<seq<Step>>       // the other executions: one batch of steps before each call
    var calls: nat
    ghost var history: seq<Step>

    ghost predicate Valid()
      reads this
    {
      Exec(cfg, Init(first), history) == Reached(now)
    }

    constructor (cfg: Config, failures: Failures, replies: nat -> Reply, schedule: seq<seq<Step>>)
      ensures Valid() && this.cfg == cfg && first == failures && now == Init(failures) && this.schedule == schedule
    {
      this.cfg, this.first, this.replies, this.schedule := cfg, failures, replies, schedule;
      this.now, this.calls, this.history := Init(failures), 0, [];
    }

    /** No call raises. */
    ghost predicate Smooth() {
      forall k :: replies(k).Fine?
    }

    method Perform(step: Step)
      requires Valid() && Enabled(now, step)
      modifies `now, `history
      ensures Valid() && now == Apply(cfg, old(now), step) && history == old(history) + [step]
    {
      ExecAppend(cfg, Init(first), history, [step]);
      assert [step][1..] == [];
      now := Apply(cfg, now, step);
      history := history + [step];
    }

    /** The others run, then the next call gets its reply. */
    method Turn(id: Id) returns (reply: Reply)
      requires Valid() && id in now.collects
      modifies this
      ensures Valid() && SameCollect(id, old(now), now) && old(history) <= history
      ensures Smooth() ==> reply.Fine?
    {
      if schedule != [] {
        var batch := schedule[0];
        schedule := schedule[1..];
        for k := 0 to |batch|
          invariant Valid() && SameCollect(id, old(now), now) && old(history) <= history
        {
          if batch[k].id != id && Enabled(now, batch[k]) { Perform(batch[k]); }
        }
      }
      reply := replies(calls);
      calls := calls + 1;
    }

    /** The records of a segment, each once. */
    method ReadPrefix(segment: string) returns (rows: seq<Failure>)
      ensures IsListing(rows, segment, now.failures)
    {
      rows := [];
      var rest := now.failures.Keys;
      while rest != {}
        invariant rest <= now.failures.Keys
        invariant forall f :: f in rows ==>
                    f.key in now.failures && now.failures[f.key] == f.createdAt && f.key.segment == segment
        invariant forall k :: k in now.failures && k !in rest && k.segment == segment ==> Failure(k, now.failures[k]) in rows
      {
        var k :| k in rest;
        rest := rest - {k};
        if k.segment == segment { rows := rows + [Failure(k, now.failures[k])]; }
      }
    }

    /** A call that only reads: it returns or the task raises. */
    method TryRead(id: Id) returns (ok: bool)
      requires Valid() && id in now.collects && !now.collects[id].phase.Succeeded?
      modifies this
      ensures Valid() && old(history) <= history && id in now.collects && now.collects[id].key == old(now).collects[id].key
      ensures if ok then SameCollect(id, old(now), now) else now.collects[id] == old(now).collects[id].(phase := Rejected)
      ensures Smooth() ==> ok
    {
      var reply := Turn(id);
      ok := reply.Fine?;
      if !ok { Perform(Raise(id)); }
    }

    /** A call that writes: it may raise although it took effect. */
    method TryWrite(id: Id, step: Step) returns (ok: bool)
      requires Valid() && id in now.collects && step.id == id && Enabled(now, step)
      requires step.PutFailure? || step.ResetHostState?
      modifies this
      ensures Valid() && old(history) <= history && id in now.collects && now.collects[id].key == old(now).collects[id].key
      ensures ok ==> now.collects[id].phase == if step.PutFailure? then Registered else Recorded
      ensures !ok ==> now.collects[id].phase.Rejected?
      ensures Smooth() ==> ok
    {
      var reply := Turn(id);
      ok := reply.Fine?;
      if !reply.Refused? { Perform(step); }
      if !ok { Perform(Raise(id)); }
    }

    /** register_host_failure: the failure is put, the host's record read and reset. */
    method Register(id: Id, createdAt: int) returns (ok: bool)
      requires Valid() && In(now, id, Called)
      modifies this
      ensures Valid() && old(history) <= history && id in now.collects && now.collects[id].key == old(now).collects[id].key
      ensures now.collects[id].phase == if ok then Recorded else Rejected
      ensures Smooth() ==> ok
    {
      ok := TryWrite(id, PutFailure(id, createdAt));
      if !ok { return; }
      ok := TryRead(id);
      if !ok { return; }
      ok := TryWrite(id, ResetHostState(id));
    }

    /** The listing of the recent failures, and the hosts they name. */
    method List(id: Id, at: int) returns (ok: bool, failureSet: set<Host>)
      requires Valid() && In(now, id, Recorded)
      modifies this
      ensures Valid() && old(history) <= history && id in now.collects && now.collects[id].key == old(now).collects[id].key
      ensures now.collects[id].phase == if ok then Listed else Rejected
      ensures ok ==> now.collects[id].failureSet == failureSet == FailureSetOf(cfg, now.collects[id].key, now.collects[id].seen, at)
      ensures Smooth() ==> ok
    {
      failureSet := {};
      ok := TryRead(id);
      if !ok { return; }
      var key := now.collects[id].key;
      var rows := ReadPrefix(key.segment);
      failureSet := GroupHosts(cfg, key, at, rows, now.failures);
      Perform(ListFailures(id, at));
    }

    /** A listing contains the failure that was registered before it. */
    lemma SeesItself(id: Id)
      requires Valid() && In(now, id, Listed)
      ensures now.collects[id].key in now.collects[id].seen
    {
      WholeRun(cfg, Init(first), history);
    }

    /** The checks of the listed set; the hosts of the segment are read before the last one. */
    method Conclude(id: Id, failureSet: set<Host>, mapped: set<Host>, segmentHosts: set<Host>) returns (v: Verdict)
      requires Valid() && In(now, id, Listed) && now.collects[id].failureSet == failureSet
      modifies this
      ensures Valid() && old(history) <= history && id in now.collects && now.collects[id].key == old(now).collects[id].key
      ensures now.collects[id].phase == if v.Collected? then Succeeded else Rejected
      ensures now.collects[id].failureSet == failureSet
      ensures !v.Raised? ==> Decides(cfg, failureSet, mapped, segmentHosts, v)
      ensures Smooth() ==> !v.Raised?
    {
      var refused := FirstChecks(cfg, failureSet, mapped);
      if refused.Some? {
        Perform(Check(id, mapped, segmentHosts));
        return refused.value;
      }
      var ok := TryRead(id);
      if !ok { return Raised; }
      v := if |segmentHosts - failureSet| < cfg.minSurviving then TooFewSurvivors else Collected(failureSet);
      Perform(Check(id, mapped, segmentHosts));
    }

    /**
     * CollectFailureSetTask.execute.  The failure is registered before the listing is made, so the
     * listing contains it; the set is returned exactly when it is accepted, and otherwise the first
     * check that fails is named, unless a call raises.  Every call is a step of the machine, so the
     * cap over whole runs holds of any number of executions.
     */
    method Execute(id: Id, key: FailureKey, createdAt: int, at: int, mapped: set<Host>, segmentHosts: set<Host>)
      returns (v: Verdict, ghost seen: Failures)
      requires Valid() && id !in now.collects
      modifies this
      ensures Valid() && old(history) <= history && id in now.collects && now.collects[id].key == key
      ensures now.collects[id].phase == if v.Collected? then Succeeded else Rejected
      ensures v.Collected? ==> now.collects[id].failureSet == v.failureSet
      ensures v.Collected? ==> forall host :: host in v.failureSet <==> host == key.host || FailedLately(cfg, key, seen, at, host)
      ensures !v.Raised? ==> key in seen && Decides(cfg, FailureSetOf(cfg, key, seen, at), mapped, segmentHosts, v)
      ensures Smooth() ==> !v.Raised?
    {
      seen := map[];
      Perform(Call(id, key));
      var ok := TryRead(id);
      if !ok { return Raised, seen; }
      ok := Register(id, createdAt);
      if !ok { return Raised, seen; }
      var failureSet;
      ok, failureSet := List(id, at);
      if !ok { return Raised, seen; }
      SeesItself(id);
      seen := now.collects[id].seen;
      v := Conclude(id, failureSet, mapped, segmentHosts);
    }
  }
}
