/**
 * The fencing tasks of one failure in a row: the failure set is collected, fenced, and asserted
 * once more before anything is evacuated.
 */
module FencedRecovery {
  import opened Wrappers
  import FailureSet
  import FencingTask
  import FencingTypes

  type Host = string

  datatype Outcome =
    | NotCollected(verdict: FailureSet.Verdict)
    | NotFenced(error: FencingTask.Error)
    | Proceed(hosts: seq<Host>)              // the evacuation may begin

  /** The hosts of the set, each once; the order is of no consequence. */
  method Listed(hosts: set<Host>) returns (order: seq<Host>)
    ensures (forall h :: h in order <==> h in hosts) && |order| == |hosts|
  {
    order := [];
    var rest := hosts;
    while rest != {}
      invariant rest <= hosts && |order| == |hosts| - |rest| && forall h :: h in order <==> h in hosts - rest
    {
      var h :| h in rest;
      order, rest := order + [h], rest - {h};
    }
  }

  /**
   * Whoever gets past the assertion has a failure set that holds its own failed host and every
   * recent failure of the segment, within the cap and with the required survivors left, and has
   * read each of its hosts as FENCED and Off twice, the second time after every host was fenced.
   * When no call raises it gets past exactly if the set is accepted, the segment's lock was free,
   * every host was fenced, and both readings of all hosts say so.
   */
  method Recover(collector: FailureSet.Collector, engine: FencingTask.Engine, task: FencingTypes.Id,
                 me: FailureSet.FailureKey,
                 createdAt: int, now: int, mapped: set<Host>, segmentHosts: set<Host>)
    returns (r: Outcome, ghost seen: FailureSet.Failures,
             ghost first: seq<Option<FencingTask.Record>>, ghost second: seq<Option<FencingTask.Record>>,
             ghost log: seq<FencingTask.Event>, ghost done: nat)
    requires collector.Valid() && task !in collector.now.collects
    requires engine.Valid() && task !in engine.now.tasks && engine.config.maxHosts == collector.cfg.maxHosts
    modifies collector, engine
    ensures collector.Valid() && engine.Valid()
    ensures r.NotCollected? && !r.verdict.Raised? ==>
              !FailureSet.Accepts(collector.cfg, FailureSet.FailureSetOf(collector.cfg, me, seen, now), mapped, segmentHosts)
    ensures r.Proceed? ==>
              var hosts := set h | h in r.hosts;
              && me in seen && hosts == FailureSet.FailureSetOf(collector.cfg, me, seen, now) && me.host in hosts
              && |hosts| <= collector.cfg.maxHosts && |segmentHosts - hosts| >= collector.cfg.minSurviving
              && |first| == |second| == |r.hosts|
              && forall i :: 0 <= i < |r.hosts| ==> FencingTask.Proves(first[i]) && FencingTask.Proves(second[i])
    ensures collector.Smooth() ==>
              (r.NotCollected? <==>
                 !FailureSet.Accepts(collector.cfg, FailureSet.FailureSetOf(collector.cfg, me, seen, now), mapped, segmentHosts))
    ensures engine.enabled && engine.Smooth() && log != [] && !r.NotCollected? ==>
              var n := |FailureSet.FailureSetOf(collector.cfg, me, seen, now)|;
              (r.Proceed? <==> done == n == |first| == |second| && FencingTask.AllProve(first) && FencingTask.AllProve(second))
  {
    first, second, log, done := [], [], [], 0;
    var verdict;
    verdict, seen := collector.Execute(task, me, createdAt, now, mapped, segmentHosts);
    if !verdict.Collected? { return NotCollected(verdict), seen, first, second, log, done; }
    var hosts := Listed(verdict.failureSet);
    r, first, second, log, done := FenceAndAssert(engine, task, me.segment, hosts);
    assert (set h | h in hosts) == verdict.failureSet;
  }

  /** The fencing of the set and the assertion after it. */
  method FenceAndAssert(engine: FencingTask.Engine, task: FencingTypes.Id, segment: string, hosts: seq<Host>)
    returns (r: Outcome, ghost first: seq<Option<FencingTask.Record>>, ghost second: seq<Option<FencingTask.Record>>,
             ghost log: seq<FencingTask.Event>, ghost done: nat)
    requires engine.Valid() && task !in engine.now.tasks && |hosts| <= engine.config.maxHosts
    modifies engine
    ensures engine.Valid() && (r.NotFenced? || r.Proceed?)
    ensures r.Proceed? ==> r.hosts == hosts && |first| == |second| == |hosts|
                           && forall i :: 0 <= i < |hosts| ==> FencingTask.Proves(first[i]) && FencingTask.Proves(second[i])
    ensures engine.enabled && engine.Smooth() && log != [] ==>
              (r.Proceed? <==> done == |hosts| == |first| == |second| && FencingTask.AllProve(first) && FencingTask.AllProve(second))
  {
    second := [];
    var fenced;
    fenced, log, done, first := engine.Execute(task, segment, hosts);
    if fenced.Err? { return NotFenced(fenced.error), first, second, log, done; }
    var available := engine.Turn(task);
    if !available.Fine? { return NotFenced(FencingTask.Raised), first, second, log, done; }
    var proved;
    proved, second := engine.AssertHostsFenced(task, hosts);
    if proved.Err? { return NotFenced(proved.error), first, second, log, done; }
    r := Proceed(hosts);
  }
}
