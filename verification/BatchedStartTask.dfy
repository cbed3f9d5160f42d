/**
 * BatchedStartInstancesTask: the stopped, evacuated instances are started, each under a start slot
 * of its destination host.
 *
 * The green threads work on different records, so they are run one after the other here.
 */
module BatchedStartTask {
  import opened Wrappers

  import opened EtcdRecords
  import opened StagedEngine

  /** Listed for a start. */
  predicate Candidate(config: Config, v: View) {
    v.step == EVACUATED_STOPPED && Wanted(config, v)
  }

  // ---------------------------------------------------------------- what a start leaves

  predicate IsFinal(step: Value) { step == ACTIVE || step == FAILED }

  /** The steps on the way. */
  predicate Underway(before: Value, after: Value) {
    after == before || after == WAITING_START_SLOT || after == STARTING
  }

  /** The updates since, all of x and to a final step; the last that took effect is the step of the record. */
  ghost predicate Wrote(x: string, writes0: seq<RecordWrite>, writes: seq<RecordWrite>, before: Value, after: Value) {
    && writes0 <= writes && (forall w :: w in writes[|writes0|..] ==> w.x == x && IsFinal(w.step))
    && after == match LastWritten(writes[|writes0|..], x)
                case Some(step) => step
                case None => before
  }

  lemma WroteMore(x: string, a: seq<RecordWrite>, b: seq<RecordWrite>, c: seq<RecordWrite>, s0: Value, s1: Value, s2: Value)
    requires Wrote(x, a, b, s0, s1) && Wrote(x, b, c, s1, s2)
    ensures Wrote(x, a, c, s0, s2)
  {
    assert c[|a|..] == b[|a|..] + c[|b|..];
    LastOfTwo(b[|a|..], c[|b|..], x);
  }

  lemma WroteOne(x: string, writes: seq<RecordWrite>, step: Value, reply: Reply, before: Value)
    requires IsFinal(step)
    ensures Wrote(x, writes, writes + [RecordWrite(x, step, reply)], before, if reply.Refused? then before else step)
  {
    assert (writes + [RecordWrite(x, step, reply)])[|writes|..] == [RecordWrite(x, step, reply)];
    LastOfTwo([], [RecordWrite(x, step, reply)], x);
  }

  ghost predicate Asked(writes: seq<RecordWrite>, x: string) {
    exists w :: w in writes && w.x == x
  }

  /**
   * What a start leaves of the record of x, given the updates of the run.  Without a destination
   * nothing; else some update to a final step was asked for, and the record ends at the step of the
   * last one that took effect, or on the way if none did; it is STARTING then if all other calls
   * returned.
   */
  ghost predicate StartEnds(x: string, before: View, after: View, writes: seq<RecordWrite>, onlyUpdatesRaise: bool) {
    && (!before.dest.Some? ==> after == before && !Asked(writes, x))
    && (before.dest.Some? ==> Asked(writes, x))
    && match LastWritten(writes, x)
       case Some(step) => after.step == step && IsFinal(step)
       case None => Underway(before.step, after.step) && (onlyUpdatesRaise && before.dest.Some? ==> after.step == STARTING)
  }

  // ---------------------------------------------------------------- one start

  /** Poll k, counted from this call, is the first to show the server active or in error, and none raised. */
  ghost predicate DecidedAt(e: Engine, call: nat, k: nat) {
    && Decisive(e.world(call + k).server)
    && (forall j :: call <= j <= call + k ==> e.world(j).nova.Fine?)
    && (forall j :: call <= j < call + k ==> !Decisive(e.world(j).server))
  }

  ghost predicate Decisive(s: Server) {
    s.vm == Text("active") || s.vm == Text("error")
  }

  /** Some poll in time decides; active says how. */
  ghost predicate Decides(e: Engine, call: nat, active: bool) {
    exists k :: 0 <= k <= e.config.startPolls && DecidedAt(e, call, k) && (e.world(call + k).server.vm == Text("active")) == active
  }

  /** The decision is one. */
  lemma DecidedOnce(e: Engine, call: nat, j: nat, k: nat)
    requires DecidedAt(e, call, j) && DecidedAt(e, call, k)
    ensures j == k
  {
  }

  /** _wait_for_start_result: the first answer that decides, if one comes in time. */
  method WaitForStart(e: Engine, x: string) returns (r: Result<Server>)
    modifies e`calls
    ensures r.Ok? ==> Decisive(r.value) && Decides(e, old(e.calls), r.value.vm == Text("active"))
                      && !Decides(e, old(e.calls), r.value.vm != Text("active"))
    ensures r.Err? ==> !Decides(e, old(e.calls), true) && !Decides(e, old(e.calls), false)
  {
    ghost var call := e.calls;
    r := e.GetServer(x);
    if r.Err? { return; }
    if IsActive(r.value) || r.value.vm == Text("error") {
      DecisionStands(e, call, 0);
      return;
    }
    for poll := 0 to e.config.startPolls
      invariant e.calls == call + poll + 1
      invariant forall j :: call <= j <= call + poll ==> e.world(j).nova.Fine? && !Decisive(e.world(j).server)
    {
      r := e.GetServer(x);
      if r.Err? {
        NotDecided(e, call, poll + 1);
        return;
      }
      if IsActive(r.value) || r.value.vm == Text("error") {
        DecisionStands(e, call, poll + 1);
        return;
      }
    }
    return Err(Raised);
  }

  lemma DecisionStands(e: Engine, call: nat, k: nat)
    requires k <= e.config.startPolls && DecidedAt(e, call, k)
    ensures Decides(e, call, e.world(call + k).server.vm == Text("active"))
    ensures !Decides(e, call, e.world(call + k).server.vm != Text("active"))
  {
    forall j: nat | DecidedAt(e, call, j) ensures j == k {
      DecidedOnce(e, call, j, k);
    }
  }

  lemma NotDecided(e: Engine, call: nat, n: nat)
    requires forall j :: call <= j < call + n ==> !Decisive(e.world(j).server)
    requires !e.world(call + n).nova.Fine?
    ensures !Decides(e, call, true) && !Decides(e, call, false)
  {
    forall k: nat ensures !DecidedAt(e, call, k) {
      if k >= n {
        assert call <= call + n <= call + k;
      }
    }
  }

  /** The acquire, if it came to that; slot says that it returned. */
  predicate SlotTaken(x: string, slot: bool, before: Slots, after: Slots) {
    if slot then after == AfterCall(before, Acquired(x, Fine))
    else after == before || after == AfterCall(before, Acquired(x, Refused)) || after == AfterCall(before, Acquired(x, Lost))
  }

  /** An acquire that returned, and the release. */
  function AcquiredAndReleased(x: string, before: Slots, reply: Reply): Slots {
    AfterCall(AfterCall(before, Acquired(x, Fine)), Released(x, reply))
  }

  /** What one start does with slots: a slot whose acquire returned is released, once. */
  predicate SlotTrace(x: string, before: Slots, after: Slots) {
    || SlotTaken(x, false, before, after)
    || after == AcquiredAndReleased(x, before, Fine) || after == AcquiredAndReleased(x, before, Refused)
    || after == AcquiredAndReleased(x, before, Lost)
  }

  /** Only x's last start may have another number than before. */
  ghost predicate OnlyAt(x: string, before: map<string, nat>, after: map<string, nat>) {
    (forall y :: y in before ==> y in after) && forall y :: y in before && y != x ==> after[y] == before[y]
  }

  /** A move of the record whose result is ignored. */
  method Move(e: Engine, x: string, expected: set<string>, newStep: string) returns (r: Result<()>)
    requires newStep != "EVACUATED_STOPPED"
    modifies e`calls, e`records
    ensures OnlyOf(x, old(e.Views()), e.Views())
    ensures AllPlaced(old(e.Views())) ==> AllPlaced(e.Views())
    ensures x in old(e.Views()) ==> e.Views()[x].step == old(e.Views())[x].step || e.Views()[x].step == Text(newStep)
    ensures r.Ok? && x in old(e.Views()) && (exists s :: s in expected && old(e.Views())[x].step == Text(s)) ==>
              e.Views()[x].step == Text(newStep)
    ensures e.ReadsUp() && x in old(e.Views()) ==> r.Ok?
  {
    var moved := e.Transition(x, expected, newStep);
    r := if moved.Ok? then Ok(()) else Err(Raised);
  }

  /** The slot is taken and the record moved on to STARTING. */
  method TakeSlot(e: Engine, x: string, host: Value) returns (r: Result<()>, slot: bool)
    requires x in e.Views()
    modifies e`calls, e`records, e`slots, e`asked
    ensures OnlyOf(x, old(e.Views()), e.Views()) && Underway(old(e.Views())[x].step, e.Views()[x].step)
    ensures AllPlaced(old(e.Views())) ==> AllPlaced(e.Views())
    ensures SlotTaken(x, slot, old(e.slots), e.slots)
    ensures e.asked == if e.slots == old(e.slots) then old(e.asked) else old(e.asked)[x := host]
    ensures (r.Ok? ==> slot) && (slot ==> x in e.slots.held)
    ensures e.OnlyUpdatesRaise() ==> r.Ok?
    ensures r.Ok? && old(e.Views())[x].step == EVACUATED_STOPPED ==> e.Views()[x].step == STARTING
  {
    assert "EVACUATED_STOPPED" in {"EVACUATED_STOPPED", "WAITING_START_SLOT"} && "WAITING_START_SLOT" in {"WAITING_START_SLOT"};
    var waiting := Move(e, x, {"EVACUATED_STOPPED", "WAITING_START_SLOT"}, "WAITING_START_SLOT");
    if waiting.Err? { return waiting, false; }
    var acquired := e.AcquireSlot(x, host);
    if !acquired.Fine? { return Err(Raised), false; }
    r := Move(e, x, {"WAITING_START_SLOT"}, "STARTING");
    slot := true;
  }

  /** One update to a final step. */
  method Record(e: Engine, x: string, active: Option<Value>) returns (r: Result<()>, ghost write: RecordWrite)
    requires x in e.Views()
    modifies e`calls, e`records, e`writes
    ensures OnlyOf(x, old(e.Views()), e.Views())
    ensures AllPlaced(old(e.Views())) ==> AllPlaced(e.Views())
    ensures Wrote(x, old(e.writes), e.writes, old(e.Views())[x].step, e.Views()[x].step) && e.writes == old(e.writes) + [write]
    ensures write == RecordWrite(x, if active.Some? then ACTIVE else FAILED, write.reply) && (r.Ok? <==> write.reply.Fine?)
    ensures (e.StoreUp() ==> write.reply.Fine?) && (e.UpdatesRefused() ==> write.reply.Refused?)
    ensures r.Ok? && active.Some? ==> e.Views()[x].current == active.value
  {
    write := RecordWrite(x, if active.Some? then ACTIVE else FAILED, e.world(e.calls).update);
    WroteOne(x, e.writes, write.step, write.reply, e.Views()[x].step);
    match active {
      case Some(vm) => r := e.Update(x, map["step" := ACTIVE, "current_vm_state" := vm]);
      case None => r := e.MarkFailed(x, "start failed");
    }
  }

  /** What the updates of one start have in common. */
  ghost predicate Replies(e: Engine, writes0: seq<RecordWrite>, writes: seq<RecordWrite>) {
    && writes0 <= writes
    && (e.StoreUp() ==> forall w :: w in writes[|writes0|..] ==> w.reply.Fine?)
    && (e.UpdatesRefused() ==> forall w :: w in writes[|writes0|..] ==> w.reply.Refused?)
  }

  lemma RepliesMore(e: Engine, a: seq<RecordWrite>, b: seq<RecordWrite>, c: seq<RecordWrite>)
    requires Replies(e, a, b) && Replies(e, b, c)
    ensures Replies(e, a, c)
  {
    assert c[|a|..] == b[|a|..] + c[|b|..];
  }

  /** Nova took the start call, and a poll after it showed the server active. */
  ghost predicate Activated(e: Engine, x: string, at: map<string, nat>) {
    x in at && e.world(at[x]).nova.Fine? && Decides(e, at[x] + 1, true)
  }

  /**
   * The updates follow Nova's answer: only the first may say ACTIVE, and it does exactly if the
   * server was started and became active; there are others only if the first did not return.
   */
  ghost predicate AsAnswered(e: Engine, x: string, started: bool, at: map<string, nat>, writes: seq<RecordWrite>) {
    && (writes != [] && writes[0].step == ACTIVE <==> started && Activated(e, x, at))
    && (forall k :: 1 <= k < |writes| ==> writes[k].step == FAILED && !writes[0].reply.Fine?)
  }

  /** What a start may change. */
  datatype Moves = Moves(views: map<string, View>, started: seq<string>, at: map<string, nat>, slots: Slots,
                         asked: map<string, Value>, writes: seq<RecordWrite>)

  ghost function Moved(e: Engine): Moves
    reads e`records, e`started, e`startedAt, e`slots, e`asked, e`writes
  {
    Moves(e.Views(), e.started, e.startedAt, e.slots, e.asked, e.writes)
  }

  /** What every part of a start keeps. */
  ghost predicate OnlyStart(x: string, a: Moves, b: Moves) {
    && OnlyOf(x, a.views, b.views) && (AllPlaced(a.views) ==> AllPlaced(b.views))
    && (b.started == a.started || (b.started == a.started + [x] && x in b.at)) && OnlyAt(x, a.at, b.at)
  }

  /** The updates since, as answered by Nova; middle is the step of the record before the first of them. */
  ghost predicate Wrought(e: Engine, x: string, middle: Value, a: Moves, b: Moves) {
    && x in b.views && Wrote(x, a.writes, b.writes, middle, b.views[x].step) && Replies(e, a.writes, b.writes)
    && AsAnswered(e, x, b.started != a.started, b.at, b.writes[|a.writes|..])
    && (e.StoreUp() && b.views[x].step == ACTIVE && middle != ACTIVE ==> b.views[x].current == Text("active"))
  }

  /** Nova starts the server, under its slot, and its answer is recorded; ok if that returned. */
  method StartAndRecord(e: Engine, x: string) returns (ok: bool)
    requires x in e.slots.held && x in e.Views()
    modifies e`calls, e`records, e`started, e`startedAt, e`writes
    ensures var a, b := old(Moved(e)), Moved(e);
            && OnlyStart(x, a, b) && b.started == a.started + [x] && b.slots == a.slots && b.asked == a.asked
            && Wrought(e, x, a.views[x].step, a, b) && |b.writes| <= |a.writes| + 1
            && (ok <==> |b.writes| == |a.writes| + 1 && b.writes[|a.writes|].reply.Fine?)
  {
    assert e.writes[|e.writes|..] == [];
    ghost var a := Moved(e);
    var called := e.StartServer(x);
    if !called.Fine? { return false; }
    var server := WaitForStart(e, x);
    if server.Err? { return false; }
    ok := RecordAnswer(e, x, server.value, a);
  }

  /** The record after the answer: ACTIVE, or FAILED by mark_failed. */
  method RecordAnswer(e: Engine, x: string, server: Server, ghost a: Moves) returns (ok: bool)
    requires x in e.Views() && e.Views() == a.views && e.writes == a.writes && e.started == a.started + [x]
    requires OnlyAt(x, a.at, e.startedAt) && x in e.startedAt && e.slots == a.slots && e.asked == a.asked
    requires Decisive(server) && (Activated(e, x, e.startedAt) <==> server.vm == Text("active"))
    modifies e`calls, e`records, e`writes
    ensures var b := Moved(e);
            && OnlyStart(x, a, b) && b.started == a.started + [x] && b.slots == a.slots && b.asked == a.asked
            && Wrought(e, x, a.views[x].step, a, b) && |b.writes| == |a.writes| + 1
            && (ok <==> b.writes[|a.writes|].reply.Fine?)
  {
    var recorded;
    ghost var write;
    recorded, write := Record(e, x, if IsActive(server) then Some(server.vm) else None);
    ok := recorded.Ok?;
    assert e.writes[|a.writes|..] == [write];
  }

  /** Up to the end of the try block or of the handler. */
  ghost predicate Tried(e: Engine, x: string, host: Value, slot: bool, middle: Value, a: Moves, b: Moves) {
    && OnlyStart(x, a, b) && x in a.views && Underway(a.views[x].step, middle) && Wrought(e, x, middle, a, b)
    && SlotTaken(x, slot, a.slots, b.slots) && b.asked == (if b.slots == a.slots then a.asked else a.asked[x := host])
    && (e.OnlyUpdatesRaise() ==> slot && b.started == a.started + [x])
    && (e.OnlyUpdatesRaise() && a.views[x].step == EVACUATED_STOPPED ==> middle == STARTING)
  }

  /** The try block of _start_one. */
  method TryStart(e: Engine, x: string, host: Value) returns (ok: bool, slot: bool, ghost middle: Value)
    requires x in e.Views()
    modifies e`calls, e`records, e`started, e`startedAt, e`slots, e`asked, e`writes
    ensures Tried(e, x, host, slot, middle, old(Moved(e)), Moved(e)) && |e.writes| <= |old(e.writes)| + 1
    ensures ok <==> |e.writes| == |old(e.writes)| + 1 && e.writes[|old(e.writes)|].reply.Fine?
  {
    assert e.writes[|e.writes|..] == [];
    ghost var a := Moved(e);
    var taken;
    taken, slot := TakeSlot(e, x, host);
    middle := e.Views()[x].step;
    if taken.Err? { return false, slot, middle; }
    ghost var m := Moved(e);
    ok := StartAndRecord(e, x);
    ThenStarted(e, x, middle, a, m, Moved(e));
  }

  /** The slot first, then the start. */
  lemma ThenStarted(e: Engine, x: string, middle: Value, a: Moves, m: Moves, b: Moves)
    requires OnlyStart(x, a, m) && OnlyStart(x, m, b) && m.writes == a.writes && m.started == a.started
    requires Wrought(e, x, middle, m, b)
    ensures OnlyStart(x, a, b) && Wrought(e, x, middle, a, b)
  {
  }

  /** One more mark_failed, by the handler. */
  lemma ThenMarked(e: Engine, x: string, middle: Value, a: Moves, m: Moves, b: Moves, write: RecordWrite)
    requires OnlyStart(x, a, m) && OnlyOf(x, m.views, b.views) && (AllPlaced(m.views) ==> AllPlaced(b.views)) && x in m.views
    requires Wrought(e, x, middle, a, m) && Wrote(x, m.writes, b.writes, m.views[x].step, b.views[x].step)
    requires b.started == m.started && b.at == m.at && b.writes == m.writes + [write] && write == RecordWrite(x, FAILED, write.reply)
    requires (e.StoreUp() ==> write.reply.Fine?) && (e.UpdatesRefused() ==> write.reply.Refused?)
    requires |m.writes| <= |a.writes| + 1 && (|m.writes| > |a.writes| ==> !m.writes[|a.writes|].reply.Fine?)
    ensures OnlyStart(x, a, b) && Wrought(e, x, middle, a, b)
  {
    WroteMore(x, a.writes, m.writes, b.writes, middle, m.views[x].step, b.views[x].step);
    assert b.writes[|m.writes|..] == [write];
    RepliesMore(e, a.writes, m.writes, b.writes);
    assert b.writes[|a.writes|..] == m.writes[|a.writes|..] + [write];
    assert forall k :: |a.writes| <= k < |m.writes| ==> m.writes[k] in m.writes[|a.writes|..];
  }

  /** Try block and handlers; recorded says that mark_failed did not raise. */
  method GuardedStart(e: Engine, x: string, host: Value) returns (recorded: bool, slot: bool, ghost middle: Value)
    requires x in e.Views()
    modifies e`calls, e`records, e`started, e`startedAt, e`slots, e`asked, e`writes
    ensures Tried(e, x, host, slot, middle, old(Moved(e)), Moved(e)) && |e.writes| > |old(e.writes)|
  {
    ghost var a := Moved(e);
    var ok;
    ok, slot, middle := TryStart(e, x, host);
    if ok { return true, slot, middle; }
    ghost var m := Moved(e);
    var marked;
    ghost var write;
    marked, write := Record(e, x, None);
    ThenMarked(e, x, middle, a, m, Moved(e), write);
    recorded := marked.Ok?;
  }

  /** What a start leaves, but for the slots. */
  ghost predicate Ended(e: Engine, x: string, dest: Option<Value>, a: Moves, b: Moves) {
    && OnlyStart(x, a, b) && x in a.views && Replies(e, a.writes, b.writes)
    && (forall w :: w in b.writes[|a.writes|..] ==> w.x == x)
    && StartEnds(x, a.views[x], b.views[x], b.writes[|a.writes|..], e.OnlyUpdatesRaise())
    && AsAnswered(e, x, b.started != a.started, b.at, b.writes[|a.writes|..])
    && (b.views[x].step == ACTIVE ==> b.started == a.started + [x])
    && (e.StoreUp() ==> (b.views[x].step == ACTIVE <==> b.started != a.started && Activated(e, x, b.at)))
    && (e.StoreUp() && b.views[x].step == ACTIVE ==> b.views[x].current == Text("active"))
    && (b.asked == a.asked || (dest.Some? && b.asked == a.asked[x := dest.value]))
    && (e.OnlyUpdatesRaise() && dest.Some? ==> b.started == a.started + [x] && b.asked == a.asked[x := dest.value])
  }

  lemma TriedEnds(e: Engine, x: string, host: Value, slot: bool, middle: Value, a: Moves, b: Moves)
    requires Tried(e, x, host, slot, middle, a, b) && |b.writes| > |a.writes|
    requires a.views[x].step == EVACUATED_STOPPED && a.views[x].dest == Some(host)
    ensures Ended(e, x, Some(host), a, b)
  {
    var ws := b.writes[|a.writes|..];
    assert ws[0] == b.writes[|a.writes|] && ws[0] in ws;
    WrittenIsFinal(ws, x);
    assert b.started != a.started ==> b.started == a.started + [x];
    if b.views[x].step == ACTIVE { ActiveIsFirst(ws, x); }
    if e.StoreUp() { LastIsFirst(e, x, a.writes, b.writes); }
  }

  /** An update to ACTIVE that took effect is the first one. */
  lemma {:induction false} ActiveIsFirst(ws: seq<RecordWrite>, x: string)
    requires LastWritten(ws, x) == Some(ACTIVE) && forall k :: 1 <= k < |ws| ==> ws[k].step == FAILED
    ensures ws != [] && ws[0].step == ACTIVE
    decreases |ws|
  {
    if |ws| > 1 {
      assert forall k :: 1 <= k < |ws| - 1 ==> ws[..|ws| - 1][k] == ws[k];
      ActiveIsFirst(ws[..|ws| - 1], x);
    }
  }

  /** When the store is up, the first update is the last one. */
  lemma LastIsFirst(e: Engine, x: string, a: seq<RecordWrite>, b: seq<RecordWrite>)
    requires a <= b && |b| > |a| && b[|a|].x == x && Replies(e, a, b) && e.StoreUp()
    requires |b| > |a| + 1 ==> !b[|a|].reply.Fine?
    ensures LastWritten(b[|a|..], x) == Some(b[|a|].step)
  {
    assert b[|a|] in b[|a|..];
    assert b[|a|..] == [b[|a|]];
    LastOfTwo([], [b[|a|]], x);
  }

  /** The try statement without its finally block. */
  method StartPlaced(e: Engine, x: string, host: Value) returns (recorded: bool, slot: bool)
    requires x in e.Views() && e.Views()[x].step == EVACUATED_STOPPED && e.Views()[x].dest == Some(host)
    modifies e`calls, e`records, e`started, e`startedAt, e`slots, e`asked, e`writes
    ensures Ended(e, x, Some(host), old(Moved(e)), Moved(e)) && SlotTaken(x, slot, old(e.slots), e.slots)
    ensures e.slots != old(e.slots) ==> e.asked == old(e.asked)[x := host]
    ensures e.OnlyUpdatesRaise() ==> slot
  {
    ghost var a, middle := Moved(e), Null;
    recorded, slot, middle := GuardedStart(e, x, host);
    TriedEnds(e, x, host, slot, middle, a, Moved(e));
  }

  /** What a start leaves, with the slots: they are of the destination, and released. */
  ghost predicate StartLeaves(e: Engine, x: string, dest: Option<Value>, a: Moves, b: Moves) {
    && Ended(e, x, dest, a, b) && SlotTrace(x, a.slots, b.slots)
    && (b.slots != a.slots ==> dest.Some? && b.asked == a.asked[x := dest.value])
    && (e.OnlyUpdatesRaise() ==> b.slots == if dest.Some? then AcquiredAndReleased(x, a.slots, Fine) else a.slots)
  }

  /** The finally block: the release of the slot, whose errors are swallowed. */
  method Finally(e: Engine, x: string, slot: bool, ghost host: Value, ghost a: Moves)
    requires Ended(e, x, Some(host), a, Moved(e)) && SlotTaken(x, slot, a.slots, e.slots) && (e.OnlyUpdatesRaise() ==> slot)
    requires e.slots != a.slots ==> e.asked == a.asked[x := host]
    modifies e`calls, e`slots
    ensures StartLeaves(e, x, Some(host), a, Moved(e))
  {
    assert AfterCall(a.slots, Acquired(x, Fine)).log != a.slots.log;
    if slot {
      ghost var b := Moved(e);
      var released := e.ReleaseSlot(x);
      assert Moved(e) == b.(slots := e.slots);
      OtherSlots(e, x, Some(host), a, b, e.slots);
    }
  }

  /**
   * _start_one for a record that was listed.  Without a destination it dies before its try block;
   * otherwise the record ends as its updates say, and they say what Nova answered; the slot is one of
   * the destination, and its release is called on every way out.
   */
  method StartOne(e: Engine, x: string, dest: Option<Value>) returns (recorded: bool)
    requires x in e.Views() && e.Views()[x].step == EVACUATED_STOPPED && e.Views()[x].dest == dest
    modifies e`calls, e`records, e`started, e`startedAt, e`slots, e`asked, e`writes
    ensures StartLeaves(e, x, dest, old(Moved(e)), Moved(e))
  {
    ghost var a := Moved(e);
    if dest.None? {
      NotStarted(e, x, a);
      return false;
    }
    var slot;
    recorded, slot := StartPlaced(e, x, dest.value);
    Finally(e, x, slot, dest.value, a);
  }

  lemma OtherSlots(e: Engine, x: string, dest: Option<Value>, a: Moves, b: Moves, slots: Slots)
    requires Ended(e, x, dest, a, b)
    ensures Ended(e, x, dest, a, b.(slots := slots))
  {
  }

  lemma NotStarted(e: Engine, x: string, a: Moves)
    requires x in a.views && a.views[x].step == EVACUATED_STOPPED && a.views[x].dest.None?
    ensures StartLeaves(e, x, None, a, a)
  {
    assert a.writes[|a.writes|..] == [];
  }

  lemma {:induction false} WrittenIsFinal(writes: seq<RecordWrite>, x: string)
    requires forall w :: w in writes ==> IsFinal(w.step)
    ensures LastWritten(writes, x).Some? ==> IsFinal(LastWritten(writes, x).value)
    decreases |writes|
  {
    if writes != [] { WrittenIsFinal(writes[..|writes| - 1], x); }
  }

  // ---------------------------------------------------------------- the choice

  /** A record after the choice: not wanted, not started. */
  function Chosen(config: Config, v: View): View {
    if v.step == EVACUATED_STOPPED && !Wanted(config, v) then v.(step := IGNORED) else v
  }

  ghost predicate ChosenUpTo(config: Config, order: seq<string>, i: nat, views0: map<string, View>, views: map<string, View>)
    requires i <= |order|
  {
    && views.Keys == views0.Keys
    && forall x :: x in views0 ==> views[x] == if x in order[..i] then Chosen(config, views0[x]) else views0[x]
  }

  ghost predicate Distinct(s: seq<string>) {
    forall k, l :: 0 <= k < l < |s| ==> s[k] != s[l]
  }

  ghost predicate CandidatesUpTo(config: Config, order: seq<string>, i: nat, views0: map<string, View>,
                                 candidates: seq<string>)
    requires i <= |order|
  {
    && Distinct(candidates)
    && forall x :: x in candidates <==> x in order[..i] && x in views0 && Candidate(config, views0[x])
  }

  /** No evacuated instance is passed over. */
  ghost predicate NoneIgnored(config: Config, views: map<string, View>) {
    forall x :: x in views ==> Chosen(config, views[x]) == views[x]
  }

  /** The updates since are of instances that are not candidates. */
  ghost predicate ForOthers(config: Config, views: map<string, View>, writes0: seq<RecordWrite>, writes: seq<RecordWrite>) {
    && writes0 <= writes
    && forall w :: w in writes[|writes0|..] ==> w.x in views && !Candidate(config, views[w.x])
  }

  /** One listed record: true for a candidate. */
  method ChooseOne(e: Engine, x: string, listed: Record) returns (r: Result<bool>)
    requires x in e.Views() && e.Views()[x] == ViewOf(listed)
    modifies e`calls, e`records, e`writes
    ensures r.Ok? ==>
              e.Views() == old(e.Views())[x := Chosen(e.config, ViewOf(listed))] && (r.value <==> Candidate(e.config, ViewOf(listed)))
    ensures AllPlaced(old(e.Views())) ==> AllPlaced(e.Views())
    ensures r.Err? ==> r.error.Raised?
    ensures e.StoreUp() || Chosen(e.config, ViewOf(listed)) == ViewOf(listed) ==> r.Ok?
    ensures old(e.writes) <= e.writes && forall w :: w in e.writes[|old(e.writes)|..] ==>
              w.x == x && !Candidate(e.config, ViewOf(listed))
  {
    if Lookup(listed, "step") != EVACUATED_STOPPED { return Ok(false); }
    if e.config.startOnlyOriginallyActive && Lookup(listed, "original_vm_state") != Text("active") {
      var ignored := e.Update(x, map["step" := IGNORED]);
      return if ignored.Ok? then Ok(false) else Err(Raised);
    }
    return Ok(true);
  }

  lemma ChoiceStep(config: Config, order: seq<string>, i: nat, views0: map<string, View>, views: map<string, View>,
                   after: map<string, View>, candidates: seq<string>, chosen: bool)
    requires i < |order| && Distinct(order) && order[i] in views0
    requires ChosenUpTo(config, order, i, views0, views) && CandidatesUpTo(config, order, i, views0, candidates)
    requires after == views[order[i] := Chosen(config, views0[order[i]])]
               && (chosen <==> Candidate(config, views0[order[i]]))
    ensures ChosenUpTo(config, order, i + 1, views0, after)
    ensures CandidatesUpTo(config, order, i + 1, views0, if chosen then candidates + [order[i]] else candidates)
  {
    assert order[..i + 1] == order[..i] + [order[i]];
    assert order[i] !in order[..i];
  }

  /** The first loop of execute. */
  method Choose(e: Engine, order: seq<string>) returns (r: Result<()>, candidates: seq<string>)
    requires Distinct(order) && forall x :: x in order <==> x in e.Views()
    modifies e`calls, e`records, e`writes
    ensures r.Ok? ==> ChosenUpTo(e.config, order, |order|, old(e.Views()), e.Views())
    ensures r.Ok? ==> CandidatesUpTo(e.config, order, |order|, old(e.Views()), candidates)
    ensures AllPlaced(old(e.Views())) ==> AllPlaced(e.Views())
    ensures r.Err? ==> r.error.Raised?
    ensures e.StoreUp() || NoneIgnored(e.config, old(e.Views())) ==> r.Ok?
    ensures ForOthers(e.config, old(e.Views()), old(e.writes), e.writes)
  {
    var listed := e.records;
    ghost var views0, writes0 := e.Views(), e.writes;
    assert e.writes[|e.writes|..] == [];
    candidates := [];
    for i := 0 to |order|
      invariant ChosenUpTo(e.config, order, i, views0, e.Views())
      invariant CandidatesUpTo(e.config, order, i, views0, candidates)
      invariant AllPlaced(views0) ==> AllPlaced(e.Views())
      invariant ForOthers(e.config, views0, writes0, e.writes)
    {
      var x := order[i];
      assert x in order;
      assert x in listed && ViewOf(listed[x]) == views0[x];
      assert x !in order[..i];
      ghost var views, writes := e.Views(), e.writes;
      var one := ChooseOne(e, x, listed[x]);
      assert e.writes[|writes0|..] == writes[|writes0|..] + e.writes[|writes|..];
      if one.Err? { return Err(Raised), candidates; }
      ChoiceStep(e.config, order, i, views0, views, e.Views(), candidates, one.value);
      if one.value { candidates := candidates + [x]; }
    }
    r := Ok(());
  }

  // ---------------------------------------------------------------- the task

  /** Records of other than the first k candidates are as they were; nobody's original state changed. */
  ghost predicate StartsAfter(candidates: seq<string>, k: nat, views0: map<string, View>, views: map<string, View>)
    requires k <= |candidates|
  {
    && views.Keys == views0.Keys
    && (forall x :: x in views0 ==> views[x].original == views0[x].original)
    && (forall x :: x in views0 && x !in candidates[..k] ==> views[x] == views0[x])
  }

  /** The first k starts left what their updates say; nobody else's record was updated. */
  ghost predicate EndsAfter(candidates: seq<string>, k: nat, views0: map<string, View>, views: map<string, View>,
                            writes: seq<RecordWrite>, onlyUpdatesRaise: bool)
    requires k <= |candidates|
  {
    && (forall w :: w in writes ==> w.x in candidates[..k])
    && forall l :: 0 <= l < k ==> candidates[l] in views0 && candidates[l] in views
                                  && StartEnds(candidates[l], views0[candidates[l]], views[candidates[l]], writes, onlyUpdatesRaise)
  }

  /** start_server was called for different candidates. */
  ghost predicate CallsAfter(candidates: seq<string>, calls0: seq<string>, calls: seq<string>) {
    && calls0 <= calls && Distinct(calls[|calls0|..])
    && forall x :: x in calls[|calls0|..] ==> x in candidates
  }

  lemma StartsStep(candidates: seq<string>, k: nat, views0: map<string, View>, views: map<string, View>,
                   after: map<string, View>)
    requires k < |candidates| && candidates[k] in views
    requires StartsAfter(candidates, k, views0, views) && OnlyOf(candidates[k], views, after)
    ensures StartsAfter(candidates, k + 1, views0, after)
  {
    assert candidates[..k + 1] == candidates[..k] + [candidates[k]];
    forall x | x in views0
      ensures x in after && after[x].original == views0[x].original
      ensures x !in candidates[..k + 1] ==> after[x] == views0[x]
    {
      assert x in views;
    }
  }

  /** Updates of other records make no difference. */
  lemma OtherWrites(x: string, before: View, after: View, a: seq<RecordWrite>, b: seq<RecordWrite>, onlyUpdatesRaise: bool)
    requires forall w :: w in b ==> w.x != x
    ensures StartEnds(x, before, after, a + b, onlyUpdatesRaise) <==> StartEnds(x, before, after, a, onlyUpdatesRaise)
    ensures StartEnds(x, before, after, b + a, onlyUpdatesRaise) <==> StartEnds(x, before, after, a, onlyUpdatesRaise)
  {
    NoneWrittenIff(b, x);
    LastOfTwo(a, b, x);
    LastOfTwo(b, a, x);
    assert Asked(a, x) ==> Asked(a + b, x) && Asked(b + a, x) by {
      if Asked(a, x) {
        var w :| w in a && w.x == x;
        assert w in a + b && w in b + a;
      }
    }
  }

  lemma EndsStep(candidates: seq<string>, k: nat, views0: map<string, View>, views: map<string, View>,
                 after: map<string, View>,
                 writes: seq<RecordWrite>, more: seq<RecordWrite>, onlyUpdatesRaise: bool)
    requires k < |candidates| && Distinct(candidates) && candidates[k] in views && OnlyOf(candidates[k], views, after)
    requires StartsAfter(candidates, k, views0, views) && EndsAfter(candidates, k, views0, views, writes, onlyUpdatesRaise)
    requires forall w :: w in more ==> w.x == candidates[k]
    requires StartEnds(candidates[k], views[candidates[k]], after[candidates[k]], more, onlyUpdatesRaise)
    ensures EndsAfter(candidates, k + 1, views0, after, writes + more, onlyUpdatesRaise)
  {
    assert candidates[..k + 1] == candidates[..k] + [candidates[k]];
    assert candidates[k] !in candidates[..k];
    forall l | 0 <= l < k + 1
      ensures candidates[l] in views0 && candidates[l] in after
      ensures StartEnds(candidates[l], views0[candidates[l]], after[candidates[l]], writes + more, onlyUpdatesRaise)
    {
      var x := candidates[l];
      if l < k {
        assert x != candidates[k];
        OtherWrites(x, views0[x], after[x], writes, more, onlyUpdatesRaise);
      } else {
        OtherWrites(x, views0[x], after[x], more, writes, onlyUpdatesRaise);
      }
    }
  }

  lemma CallsStep(candidates: seq<string>, k: nat, calls0: seq<string>, calls: seq<string>, after: seq<string>)
    requires k < |candidates| && Distinct(candidates) && CallsAfter(candidates[..k], calls0, calls)
    requires after == calls || after == calls + [candidates[k]]
    ensures CallsAfter(candidates[..k + 1], calls0, after)
  {
    assert candidates[..k + 1] == candidates[..k] + [candidates[k]];
    assert candidates[k] !in candidates[..k];
    if after != calls {
      assert after[|calls0|..] == calls[|calls0|..] + [candidates[k]];
    }
  }

  /** The state after the first k threads. */
  ghost predicate Progress(candidates: seq<string>, k: nat, views0: map<string, View>, views: map<string, View>,
                           calls0: seq<string>, calls: seq<string>, writes: seq<RecordWrite>, onlyUpdatesRaise: bool)
    requires k <= |candidates|
  {
    && StartsAfter(candidates, k, views0, views) && EndsAfter(candidates, k, views0, views, writes, onlyUpdatesRaise)
    && CallsAfter(candidates[..k], calls0, calls)
  }

  ghost predicate AllWaiting(candidates: seq<string>, views: map<string, View>) {
    forall k :: 0 <= k < |candidates| ==> candidates[k] in views && views[candidates[k]].step == EVACUATED_STOPPED
  }

  /** start_server was called for the first k candidates. */
  ghost predicate AllStarted(candidates: seq<string>, k: nat, calls: seq<string>)
    requires k <= |candidates|
  {
    forall l :: 0 <= l < k ==> candidates[l] in calls
  }

  /**
   * The slots after some starts: those held before and not given back, and exactly those whose
   * acquire lost its answer or whose release was refused; every acquire that returned has its release.
   */
  ghost predicate SlotsAccount(candidates: seq<string>, before: Slots, after: Slots) {
    && before.log <= after.log
    && var calls := after.log[|before.log|..];
       && AllReleased(calls) && (forall c :: c in calls ==> c.x in candidates)
       && forall x :: x in after.held <==> (x in before.held && !GivenBack(calls, x)) || LeftBehind(calls, x)
  }

  ghost predicate AllFine(before: Slots, after: Slots) {
    before.log <= after.log && forall c :: c in after.log[|before.log|..] ==> c.reply.Fine?
  }

  lemma FineAppend(a: Slots, b: Slots, c: Slots)
    requires AllFine(a, b) && AllFine(b, c)
    ensures AllFine(a, c)
  {
    assert c.log[|a.log|..] == b.log[|a.log|..] + c.log[|b.log|..];
  }

  lemma OneCall(x: string, before: Slots, reply: Reply)
    requires !reply.Fine?
    ensures SlotsAccount([x], before, AfterCall(before, Acquired(x, reply)))
  {
    assert AfterCall(before, Acquired(x, reply)).log[|before.log|..] == [Acquired(x, reply)];
  }

  lemma TwoCalls(x: string, before: Slots, reply: Reply)
    ensures SlotsAccount([x], before, AcquiredAndReleased(x, before, reply))
  {
    assert AcquiredAndReleased(x, before, reply).log[|before.log|..] == [Acquired(x, Fine), Released(x, reply)];
  }

  lemma TraceSlots(x: string, before: Slots, after: Slots)
    requires SlotTrace(x, before, after)
    ensures SlotsAccount([x], before, after)
  {
    if after == before {
      assert after.log[|before.log|..] == [];
    } else if |after.log| == |before.log| + 1 {
      OneCall(x, before, if after == AfterCall(before, Acquired(x, Refused)) then Refused else Lost);
    } else {
      TwoCalls(x, before, after.log[|before.log| + 1].reply);
    }
  }

  lemma FineTrace(x: string, placed: bool, before: Slots, after: Slots)
    requires after == if placed then AcquiredAndReleased(x, before, Fine) else before
    ensures AllFine(before, after)
  {
    assert after.log[|before.log|..] == if placed then [Acquired(x, Fine), Released(x, Fine)] else [];
  }

  /** Before any start. */
  lemma NothingCalled(calls: seq<string>, slots: Slots)
    ensures CallsAfter([], calls, calls) && SlotsAccount([], slots, slots) && AllFine(slots, slots)
  {
    assert calls[|calls|..] == [] && slots.log[|slots.log|..] == [];
  }

  lemma SlotsStep(candidates: seq<string>, k: nat, before: Slots, mid: Slots, after: Slots)
    requires k < |candidates| && Distinct(candidates)
    requires SlotsAccount(candidates[..k], before, mid) && SlotTrace(candidates[k], mid, after)
    ensures SlotsAccount(candidates[..k + 1], before, after)
  {
    TraceSlots(candidates[k], mid, after);
    assert candidates[..k + 1] == candidates[..k] + [candidates[k]];
    assert candidates[k] !in candidates[..k];
    SlotsAdd(candidates[..k], candidates[k], before, mid, after);
  }

  lemma SlotsAdd(some: seq<string>, x: string, before: Slots, mid: Slots, after: Slots)
    requires SlotsAccount(some, before, mid) && SlotsAccount([x], mid, after) && x !in some
    ensures SlotsAccount(some + [x], before, after)
  {
    var a, b := mid.log[|before.log|..], after.log[|mid.log|..];
    assert after.log[|before.log|..] == a + b;
    forall y ensures y == x ==> !GivenBack(a, y) && !LeftBehind(a, y)
    {
    }
    forall y ensures y != x ==> !GivenBack(b, y) && !LeftBehind(b, y)
    {
    }
  }

  /** The candidates were listed as they are. */
  ghost predicate ListedSo(candidates: seq<string>, listed: map<string, Record>, views: map<string, View>) {
    forall k :: 0 <= k < |candidates| ==>
                  candidates[k] in listed && candidates[k] in views && views[candidates[k]].dest == Destination(listed[candidates[k]])
  }

  ghost predicate CandidatesPlaced(candidates: seq<string>, views: map<string, View>) {
    forall k :: 0 <= k < |candidates| ==> candidates[k] in views && views[candidates[k]].dest.Some?
  }

  lemma ProgressStep(candidates: seq<string>, k: nat, views0: map<string, View>, views: map<string, View>,
                     viewsAfter: map<string, View>,
                     calls0: seq<string>, calls: seq<string>, callsAfter: seq<string>,
                     writes0: seq<RecordWrite>, writes: seq<RecordWrite>, writesAfter: seq<RecordWrite>, onlyUpdatesRaise: bool)
    requires k < |candidates| && Distinct(candidates) && writes0 <= writes <= writesAfter && candidates[k] in views
    requires Progress(candidates, k, views0, views, calls0, calls, writes[|writes0|..], onlyUpdatesRaise)
    requires OnlyOf(candidates[k], views, viewsAfter) && forall w :: w in writesAfter[|writes|..] ==> w.x == candidates[k]
    requires StartEnds(candidates[k], views[candidates[k]], viewsAfter[candidates[k]], writesAfter[|writes|..], onlyUpdatesRaise)
    requires callsAfter == calls || callsAfter == calls + [candidates[k]]
    ensures Progress(candidates, k + 1, views0, viewsAfter, calls0, callsAfter, writesAfter[|writes0|..], onlyUpdatesRaise)
  {
    assert writesAfter[|writes0|..] == writes[|writes0|..] + writesAfter[|writes|..];
    StartsStep(candidates, k, views0, views, viewsAfter);
    EndsStep(candidates, k, views0, views, viewsAfter, writes[|writes0|..], writesAfter[|writes|..], onlyUpdatesRaise);
    CallsStep(candidates, k, calls0, calls, callsAfter);
  }

  /** The first k candidates are ACTIVE exactly if Nova started them and showed them active in time. */
  ghost predicate AllAnswered(e: Engine, candidates: seq<string>, k: nat, calls0: seq<string>, calls: seq<string>,
                              at: map<string, nat>, views: map<string, View>)
    requires k <= |candidates|
  {
    && calls0 <= calls
    && forall l :: 0 <= l < k ==> candidates[l] in views
                                  && (views[candidates[l]].step == ACTIVE <==>
                                        candidates[l] in calls[|calls0|..] && Activated(e, candidates[l], at))
  }

  lemma AnsweredStep(e: Engine, candidates: seq<string>, k: nat, calls0: seq<string>, calls: seq<string>, callsAfter: seq<string>,
                     at: map<string, nat>, atAfter: map<string, nat>, views: map<string, View>, after: map<string, View>)
    requires k < |candidates| && Distinct(candidates) && AllAnswered(e, candidates, k, calls0, calls, at, views)
    requires OnlyOf(candidates[k], views, after) && OnlyAt(candidates[k], at, atAfter) && candidates[k] in after
    requires callsAfter == calls || callsAfter == calls + [candidates[k]]
    requires forall x :: x in calls[|calls0|..] ==> x in candidates[..k] && x in at
    requires after[candidates[k]].step == ACTIVE <==> callsAfter != calls && Activated(e, candidates[k], atAfter)
    ensures AllAnswered(e, candidates, k + 1, calls0, callsAfter, atAfter, after)
  {
    var was, more := calls[|calls0|..], callsAfter[|calls0|..];
    assert more == was || more == was + [candidates[k]];
    assert candidates[k] !in candidates[..k];
    forall l | 0 <= l < k + 1
      ensures candidates[l] in after && (after[candidates[l]].step == ACTIVE <==> candidates[l] in more && Activated(e, candidates[l], atAfter))
    {
      if l < k {
        assert candidates[l] != candidates[k] && candidates[l] in views;
        assert candidates[l] in was ==> candidates[l] in at && atAfter[candidates[l]] == at[candidates[l]];
      }
    }
  }

  /** Slots were asked for on the hosts that the records name. */
  ghost predicate AskedFor(candidates: seq<string>, k: nat, views: map<string, View>, before: map<string, Value>, after: map<string, Value>)
    requires k <= |candidates|
  {
    forall x :: x in after ==>
                  (x in before && after[x] == before[x])
                  || (x in candidates[..k] && x in views && views[x].dest == Some(after[x]))
  }

  /** The state after the first k threads. */
  ghost predicate RunSoFar(e: Engine, candidates: seq<string>, k: nat, a: Moves, b: Moves)
    requires k <= |candidates|
  {
    && Replies(e, a.writes, b.writes)
    && Progress(candidates, k, a.views, b.views, a.started, b.started, b.writes[|a.writes|..], e.OnlyUpdatesRaise())
    && (AllPlaced(a.views) ==> AllPlaced(b.views))
    && (forall x :: x in b.started[|a.started|..] ==> x in b.at)
    && (e.StoreUp() ==> AllAnswered(e, candidates, k, a.started, b.started, b.at, b.views))
    && AskedFor(candidates, k, a.views, a.asked, b.asked)
    && (e.OnlyUpdatesRaise() && CandidatesPlaced(candidates, a.views) ==> AllStarted(candidates, k, b.started))
  }

  /** One more thread. */
  lemma RunStep(e: Engine, candidates: seq<string>, k: nat, dest: Option<Value>, a: Moves, m: Moves, b: Moves)
    requires k < |candidates| && Distinct(candidates) && AllWaiting(candidates, a.views) && a.views[candidates[k]].dest == dest
    requires RunSoFar(e, candidates, k, a, m) && Ended(e, candidates[k], dest, m, b)
    ensures RunSoFar(e, candidates, k + 1, a, b)
  {
    var x := candidates[k];
    RepliesMore(e, a.writes, m.writes, b.writes);
    ProgressStep(candidates, k, a.views, m.views, b.views, a.started, m.started, b.started, a.writes, m.writes, b.writes, e.OnlyUpdatesRaise());
    StartedKnown(x, a, m, b);
    InFirst(candidates, k, a, m);
    if e.StoreUp() { AnsweredStep(e, candidates, k, a.started, m.started, b.started, m.at, b.at, m.views, b.views); }
    AskedStep(candidates, k, a.views, a.asked, m.asked, b.asked, dest);
  }

  lemma StartedKnown(x: string, a: Moves, m: Moves, b: Moves)
    requires a.started <= m.started && OnlyStart(x, m, b)
    requires forall y :: y in m.started[|a.started|..] ==> y in m.at
    ensures forall y :: y in b.started[|a.started|..] ==> y in b.at
  {
    if b.started != m.started { assert b.started[|a.started|..] == m.started[|a.started|..] + [x]; }
  }

  lemma InFirst(candidates: seq<string>, k: nat, a: Moves, m: Moves)
    requires k <= |candidates| && CallsAfter(candidates[..k], a.started, m.started)
    ensures forall x :: x in m.started[|a.started|..] ==> x in candidates[..k]
  {
  }

  lemma AskedStep(candidates: seq<string>, k: nat, views: map<string, View>, before: map<string, Value>, middle: map<string, Value>,
                  after: map<string, Value>, dest: Option<Value>)
    requires k < |candidates| && AskedFor(candidates, k, views, before, middle)
    requires candidates[k] in views && views[candidates[k]].dest == dest
    requires after == middle || (dest.Some? && after == middle[candidates[k] := dest.value])
    ensures AskedFor(candidates, k + 1, views, before, after)
  {
    assert candidates[..k + 1] == candidates[..k] + [candidates[k]];
  }

  lemma NothingRun(e: Engine, candidates: seq<string>, a: Moves)
    ensures RunSoFar(e, candidates, 0, a, a)
  {
    NothingCalled(a.started, a.slots);
    assert candidates[..0] == [] && a.writes[|a.writes|..] == [] && a.started[|a.started|..] == [];
  }

  /** The threads of the pool, each with the record as it was listed. */
  method RunStarts(e: Engine, candidates: seq<string>, listed: map<string, Record>)
    requires Distinct(candidates) && AllWaiting(candidates, e.Views()) && ListedSo(candidates, listed, e.Views())
    modifies e`calls, e`records, e`started, e`startedAt, e`slots, e`asked, e`writes
    ensures RunSoFar(e, candidates, |candidates|, old(Moved(e)), Moved(e))
    ensures SlotsAccount(candidates, old(e.slots), e.slots)
    ensures e.OnlyUpdatesRaise() ==> AllFine(old(e.slots), e.slots)
  {
    ghost var a := Moved(e);
    NothingCalled(e.started, e.slots);
    NothingRun(e, candidates, a);
    assert candidates[..0] == [];
    for k := 0 to |candidates|
      invariant SlotsAccount(candidates[..k], a.slots, e.slots) && (e.OnlyUpdatesRaise() ==> AllFine(a.slots, e.slots))
      invariant RunSoFar(e, candidates, k, a, Moved(e))
    {
      ghost var m := Moved(e);
      assert candidates[k] !in candidates[..k];
      var dest := Destination(listed[candidates[k]]);
      var recorded := StartOne(e, candidates[k], dest);
      if e.OnlyUpdatesRaise() {
        FineTrace(candidates[k], dest.Some?, m.slots, e.slots);
        FineAppend(a.slots, m.slots, e.slots);
      }
      SlotsStep(candidates, k, a.slots, m.slots, e.slots);
      RunStep(e, candidates, k, dest, a, m, Moved(e));
    }
    assert candidates[..|candidates|] == candidates;
  }

  // ---------------------------------------------------------------- the account

  /** Some instance of the notification ran originally and is FAILED. */
  ghost predicate OriginalFailed(views: map<string, View>) {
    exists x :: x in views && OriginallyActive(views[x]) && views[x].step == FAILED
  }

  /** Where every record of the notification ends, given the updates of the task. */
  ghost predicate Accounted(config: Config, before: map<string, View>, after: map<string, View>,
                            writes: seq<RecordWrite>, onlyUpdatesRaise: bool) {
    && after.Keys == before.Keys
    && forall x :: x in before ==>
         && after[x].original == before[x].original
         && if before[x].step != EVACUATED_STOPPED then after[x] == before[x]
            else if !Wanted(config, before[x]) then after[x].step == IGNORED
            else StartEnds(x, before[x], after[x], writes, onlyUpdatesRaise)
  }

  lemma Accounting(config: Config, order: seq<string>, candidates: seq<string>, writes: seq<RecordWrite>,
                   onlyUpdatesRaise: bool,
                   before: map<string, View>, chosen: map<string, View>, after: map<string, View>)
    requires forall x :: x in before <==> x in order
    requires ChosenUpTo(config, order, |order|, before, chosen) && CandidatesUpTo(config, order, |order|, before, candidates)
    requires StartsAfter(candidates, |candidates|, chosen, after)
    requires EndsAfter(candidates, |candidates|, chosen, after, writes, onlyUpdatesRaise)
    ensures Accounted(config, before, after, writes, onlyUpdatesRaise)
  {
    assert order[..|order|] == order && candidates[..|candidates|] == candidates;
    forall x | x in before
      ensures after[x].original == before[x].original
      ensures if before[x].step != EVACUATED_STOPPED then after[x] == before[x]
              else if !Wanted(config, before[x]) then after[x].step == IGNORED
              else StartEnds(x, before[x], after[x], writes, onlyUpdatesRaise)
    {
      assert chosen[x] == Chosen(config, before[x]);
      if Candidate(config, before[x]) {
        var l :| 0 <= l < |candidates| && candidates[l] == x;
      }
    }
  }

  /** The updates made before the threads do not matter to the candidates. */
  lemma AccountedFromBegin(config: Config, before: map<string, View>, after: map<string, View>,
                           writes0: seq<RecordWrite>, writes: seq<RecordWrite>, later: seq<RecordWrite>, onlyUpdatesRaise: bool)
    requires ForOthers(config, before, writes0, writes) && writes <= later
    requires Accounted(config, before, after, later[|writes|..], onlyUpdatesRaise)
    ensures Accounted(config, before, after, later[|writes0|..], onlyUpdatesRaise)
  {
    assert later[|writes0|..] == writes[|writes0|..] + later[|writes|..];
    forall x | x in before && Candidate(config, before[x])
      ensures StartEnds(x, before[x], after[x], later[|writes0|..], onlyUpdatesRaise)
    {
      OtherWrites(x, before[x], after[x], later[|writes|..], writes[|writes0|..], onlyUpdatesRaise);
    }
  }

  /**
   * When a start stays without a final step: a candidate ends neither ACTIVE nor FAILED if and only
   * if it had no destination or every update of its record in the task was refused.  Otherwise its
   * step is that of the last update that took effect.
   */
  lemma UnfinishedIff(config: Config, before: map<string, View>, after: map<string, View>,
                      writes: seq<RecordWrite>, onlyUpdatesRaise: bool, x: string)
    requires Accounted(config, before, after, writes, onlyUpdatesRaise) && x in before && Candidate(config, before[x])
    ensures !IsFinal(after[x].step) <==> !before[x].dest.Some? || AllRefused(writes, x)
    ensures IsFinal(after[x].step) ==> LastWritten(writes, x) == Some(after[x].step)
    ensures !IsFinal(after[x].step) && before[x].dest.Some? && onlyUpdatesRaise ==> after[x].step == STARTING
  {
    NoneWrittenIff(writes, x);
  }

  /** What execute does before the threads. */
  method Begin(e: Engine)
    returns (r: Result<()>, candidates: seq<string>, listed: map<string, Record>, ghost order: seq<string>)
    modifies e`calls, e`records, e`writes
    ensures AllPlaced(old(e.Views())) ==> AllPlaced(e.Views())
    ensures r.Err? ==> candidates == [] && !r.error.FailedStarts? && !r.error.FailedMoves?
    ensures !e.config.enabled ==> r == Err(Disabled)
    ensures e.config.enabled && e.OnlyUpdatesRaise() && (e.StoreUp() || NoneIgnored(e.config, old(e.Views()))) ==> r.Ok?
    ensures r.Ok? ==> forall x :: x in old(e.Views()) <==> x in order
    ensures r.Ok? ==> ChosenUpTo(e.config, order, |order|, old(e.Views()), e.Views())
    ensures r.Ok? ==> CandidatesUpTo(e.config, order, |order|, old(e.Views()), candidates) && listed == old(e.records)
    ensures ForOthers(e.config, old(e.Views()), old(e.writes), e.writes)
  {
    assert e.writes[|e.writes|..] == [];
    candidates, listed, order := [], e.records, [];
    if !e.config.enabled { return Err(Disabled), candidates, listed, order; }
    var available := e.Call();
    if !available.Fine? { return Err(Raised), candidates, listed, order; }
    var names := e.ListInstances();
    if names.Err? { return Err(Raised), candidates, listed, order; }
    order := names.value;
    r, candidates := Choose(e, names.value);
    if r.Err? { candidates := []; }
  }

  /** What it does after them. */
  method Verdict(e: Engine) returns (r: Result<()>)
    modifies e`calls
    ensures r.Ok? ==> !OriginalFailed(e.Views())
    ensures r.Err? ==> r.error.Raised? || (r.error.FailedStarts? && OriginalFailed(e.Views()))
    ensures e.ReadsUp() ==> r != Err(Raised)
  {
    var listed := e.ListInstances();
    if listed.Err? { return Err(Raised); }
    if x :| x in e.records && Lookup(e.records[x], "original_vm_state") == Text("active") && Lookup(e.records[x], "step") == FAILED {
      assert OriginallyActive(e.Views()[x]) && e.Views()[x].step == FAILED;
      return Err(FailedStarts);
    }
    assert forall x :: x in e.Views() ==> e.Views()[x] == ViewOf(e.records[x]);
    r := Ok(());
  }

  /** The choice leaves the candidates as they were listed. */
  lemma CandidatesWait(config: Config, order: seq<string>, candidates: seq<string>, listed: map<string, Record>,
                       before: map<string, View>, chosen: map<string, View>)
    requires before == (map x | x in listed :: ViewOf(listed[x]))
    requires ChosenUpTo(config, order, |order|, before, chosen) && CandidatesUpTo(config, order, |order|, before, candidates)
    ensures AllWaiting(candidates, chosen) && ListedSo(candidates, listed, chosen)
    ensures AllPlaced(before) ==> CandidatesPlaced(candidates, chosen)
  {
    forall k | 0 <= k < |candidates|
      ensures candidates[k] in listed && candidates[k] in before && chosen[candidates[k]] == before[candidates[k]]
      ensures before[candidates[k]] == ViewOf(listed[candidates[k]]) && Candidate(config, before[candidates[k]])
    {
      assert candidates[k] in candidates;
      assert chosen[candidates[k]] == Chosen(config, before[candidates[k]]);
    }
  }

  /** The updates of the task so far. */
  function NewWrites(before: seq<RecordWrite>, after: seq<RecordWrite>): seq<RecordWrite>
    requires before <= after
  {
    after[|before|..]
  }

  /** The threads, and the account of them: before is what the task found. */
  method StartListed(e: Engine, candidates: seq<string>, listed: map<string, Record>, ghost order: seq<string>,
                     ghost before: map<string, View>, ghost writes0: seq<RecordWrite>)
    requires before == (map x | x in listed :: ViewOf(listed[x])) && forall x :: x in before <==> x in order
    requires ChosenUpTo(e.config, order, |order|, before, e.Views())
    requires CandidatesUpTo(e.config, order, |order|, before, candidates) && ForOthers(e.config, before, writes0, e.writes)
    modifies e`calls, e`records, e`started, e`startedAt, e`slots, e`asked, e`writes
    ensures AllPlaced(old(e.Views())) ==> AllPlaced(e.Views())
    ensures SlotsAccount(candidates, old(e.slots), e.slots) && (e.OnlyUpdatesRaise() ==> AllFine(old(e.slots), e.slots))
    ensures CallsAfter(candidates, old(e.started), e.started) && writes0 <= e.writes
    ensures Accounted(e.config, before, e.Views(), e.writes[|writes0|..], e.OnlyUpdatesRaise())
    ensures StartReplies(e, candidates, e.writes[|writes0|..])
    ensures e.OnlyUpdatesRaise() && AllPlaced(before) ==> AllStarted(candidates, |candidates|, e.started)
    ensures e.StoreUp() ==> AllAnswered(e, candidates, |candidates|, old(e.started), e.started, e.startedAt, e.Views())
    ensures AskedFor(candidates, |candidates|, before, old(e.asked), e.asked)
  {
    ghost var chosen, writes, a := e.Views(), e.writes, Moved(e);
    CandidatesWait(e.config, order, candidates, listed, before, chosen);
    RunStarts(e, candidates, listed);
    assert candidates[..|candidates|] == candidates && order[..|order|] == order;
    Accounting(e.config, order, candidates, e.writes[|writes|..], e.OnlyUpdatesRaise(), before, chosen, e.Views());
    AccountedFromBegin(e.config, before, e.Views(), writes0, writes, e.writes, e.OnlyUpdatesRaise());
    RepliesFromBegin(e, before, candidates, writes0, writes, e.writes);
  }

  /** What the listing and the threads leave when the task gets to its verdict. */
  method StartAll(e: Engine) returns (r: Result<()>, ghost candidates: seq<string>)
    modifies e`calls, e`records, e`started, e`startedAt, e`slots, e`asked, e`writes
    ensures AllPlaced(old(e.Views())) ==> AllPlaced(e.Views())
    ensures SlotsAccount(candidates, old(e.slots), e.slots) && (e.OnlyUpdatesRaise() ==> AllFine(old(e.slots), e.slots))
    ensures CallsAfter(candidates, old(e.started), e.started) && old(e.writes) <= e.writes
    ensures forall x :: x in candidates ==> x in old(e.Views()) && Candidate(e.config, old(e.Views())[x])
    ensures r.Ok? ==>
              Accounted(e.config, old(e.Views()), e.Views(), NewWrites(old(e.writes), e.writes), e.OnlyUpdatesRaise())
    ensures r.Ok? ==> forall x :: x in old(e.Views()) && Candidate(e.config, old(e.Views())[x]) ==> x in candidates
    ensures r.Ok? ==> StartReplies(e, candidates, NewWrites(old(e.writes), e.writes))
    ensures r.Err? ==> candidates == [] && !r.error.FailedStarts? && !r.error.FailedMoves?
    ensures !e.config.enabled ==> r == Err(Disabled)
    ensures e.config.enabled && e.OnlyUpdatesRaise() && (e.StoreUp() || NoneIgnored(e.config, old(e.Views()))) ==> r.Ok?
    ensures r.Ok? && e.OnlyUpdatesRaise() && AllPlaced(old(e.Views())) ==> AllStarted(candidates, |candidates|, e.started)
    ensures e.StoreUp() ==> AllAnswered(e, candidates, |candidates|, old(e.started), e.started, e.startedAt, e.Views())
    ensures AskedFor(candidates, |candidates|, old(e.Views()), old(e.asked), e.asked)
  {
    var list, listed;
    ghost var order;
    ghost var before, writes0 := e.Views(), e.writes;
    r, list, listed, order := Begin(e);
    candidates := list;
    if r.Err? {
      NothingCalled(e.started, e.slots);
      return;
    }
    assert order[..|order|] == order;
    StartListed(e, list, listed, order, before, writes0);
  }

  /** How the updates of the candidates end when the store is up, or refuses every update. */
  ghost predicate StartReplies(e: Engine, candidates: seq<string>, writes: seq<RecordWrite>) {
    && (e.StoreUp() ==> forall w :: w in writes && w.x in candidates ==> w.reply.Fine?)
    && (e.UpdatesRefused() ==> forall w :: w in writes && w.x in candidates ==> w.reply.Refused?)
  }

  lemma RepliesFromBegin(e: Engine, before: map<string, View>, candidates: seq<string>,
                         writes0: seq<RecordWrite>, writes: seq<RecordWrite>, later: seq<RecordWrite>)
    requires ForOthers(e.config, before, writes0, writes) && Replies(e, writes, later)
    requires forall x :: x in candidates ==> x in before && Candidate(e.config, before[x])
    ensures StartReplies(e, candidates, later[|writes0|..])
  {
    assert later[|writes0|..] == writes[|writes0|..] + later[|writes|..];
  }

  /** An originally active candidate is ACTIVE if the task returns, unless none of its updates took effect. */
  lemma ActiveUnlessRefused(config: Config, before: map<string, View>, after: map<string, View>,
                            writes: seq<RecordWrite>, onlyUpdatesRaise: bool, x: string)
    requires Accounted(config, before, after, writes, onlyUpdatesRaise) && !OriginalFailed(after)
    requires x in before && Candidate(config, before[x]) && OriginallyActive(before[x])
    ensures x in after && (after[x].step == ACTIVE <==> before[x].dest.Some? && !AllRefused(writes, x))
  {
    UnfinishedIff(config, before, after, writes, onlyUpdatesRaise, x);
    assert OriginallyActive(after[x]);
  }

  /** Every candidate ends ACTIVE or FAILED. */
  ghost predicate AllFinal(candidates: seq<string>, views: map<string, View>) {
    forall x :: x in candidates ==> x in views && IsFinal(views[x].step)
  }

  lemma FinalWhenStoreUp(config: Config, before: map<string, View>, after: map<string, View>, writes: seq<RecordWrite>,
                         onlyUpdatesRaise: bool, candidates: seq<string>)
    requires Accounted(config, before, after, writes, onlyUpdatesRaise) && AllPlaced(before)
    requires forall x :: x in candidates ==> x in before && Candidate(config, before[x])
    requires forall w :: w in writes && w.x in candidates ==> w.reply.Fine?
    ensures AllFinal(candidates, after)
  {
    forall x | x in candidates ensures x in after && IsFinal(after[x].step) {
      UnfinishedIff(config, before, after, writes, onlyUpdatesRaise, x);
      var w :| w in writes && w.x == x;
    }
  }

  /**
   * execute.  Every instance listed as EVACUATED_STOPPED ends IGNORED, or where the updates of its
   * start leave it (see UnfinishedIff); all other records stay.  start_server is called for
   * candidates only, at most once each, and every slot taken was released.  The task raises
   * FailedStarts exactly when some originally active instance of the notification is FAILED at the
   * end.  When the store is up, every candidate ends ACTIVE or FAILED, and ACTIVE exactly if Nova
   * started it and the first deciding answer after that, in time, showed it active; when nothing
   * but updates of records raises, every candidate is started.
   */
  method Execute(e: Engine) returns (r: Result<()>, ghost candidates: seq<string>)
    modifies e`calls, e`records, e`started, e`startedAt, e`slots, e`asked, e`writes
    ensures AllPlaced(old(e.Views())) ==> AllPlaced(e.Views())
    ensures SlotsAccount(candidates, old(e.slots), e.slots) && (e.OnlyUpdatesRaise() ==> AllFine(old(e.slots), e.slots))
    ensures CallsAfter(candidates, old(e.started), e.started) && old(e.writes) <= e.writes
    ensures forall x :: x in candidates ==> x in old(e.Views()) && Candidate(e.config, old(e.Views())[x])
    ensures Decided(r) ==>
              && Accounted(e.config, old(e.Views()), e.Views(), NewWrites(old(e.writes), e.writes), e.OnlyUpdatesRaise())
              && (r.Err? <==> OriginalFailed(e.Views()))
              && (forall x :: x in old(e.Views()) && Candidate(e.config, old(e.Views())[x]) ==> x in candidates)
    ensures Decided(r) ==> StartReplies(e, candidates, NewWrites(old(e.writes), e.writes))
    ensures r.Ok? ==> OriginalsActive(old(e.Views()), e.Views(), NewWrites(old(e.writes), e.writes), candidates)
    ensures Decided(r) && e.StoreUp() && AllPlaced(old(e.Views())) ==> AllFinal(candidates, e.Views())
    ensures e.StoreUp() ==> AllAnswered(e, candidates, |candidates|, old(e.started), e.started, e.startedAt, e.Views())
    ensures AskedFor(candidates, |candidates|, old(e.Views()), old(e.asked), e.asked)
    ensures e.config.enabled && e.OnlyUpdatesRaise() && (e.StoreUp() || NoneIgnored(e.config, old(e.Views()))) ==>
              Decided(r) && (AllPlaced(old(e.Views())) ==> AllStarted(candidates, |candidates|, e.started))
    ensures !e.config.enabled ==> r == Err(Disabled)
  {
    ghost var before, writes0 := e.Views(), e.writes;
    r, candidates := StartAll(e);
    if r.Err? { return; }
    r := Verdict(e);
    ghost var writes := NewWrites(writes0, e.writes);
    if e.StoreUp() && AllPlaced(before) {
      FinalWhenStoreUp(e.config, before, e.Views(), writes, e.OnlyUpdatesRaise(), candidates);
    }
    if r.Ok? { ActiveOriginals(e.config, before, e.Views(), writes, e.OnlyUpdatesRaise(), candidates); }
  }

  /** So for all of them. */
  lemma ActiveOriginals(config: Config, before: map<string, View>, after: map<string, View>, writes: seq<RecordWrite>,
                        onlyUpdatesRaise: bool, candidates: seq<string>)
    requires Accounted(config, before, after, writes, onlyUpdatesRaise) && !OriginalFailed(after)
    requires forall x :: x in candidates ==> x in before && Candidate(config, before[x])
    ensures OriginalsActive(before, after, writes, candidates)
  {
    forall x | x in candidates && OriginallyActive(before[x])
      ensures x in after && (after[x].step == ACTIVE <==> before[x].dest.Some? && !AllRefused(writes, x))
    {
      ActiveUnlessRefused(config, before, after, writes, onlyUpdatesRaise, x);
    }
  }

  /** The originally active candidates are ACTIVE, but for those without destination or with refused updates only. */
  ghost predicate OriginalsActive(before: map<string, View>, after: map<string, View>, writes: seq<RecordWrite>, candidates: seq<string>) {
    forall x :: x in candidates && x in before && OriginallyActive(before[x]) ==>
                  x in after && (after[x].step == ACTIVE <==> before[x].dest.Some? && !AllRefused(writes, x))
  }

  /** The task got to its verdict. */
  predicate Decided(r: Result<()>) {
    r.Ok? || r.error.FailedStarts?
  }

  // ---------------------------------------------------------------- a start that is never recorded

  /** vm-1 was active originally and waits for its start. */
  const ONE_VIEW: map<string, View> := map["vm-1" := View(EVACUATED_STOPPED, Text("active"), Text("stopped"), Some(Text("host-b")))]

  const ACTIVE_ON_B: Server := Server(Some("host-b"), Text("active"), Null, Null, false)

  /**
   * So a normal return does not mean that the instances are recorded as started.  Here every update
   * of a record is refused and no other call raises: vm-1 is started, and active, and the task
   * returns, but its record ends, and stays, at STARTING.
   */
  method RefusedUpdateHides(config: Config) returns (e: Engine, returned: bool, ghost records: map<string, View>)
    requires config.enabled
    ensures e.config == config && e.OnlyUpdatesRaise() && e.UpdatesRefused() && records == ONE_VIEW
    ensures returned && "vm-1" in e.started && "vm-1" in e.Views() && e.Views()["vm-1"].step == STARTING
  {
    var vm1 := map["step" := EVACUATED_STOPPED, "original_vm_state" := Text("active"),
                   "current_vm_state" := Text("stopped"), "dest_host" := Text("host-b")];
    e := new Engine(config, "engine", "notification", k => World(Fine, Refused, Fine, Fine, ACTIVE_ON_B, 0), map["vm-1" := vm1], []);
    records := e.Views();
    assert ViewOf(vm1) == ONE_VIEW["vm-1"];
    assert records == ONE_VIEW && NoneIgnored(config, records) && Candidate(config, records["vm-1"]);
    ghost var writes0 := e.writes;
    var r;
    ghost var candidates;
    r, candidates := Execute(e);
    returned := r.Ok?;
    UnfinishedIff(config, records, e.Views(), NewWrites(writes0, e.writes), true, "vm-1");
    assert "vm-1" in candidates;
    assert AllRefused(NewWrites(writes0, e.writes), "vm-1");
    assert !OriginalFailed(e.Views());
  }
}
