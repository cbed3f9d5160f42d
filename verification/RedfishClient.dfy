/**
 * The Redfish client that powers a failed host off: one fencing attempt, the wait for a stable
 * power state, and the retry loop around attempts.
 *
 * The BMC is arbitrary: request number k is answered by answer(k) after latency(k) time units.
 * Every request is logged in a ghost trace, so promises are about what was sent and read.
 */
module RedfishClient {
  import opened Wrappers

  /** A ComputerSystem payload, as far as the client looks at it. */
  datatype System = System(
    properties: map<string, string>,
    powerState: Option<string>,
    allowedResets: Option<set<string>>,
    resetTarget: Option<string>)

  datatype Answer =
    | Response(system: System, token: bool, location: bool)
    | RequestException                 // requests.exceptions.RequestException
    | OtherException                   // anything else that leaves the HTTP layer

  datatype AuthType = SessionAuth | BasicAuth | UnknownAuth

  /** expected holds the identity guards that are configured, by their Redfish property. */
  datatype Config = Config(
    expected: map<string, string>,
    auth: AuthType,
    systemsUri: string,
    resetType: string,
    expectedPower: string,
    powerOffTimeout: nat,
    pollInterval: nat,
    requiredReads: nat,
    maxAttempts: nat,
    retryInterval: nat)

  /** The minimum values of the option definitions. */
  predicate OptionsInRange(c: Config) {
    c.pollInterval >= 1 && c.requiredReads >= 1
  }

  const IDENTITY: seq<string> := ["UUID", "SerialNumber", "AssetTag", "Manufacturer", "Model"]

  datatype Error =
    | IdentityMismatch | ResetNotAllowed | AuthFailed | TimedOut | AttemptsExhausted    // Masakari exceptions
    | RequestFailed
    | Unexpected

  datatype Result<T> = Ok(value: T) | Err(error: Error)

  datatype Proof = Proof(systemsUri: string, verifiedPowerState: string, powerStateReads: nat, resetTarget: string,
                         resetType: string)

  datatype Event =
    | AttemptStarts
    | Request(answer: Answer)                   // a request of no further interest, or one that failed
    | Read(system: System)                      // the ComputerSystem payload was received
    | ResetPosted(target: string, resetType: string, answer: Answer)
    | AttemptFails(error: Error)

  // ---------------------------------------------------------------- specification

  predicate IdentityOk(c: Config, s: System) {
    forall k :: 0 <= k < |IDENTITY| ==> GuardOk(c, s, IDENTITY[k])
  }

  predicate GuardOk(c: Config, s: System, name: string) {
    name in c.expected ==> name in s.properties && s.properties[name] == c.expected[name]
  }

  predicate ResetAllowed(c: Config, s: System) {
    s.allowedResets.Some? ==> c.resetType in s.allowedResets.value
  }

  /** The advertised reset target, or the conventional one below the system's URI. */
  function ResetTarget(c: Config, s: System): string {
    if s.resetTarget.Some? && s.resetTarget.value != "" then s.resetTarget.value
    else WithoutTrailingSlashes(c.systemsUri) + "/Actions/ComputerSystem.Reset"
  }

  function WithoutTrailingSlashes(s: string): string
    decreases |s|
  {
    if s != "" && s[|s| - 1] == '/' then WithoutTrailingSlashes(s[..|s| - 1]) else s
  }

  predicate HasExpectedPower(c: Config, s: System) {
    s.powerState == Some(c.expectedPower)
  }

  /** How many of the last payloads in a row show the expected power state. */
  function Trailing(c: Config, payloads: seq<System>): (n: nat)
    ensures n <= |payloads|
    decreases |payloads|
  {
    if payloads == [] || !HasExpectedPower(c, payloads[|payloads| - 1]) then 0
    else Trailing(c, payloads[..|payloads| - 1]) + 1
  }

  /** No prefix of the payloads, the whole included, ends in enough expected readings. */
  ghost predicate NeverStable(c: Config, payloads: seq<System>) {
    forall j :: 0 <= j <= |payloads| ==> Trailing(c, payloads[..j]) < c.requiredReads
  }

  /** Stability is reached by the last payload and by none before. */
  ghost predicate FirstStable(c: Config, payloads: seq<System>) {
    && Trailing(c, payloads) == c.requiredReads && payloads != []
    && NeverStable(c, payloads[..|payloads| - 1])
  }

  ghost predicate AllIdentified(c: Config, payloads: seq<System>) {
    forall j :: 0 <= j < |payloads| ==> IdentityOk(c, payloads[j])
  }

  function AsReads(payloads: seq<System>): (events: seq<Event>)
    ensures |events| == |payloads| && forall j :: 0 <= j < |payloads| ==> events[j] == Read(payloads[j])
  {
    if payloads == [] then [] else AsReads(payloads[..|payloads| - 1]) + [Read(payloads[|payloads| - 1])]
  }

  /** Trailing means what it says: those payloads show the expected state. */
  lemma {:induction false} TrailingExpected(c: Config, payloads: seq<System>, j: nat)
    requires |payloads| - Trailing(c, payloads) <= j < |payloads|
    ensures HasExpectedPower(c, payloads[j])
    decreases |payloads|
  {
    if j < |payloads| - 1 {
      TrailingExpected(c, payloads[..|payloads| - 1], j);
    }
  }

  lemma NeverStableOn(c: Config, payloads: seq<System>, s: System)
    requires NeverStable(c, payloads) && Trailing(c, payloads + [s]) < c.requiredReads
    ensures NeverStable(c, payloads + [s])
  {
    forall j | 0 <= j <= |payloads + [s]| ensures Trailing(c, (payloads + [s])[..j]) < c.requiredReads {
      if j <= |payloads| {
        assert (payloads + [s])[..j] == payloads[..j];
      } else {
        assert (payloads + [s])[..j] == payloads + [s];
      }
    }
  }

  // ---------------------------------------------------------------- logs and answers

  /** The event says what the BMC answered. */
  predicate IsTrue(event: Event, a: Answer) {
    match event
    case Request(got) => got == a
    case Read(system) => a.Response? && a.system == system
    case ResetPosted(_, _, got) => got == a
    case _ => true
  }

  function ErrorOf(a: Answer): Error
    requires !a.Response?
  {
    if a.RequestException? then RequestFailed else Unexpected
  }

  predicate IsRequest(event: Event) {
    event.Request? || event.Read? || event.ResetPosted?
  }

  /** How many requests a log tells of. */
  function Sent(t: seq<Event>): nat
    decreases |t|
  {
    if t == [] then 0 else Sent(t[..|t| - 1]) + if IsRequest(t[|t| - 1]) then 1 else 0
  }

  lemma SentOne(t: seq<Event>, event: Event)
    ensures Sent(t + [event]) == Sent(t) + if IsRequest(event) then 1 else 0
  {
    assert (t + [event])[..|t|] == t;
  }

  /** Request by request the log says what was answered. */
  ghost predicate TrueLog(t: seq<Event>, answer: nat -> Answer) {
    forall i :: 0 <= i < |t| ==> TrueAt(t, i, answer)
  }

  ghost predicate TrueAt(t: seq<Event>, i: nat, answer: nat -> Answer)
    requires i < |t|
  {
    IsRequest(t[i]) ==> IsTrue(t[i], answer(Sent(t[..i])))
  }

  lemma TrueOne(t: seq<Event>, event: Event, answer: nat -> Answer)
    requires TrueLog(t, answer) && (IsRequest(event) ==> IsTrue(event, answer(Sent(t))))
    ensures TrueLog(t + [event], answer)
  {
    var u := t + [event];
    forall i | 0 <= i < |u| ensures TrueAt(u, i, answer) {
      assert u[..i] == t[..i];
      if i < |t| {
        assert TrueAt(t, i, answer);
      } else {
        assert t[..|t|] == t;
      }
    }
  }

  // ---------------------------------------------------------------- the row of readings

  /** Where the first payload is. */
  function FirstRead(t: seq<Event>): (n: nat)
    ensures n <= |t|
  {
    if t == [] || t[0].Read? then 0 else 1 + FirstRead(t[1..])
  }

  /** The wait of an attempt begins behind its first payload, or behind the reset that follows on it. */
  function RowStart(t: seq<Event>): (n: nat)
    ensures n <= |t|
  {
    var p := FirstRead(t);
    if p == |t| then p else if p + 1 < |t| && t[p + 1].ResetPosted? then p + 2 else p + 1
  }

  /** The identified payloads that a log begins with. */
  function Identified(c: Config, t: seq<Event>): seq<System> {
    if t == [] || !t[0].Read? || !IdentityOk(c, t[0].system) then [] else [t[0].system] + Identified(c, t[1..])
  }

  /** The identified payloads that the wait of an attempt read. */
  function Row(c: Config, t: seq<Event>): seq<System> {
    Identified(c, t[RowStart(t)..])
  }

  /** What the wait has not to go through: requests, one payload, and perhaps the reset. */
  predicate BeforeRow(t: seq<Event>) {
    && t != [] && (forall i :: 0 <= i < |t| - 2 ==> t[i].Request?)
    && ((t[|t| - 1].Read? && (|t| > 1 ==> t[|t| - 2].Request?))
        || (t[|t| - 1].ResetPosted? && |t| > 1 && t[|t| - 2].Read?))
  }

  lemma {:induction false} FirstReadAt(t: seq<Event>, p: nat)
    requires p <= |t| && (forall i :: 0 <= i < p ==> !t[i].Read?) && (p < |t| ==> t[p].Read?)
    ensures FirstRead(t) == p
    decreases p
  {
    if p > 0 { FirstReadAt(t[1..], p - 1); }
  }

  lemma {:induction false} IdentifiedPrefix(c: Config, payloads: seq<System>, tail: seq<Event>)
    requires AllIdentified(c, payloads) && Identified(c, tail) == []
    ensures Identified(c, AsReads(payloads) + tail) == payloads
    decreases |payloads|
  {
    if payloads == [] {
      assert AsReads(payloads) + tail == tail;
    } else {
      var t := AsReads(payloads) + tail;
      assert t[1..] == AsReads(payloads[1..]) + tail;
      IdentifiedPrefix(c, payloads[1..], tail);
    }
  }

  lemma RowStartsBehind(before: seq<Event>, rest: seq<Event>)
    requires BeforeRow(before) && (rest != [] ==> !rest[0].ResetPosted?)
    ensures RowStart(before + rest) == |before|
  {
    FirstReadAt(before + rest, if before[|before| - 1].Read? then |before| - 1 else |before| - 2);
  }

  lemma Regroup(a: seq<Event>, b: seq<Event>, c: seq<Event>)
    ensures a + b + c == a + (b + c) && (a + (b + c))[|a|..] == b + c
  {
  }

  /** Behind such a log the row is what was read. */
  lemma RowBehind(c: Config, before: seq<Event>, payloads: seq<System>, tail: seq<Event>)
    requires BeforeRow(before) && AllIdentified(c, payloads) && Identified(c, tail) == []
    requires tail != [] ==> !tail[0].ResetPosted?
    ensures Row(c, before + AsReads(payloads) + tail) == payloads
  {
    Regroup(before, AsReads(payloads), tail);
    RowStartsBehind(before, AsReads(payloads) + tail);
    IdentifiedPrefix(c, payloads, tail);
  }

  /** An attempt that ends before its wait has no row. */
  lemma NoRow(c: Config, t: seq<Event>)
    requires (forall i :: 0 <= i < |t| ==> t[i].Request?)
             || (t != [] && t[|t| - 1].Read? && forall i :: 0 <= i < |t| - 1 ==> t[i].Request?) || BeforeRow(t)
    ensures Row(c, t) == []
  {
    if forall i :: 0 <= i < |t| ==> t[i].Request? {
      FirstReadAt(t, |t|);
    } else {
      FirstReadAt(t, if t[|t| - 1].Read? then |t| - 1 else |t| - 2);
    }
    assert t[RowStart(t)..] == [];
  }

  // ---------------------------------------------------------------- the client

  class Client {
    const config: Config
    const answer: nat -> Answer
    const latency: nat -> nat
    var requests: nat
    var now: int
    var authenticated: bool
    var sessionOpen: bool
    ghost var trace: seq<Event>
    ghost var lastRequestAt: int
    ghost var waitStart: int              // when the last wait began

    /** The log tells of every request, and what was answered. */
    ghost predicate Valid()
      reads this
    {
      Sent(trace) == requests && TrueLog(trace, answer)
    }

    constructor (config: Config, answer: nat -> Answer, latency: nat -> nat, now: int)
      ensures Valid() && this.config == config && trace == [] && !authenticated && !sessionOpen && this.now == now
    {
      this.config, this.answer, this.latency := config, answer, latency;
      this.requests, this.now := 0, now;
      this.authenticated, this.sessionOpen := false, false;
      this.trace, this.lastRequestAt, this.waitStart := [], now, now;
    }

    /** One HTTP request; the log still has to tell of it. */
    method Send() returns (a: Answer)
      modifies `requests, `now, `lastRequestAt
      ensures now >= old(now) && lastRequestAt == old(now)
      ensures requests == old(requests) + 1 && a == answer(old(requests))
    {
      lastRequestAt := now;
      a := answer(requests);
      now := now + latency(requests);
      requests := requests + 1;
    }

    ghost method Log(event: Event)
      requires TrueLog(trace, answer) && Sent(trace) + (if IsRequest(event) then 1 else 0) == requests
      requires IsRequest(event) ==> IsTrue(event, answer(Sent(trace)))
      modifies `trace
      ensures Valid() && trace == old(trace) + [event]
    {
      SentOne(trace, event);
      TrueOne(trace, event, answer);
      trace := trace + [event];
    }

    /** An event that is no request. */
    ghost method Mark(event: Event)
      requires Valid() && !IsRequest(event)
      modifies `trace
      ensures Valid() && trace == old(trace) + [event]
    {
      Log(event);
    }

    method Sleep(d: nat)
      modifies `now
      ensures now >= old(now) + d
    {
      now := now + d;
    }

    /** validate_system_identity: every configured guard must match. */
    method ValidateSystemIdentity(s: System) returns (ok: bool)
      ensures ok <==> IdentityOk(config, s)
    {
      for k := 0 to |IDENTITY|
        invariant forall j :: 0 <= j < k ==> GuardOk(config, s, IDENTITY[j])
      {
        if IDENTITY[k] in config.expected {
          if IDENTITY[k] !in s.properties || s.properties[IDENTITY[k]] != config.expected[IDENTITY[k]] {
            assert !GuardOk(config, s, IDENTITY[k]);
            return false;
          }
        }
      }
      return true;
    }

    /** _read_system: a payload that was received is returned only if its identity is valid. */
    method ReadSystem() returns (r: Result<System>)
      requires Valid()
      modifies `requests, `now, `lastRequestAt, `trace
      ensures Valid() && now >= old(now) && lastRequestAt == old(now) && requests == old(requests) + 1
      ensures match answer(old(requests))
              case Response(system, _, _) =>
                && trace == old(trace) + [Read(system)]
                && r == (if IdentityOk(config, system) then Ok(system) else Err(IdentityMismatch))
              case RequestException => trace == old(trace) + [Request(RequestException)] && r == Err(RequestFailed)
              case OtherException => trace == old(trace) + [Request(OtherException)] && r == Err(Unexpected)
    {
      var a := Send();
      if !a.Response? {
        Log(Request(a));
        return Err(ErrorOf(a));
      }
      Log(Read(a.system));
      var ok := ValidateSystemIdentity(a.system);
      if !ok { return Err(IdentityMismatch); }
      return Ok(a.system);
    }

    /** _reset_action */
    function ResetAction(s: System): Result<string> {
      if !ResetAllowed(config, s) then Err(ResetNotAllowed) else Ok(ResetTarget(config, s))
    }

    /**
     * _authenticate: nothing of interest is sent, and it happens once.  It fails for a request that
     * failed, for an unknown way to authenticate, or for a session without a token; a session is
     * remembered if its location was returned.
     */
    method Authenticate() returns (r: Result<()>)
      requires Valid()
      modifies `requests, `now, `lastRequestAt, `trace, `authenticated, `sessionOpen
      ensures Valid() && now >= old(now) && old(trace) <= trace
      ensures forall j :: |old(trace)| <= j < |trace| ==> trace[j].Request?
      ensures r.Ok? <==> authenticated
      ensures old(authenticated) ==> r.Ok? && trace == old(trace) && sessionOpen == old(sessionOpen)
      ensures r.Err? ==> |old(trace)| < |trace| && Explained(config, trace, r.error)
      ensures r.Err? ==> r.error == AuthFailed || r.error == RequestFailed || r.error == Unexpected
      ensures !old(authenticated) && r.Ok? ==>
                || (config.auth.BasicAuth? && |trace| == |old(trace)| + 1 && sessionOpen == old(sessionOpen))
                || (config.auth.SessionAuth? && |trace| == |old(trace)| + 2
                    && trace[|trace| - 1].answer.Response? && trace[|trace| - 1].answer.token
                    && sessionOpen == trace[|trace| - 1].answer.location)
    {
      if authenticated { return Ok(()); }
      var a := Send();
      Log(Request(a));
      if !a.Response? { return Err(ErrorOf(a)); }
      match config.auth {
        case SessionAuth =>
          a := Send();
          Log(Request(a));
          if !a.Response? { return Err(ErrorOf(a)); }
          if !a.token { return Err(AuthFailed); }
          sessionOpen := a.location;
        case BasicAuth =>
        case UnknownAuth => return Err(AuthFailed);
      }
      authenticated := true;
      return Ok(());
    }

    /** close: afterwards no session is remembered, whatever the delete of an open one answered. */
    method Close()
      requires Valid()
      modifies `requests, `now, `lastRequestAt, `trace, `sessionOpen
      ensures Valid() && !sessionOpen && old(trace) <= trace
      ensures forall j :: |old(trace)| <= j < |trace| ==> trace[j].Request?
      ensures |trace| == |old(trace)| + if old(sessionOpen) then 1 else 0
    {
      if sessionOpen {
        var a := Send();
        Log(Request(a));
        sessionOpen := false;
      }
    }

    /** One reading of the wait loop, logged behind the payloads so far. */
    method Poll(payloads: seq<System>, ghost before: seq<Event>) returns (r: Result<System>)
      requires Valid() && trace == before + AsReads(payloads)
      modifies `requests, `now, `lastRequestAt, `trace
      ensures Valid() && now >= old(now) && lastRequestAt == old(now)
      ensures r.Ok? ==> trace == before + AsReads(payloads + [r.value]) && IdentityOk(config, r.value)
      ensures r.Err? ==> WaitBroken(config, before, payloads, trace, r.error)
    {
      r := ReadSystem();
      if r.Ok? {
        assert (payloads + [r.value])[..|payloads|] == payloads;
      }
    }

    /**
     * _wait_for_power_off.  A proof is returned at, and only at, the first payload that completes
     * requiredReads expected readings in a row, all with a valid identity, the last one asked for
     * before the deadline; a time-out means that no such point came up.  The loop ends because
     * either time passes or the row of expected readings grows: those do not sleep.
     */
    method WaitForPowerOff(target: string) returns (r: Result<Proof>, payloads: seq<System>)
      requires Valid() && OptionsInRange(config)
      modifies `requests, `now, `lastRequestAt, `trace, `waitStart
      ensures Valid() && now >= old(now) == waitStart
      ensures AllIdentified(config, payloads)
      ensures r.Ok? ==>
                && FirstStable(config, payloads) && trace == old(trace) + AsReads(payloads)
                && r.value == Proof(config.systemsUri, config.expectedPower, config.requiredReads, target, config.resetType)
                && lastRequestAt <= old(now) + config.powerOffTimeout
      ensures r.Err? ==> NeverStable(config, payloads)
      ensures r == Err(TimedOut) ==>
                payloads != [] && trace == old(trace) + AsReads(payloads) && now > old(now) + config.powerOffTimeout
      ensures r.Err? && r.error != TimedOut ==> WaitBroken(config, old(trace), payloads, trace, r.error)
    {
      waitStart := now;
      var deadline := now + config.powerOffTimeout;
      var stableReads := 0;
      payloads := [];
      while now <= deadline
        invariant Valid() && now >= old(now) == waitStart && trace == old(trace) + AsReads(payloads)
        invariant AllIdentified(config, payloads) && NeverStable(config, payloads)
        invariant stableReads == Trailing(config, payloads) && (now > deadline ==> payloads != [])
        decreases deadline - now, config.requiredReads - stableReads
      {
        var system := Poll(payloads, old(trace));
        if system.Err? { return Err(system.error), payloads; }
        OneMorePayload(config, payloads, system.value);
        payloads := payloads + [system.value];
        if HasExpectedPower(config, system.value) {
          stableReads := stableReads + 1;
          if stableReads >= config.requiredReads {
            var proof := Proof(config.systemsUri, config.expectedPower, stableReads, target, config.resetType);
            return Ok(proof), payloads;
          }
          Sleep(0);
        } else {
          stableReads := 0;
          Sleep(config.pollInterval);
        }
      }
      return Err(TimedOut), payloads;
    }

    /** The POST of the reset; its answer only decides whether an error is raised. */
    method PostForceoff(target: string) returns (r: Result<string>, ghost posted: Event)
      requires Valid()
      modifies `requests, `now, `lastRequestAt, `trace
      ensures Valid() && now >= old(now) && trace == old(trace) + [posted]
      ensures posted == ResetPosted(target, config.resetType, answer(old(requests)))
      ensures r == if posted.answer.Response? then Ok(target) else Err(ErrorOf(posted.answer))
    {
      var a := Send();
      posted := ResetPosted(target, config.resetType, a);
      Log(posted);
      if !a.Response? { return Err(ErrorOf(a)), posted; }
      return Ok(target), posted;
    }

    /** Authenticate, then read the system: nothing else is sent. */
    method LoginAndRead() returns (r: Result<System>, ghost log: seq<Event>)
      requires Valid()
      modifies `requests, `now, `lastRequestAt, `trace, `authenticated, `sessionOpen
      ensures Valid() && now >= old(now) && trace == old(trace) + log && LoggedIn(config, log, r)
    {
      var login := Authenticate();
      log := trace[|old(trace)|..];
      if login.Err? { return Err(login.error), log; }
      r := ReadSystem();
      log := log + [trace[|trace| - 1]];
    }

    /** The part of _fence_once before the wait: read, check, and reset if needed. */
    method SendReset() returns (r: Result<string>, ghost log: seq<Event>)
      requires Valid()
      modifies `requests, `now, `lastRequestAt, `trace, `authenticated, `sessionOpen
      ensures Valid() && now >= old(now) && trace == old(trace) + log && Prepared(config, log, r)
    {
      var system;
      system, log := LoginAndRead();
      PreparedByRead(config, log, system);
      if system.Err? { return Err(system.error), log; }
      r := ResetAction(system.value);
      if r.Ok? && !HasExpectedPower(config, system.value) {
        ghost var event;
        r, event := PostForceoff(r.value);
        PreparedByReset(config, log, system.value, event, r);
        log := log + [event];
      }
    }

    /**
     * _fence_once: at most one reset, sent right after a payload that identified the host and
     * allowed it.  It returns if and only if the row of its wait gets stable; it times out only
     * with a row that was read and when the time of the wait is over.
     */
    method FenceOnce() returns (r: Result<Proof>, ghost log: seq<Event>, payloads: seq<System>)
      requires Valid() && OptionsInRange(config)
      modifies `requests, `now, `lastRequestAt, `trace, `authenticated, `sessionOpen, `waitStart
      ensures Valid() && now >= old(now) && trace == old(trace) + log
      ensures Attempted(config, log, r, payloads)
      ensures r == Err(TimedOut) ==> now > waitStart + config.powerOffTimeout
    {
      var target;
      target, log := SendReset();
      if target.Err? {
        NoWait(config, log, target.error);
        return Err(target.error), log, [];
      }
      r, log, payloads := WaitAfter(target.value, old(trace), log);
    }

    /** The wait, behind what the attempt sent before it. */
    method WaitAfter(target: string, ghost start: seq<Event>, ghost sent: seq<Event>)
      returns (r: Result<Proof>, ghost log: seq<Event>, payloads: seq<System>)
      requires Valid() && OptionsInRange(config) && trace == start + sent && Prepared(config, sent, Ok(target))
      modifies `requests, `now, `lastRequestAt, `trace, `waitStart
      ensures Valid() && now >= old(now) && trace == start + log
      ensures Attempted(config, log, r, payloads)
      ensures r == Err(TimedOut) ==> now > waitStart + config.powerOffTimeout
    {
      ghost var before := trace;
      r, payloads := WaitForPowerOff(target);
      log := sent + trace[|before|..];
      if r.Ok? || r.error == TimedOut {
        WaitEnded(config, sent, before, payloads, trace, target, r);
      } else {
        WaitFailed(config, sent, before, payloads, trace, target, r.error);
      }
      Behind(start, sent, trace);
    }

    /** One attempt between the marks of its begin and of its failure. */
    method LoggedAttempt() returns (r: Result<Proof>, ghost one: seq<Event>, payloads: seq<System>)
      requires Valid() && OptionsInRange(config)
      modifies `requests, `now, `lastRequestAt, `trace, `authenticated, `sessionOpen, `waitStart
      ensures Valid() && trace == old(trace) + AfterAttempt([], one, r)
      ensures Attempted(config, one, r, payloads)
      ensures r == Err(TimedOut) ==> now > waitStart + config.powerOffTimeout
    {
      Mark(AttemptStarts);
      r, one, payloads := FenceOnce();
      if r.Err? { Mark(AttemptFails(r.error)); }
      AttemptMarked(old(trace), one, r);
    }

    /** One pass of the retry loop, logged behind the passes before it. */
    method Attempt(ghost before: seq<Event>, ghost past: seq<Event>, ghost n: nat)
      returns (r: Result<Proof>, ghost log: seq<Event>, payloads: seq<System>)
      requires Valid() && OptionsInRange(config) && trace == before + past && MayAttempt(config, past, n)
      modifies `requests, `now, `lastRequestAt, `trace, `authenticated, `sessionOpen, `waitStart
      ensures Valid() && trace == before + log && AttemptMade(config, log, n + 1, r, payloads)
      ensures r == Err(TimedOut) ==> now > waitStart + config.powerOffTimeout
    {
      ghost var one;
      r, one, payloads := LoggedAttempt();
      log := AfterAttempt(past, one, r);
      AttemptConcludes(config, past, one, n, r, payloads);
      AttemptJoins(before, past, one, r);
    }

    /**
     * fence_off.  At most max_attempts resets are sent, each right after a payload that identified
     * the host and allowed the reset; only request errors are retried; no attempt fails whose row of
     * readings got stable, so it returns if and only if that of its last attempt did; and a normal
     * return carries the proof of its last readings.
     */
    method FenceOff() returns (r: Result<Proof>, ghost log: seq<Event>, payloads: seq<System>)
      requires Valid() && OptionsInRange(config)
      modifies `requests, `now, `lastRequestAt, `trace, `authenticated, `sessionOpen, `waitStart
      ensures Valid() && trace == old(trace) + log
      ensures Fenced(config, log, r, payloads)
      ensures r == Err(TimedOut) ==> now > waitStart + config.powerOffTimeout
    {
      log, payloads := [], [];
      for attempt := 0 to config.maxAttempts
        invariant Valid() && trace == old(trace) + log && MayAttempt(config, log, attempt)
      {
        r, log, payloads := Attempt(old(trace), log, attempt);
        if r.Ok? || r.error != RequestFailed {
          AttemptDecides(config, log, attempt + 1, r, payloads);
          return;
        }
        if attempt + 1 < config.maxAttempts { Sleep(config.retryInterval); }
      }
      NoMoreAttempts(config, log, payloads);
      r := Err(AttemptsExhausted);
    }
  }

  /**
   * What fence_off comes to.  It returns if and only if the row of its last attempt got stable, and
   * then with the proof of it; an error other than exhaustion is that of the last attempt and no
   * request error; it is exhausted only after all attempts, the last one ended by a request error.
   */
  ghost predicate Fenced(c: Config, log: seq<Event>, r: Result<Proof>, payloads: seq<System>) {
    && FenceLog(c, log, Starts(log)) && Starts(log) <= c.maxAttempts
    && (r.Ok? ==> ProvedBy(c, log, r.value, payloads))
    && (r.Ok? <==> FirstStable(c, Row(c, LastAttempt(log))))
    && (r == Err(TimedOut) ==> Row(c, LastAttempt(log)) != [])
    && (r.Err? && r.error != AttemptsExhausted ==>
          log != [] && log[|log| - 1] == AttemptFails(r.error) && r.error != RequestFailed)
    && (r == Err(AttemptsExhausted) ==>
          Starts(log) == c.maxAttempts && (log != [] ==> log[|log| - 1] == AttemptFails(RequestFailed)))
  }

  /** The log of n attempts, the last one with this result. */
  ghost predicate AttemptMade(c: Config, log: seq<Event>, n: nat, r: Result<Proof>, payloads: seq<System>) {
    && FenceLog(c, log, n) && log != []
    && (r.Ok? ==> ProvedBy(c, log, r.value, payloads) && Row(c, LastAttempt(log)) == payloads)
    && (r.Err? ==> r.error != AttemptsExhausted && log[|log| - 1] == AttemptFails(r.error)
                   && NeverStable(c, Row(c, LastAttempt(log))))
    && (r == Err(TimedOut) ==> Row(c, LastAttempt(log)) != [])
  }

  /** Nothing was attempted yet, or the last of n attempts failed with a request error. */
  ghost predicate MayAttempt(c: Config, log: seq<Event>, n: nat) {
    && FenceLog(c, log, n) && NeverStable(c, Row(c, LastAttempt(log)))
    && (log == [] || log[|log| - 1] == AttemptFails(RequestFailed))
  }

  lemma AttemptDecides(c: Config, log: seq<Event>, n: nat, r: Result<Proof>, payloads: seq<System>)
    requires AttemptMade(c, log, n, r, payloads) && n <= c.maxAttempts && r != Err(RequestFailed)
    ensures Fenced(c, log, r, payloads)
  {
    if r.Err? { NotBoth(c, Row(c, LastAttempt(log))); }
  }

  lemma NoMoreAttempts(c: Config, log: seq<Event>, payloads: seq<System>)
    requires MayAttempt(c, log, c.maxAttempts)
    ensures Fenced(c, log, Err(AttemptsExhausted), payloads)
  {
    NotBoth(c, Row(c, LastAttempt(log)));
  }

  lemma NotBoth(c: Config, payloads: seq<System>)
    requires NeverStable(c, payloads)
    ensures !FirstStable(c, payloads)
  {
    assert payloads[..|payloads|] == payloads;
  }

  /** The events of the last attempt. */
  function LastAttempt(t: seq<Event>): seq<Event>
    decreases |t|
  {
    if t == [] || t[|t| - 1].AttemptStarts? then []
    else if t[|t| - 1].AttemptFails? then LastAttempt(t[..|t| - 1])
    else LastAttempt(t[..|t| - 1]) + [t[|t| - 1]]
  }

  lemma FailedLast(t: seq<Event>, error: Error)
    ensures LastAttempt(t + [AttemptFails(error)]) == LastAttempt(t)
  {
    assert (t + [AttemptFails(error)])[..|t|] == t;
  }

  lemma {:induction false} LastOfAttempt(past: seq<Event>, one: seq<Event>)
    requires forall i :: 0 <= i < |one| ==> !one[i].AttemptStarts? && !one[i].AttemptFails?
    ensures LastAttempt(past + [AttemptStarts] + one) == one
    decreases |one|
  {
    var t := past + [AttemptStarts] + one;
    if one == [] {
      assert t[|t| - 1] == AttemptStarts;
    } else {
      assert t[..|t| - 1] == past + [AttemptStarts] + one[..|one| - 1];
      LastOfAttempt(past, one[..|one| - 1]);
    }
  }

  /** No failed attempt had a row that got stable. */
  ghost predicate FailuresUnstable(c: Config, t: seq<Event>) {
    forall i :: 0 <= i < |t| && t[i].AttemptFails? ==> NeverStable(c, Row(c, LastAttempt(t[..i])))
  }

  lemma UnstableAppend(c: Config, t: seq<Event>, u: seq<Event>)
    requires FailuresUnstable(c, t) && forall i :: 0 <= i < |u| ==> !u[i].AttemptFails?
    ensures FailuresUnstable(c, t + u)
  {
    forall i | 0 <= i < |t + u| && (t + u)[i].AttemptFails? ensures NeverStable(c, Row(c, LastAttempt((t + u)[..i]))) {
      assert i < |t| && (t + u)[..i] == t[..i];
    }
  }

  lemma OneMoreUnstable(c: Config, t: seq<Event>, one: seq<Event>)
    requires FailuresUnstable(c, t) && forall i :: 0 <= i < |one| ==> !one[i].AttemptFails?
    ensures FailuresUnstable(c, t + [AttemptStarts] + one)
  {
    UnstableAppend(c, t, [AttemptStarts] + one);
    assert t + [AttemptStarts] + one == t + ([AttemptStarts] + one);
  }

  lemma UnstableFailure(c: Config, t: seq<Event>, error: Error)
    requires FailuresUnstable(c, t) && NeverStable(c, Row(c, LastAttempt(t)))
    ensures FailuresUnstable(c, t + [AttemptFails(error)])
  {
    var u := t + [AttemptFails(error)];
    forall i | 0 <= i < |u| && u[i].AttemptFails? ensures NeverStable(c, Row(c, LastAttempt(u[..i]))) {
      assert u[..i] == t[..i];
      assert t[..|t|] == t;
    }
  }

  /** fence_off as _fence_one calls it: the client is closed on every way out. */
  method FenceAndClose(client: Client) returns (r: Result<Proof>, ghost log: seq<Event>, payloads: seq<System>)
    requires client.Valid() && OptionsInRange(client.config)
    modifies client
    ensures client.Valid() && !client.sessionOpen && old(client.trace) + log <= client.trace
    ensures forall j :: |old(client.trace) + log| <= j < |client.trace| ==> client.trace[j].Request?
    ensures Justified(client.config, log) && Resets(log) <= Starts(log) <= client.config.maxAttempts
    ensures r.Ok? ==> ProvedBy(client.config, log, r.value, payloads)
    ensures r.Ok? <==> FirstStable(client.config, Row(client.config, LastAttempt(log)))
  {
    r, log, payloads := client.FenceOff();
    client.Close();
  }

  /** The log of n attempts. */
  ghost predicate FenceLog(c: Config, t: seq<Event>, n: nat) {
    && Justified(c, t) && Resets(t) <= Starts(t) == n && RetriesOnlyRequestErrors(t)
    && FailuresExplained(c, t) && FailuresUnstable(c, t)
  }

  function Starts(t: seq<Event>): nat
    decreases |t|
  {
    if t == [] then 0 else Starts(t[..|t| - 1]) + if t[|t| - 1].AttemptStarts? then 1 else 0
  }

  /** What follows a failed attempt is the next attempt, and only after a request error. */
  ghost predicate RetriesOnlyRequestErrors(t: seq<Event>) {
    forall i :: 0 <= i < |t| - 1 && t[i].AttemptFails? ==> t[i].error == RequestFailed && t[i + 1].AttemptStarts?
  }

  lemma {:induction false} StartsAppend(t: seq<Event>, u: seq<Event>)
    ensures Starts(t + u) == Starts(t) + Starts(u)
    decreases |u|
  {
    if u == [] {
      assert t + u == t;
    } else {
      assert (t + u)[..|t + u| - 1] == t + u[..|u| - 1];
      StartsAppend(t, u[..|u| - 1]);
    }
  }

  lemma {:induction false} NoStarts(t: seq<Event>)
    requires forall i :: 0 <= i < |t| ==> !t[i].AttemptStarts?
    ensures Starts(t) == 0
    decreases |t|
  {
    if t != [] {
      NoStarts(t[..|t| - 1]);
    }
  }

  /** One more attempt behind a log that ends in a request error. */
  lemma AttemptAppend(c: Config, t: seq<Event>, one: seq<Event>, n: nat)
    requires MayAttempt(c, t, n) && OneAttempt(c, one)
    ensures var u := t + [AttemptStarts] + one;
            FenceLog(c, u, n + 1) && !u[|u| - 1].AttemptFails?
  {
    var u := t + [AttemptStarts] + one;
    ResetsAppend(t, [AttemptStarts]);
    ResetsAppend(t + [AttemptStarts], one);
    StartsAppend(t, [AttemptStarts]);
    StartsAppend(t + [AttemptStarts], one);
    NoStarts(one);
    OneMoreUnstable(c, t, one);
    assert [AttemptStarts][..0] == [];
    forall i | 0 <= i < |u| && u[i].ResetPosted? ensures i > 0 && Justifies(c, u[i - 1], u[i]) {
      if i < |t| {
        assert t[i].ResetPosted?;
      } else {
        assert one[i - |t| - 1].ResetPosted?;
      }
    }
    forall i | 0 <= i < |u| - 1 && u[i].AttemptFails? ensures u[i].error == RequestFailed && u[i + 1].AttemptStarts? {
      assert i < |t| && u[i] == t[i];
    }
  }

  /** The log of the passes so far with one more at its end. */
  function AfterAttempt(past: seq<Event>, one: seq<Event>, r: Result<Proof>): seq<Event> {
    past + [AttemptStarts] + one + if r.Ok? then [] else [AttemptFails(r.error)]
  }

  lemma AttemptConcludes(c: Config, past: seq<Event>, one: seq<Event>, n: nat, r: Result<Proof>, payloads: seq<System>)
    requires MayAttempt(c, past, n) && Attempted(c, one, r, payloads)
    ensures AttemptMade(c, AfterAttempt(past, one, r), n + 1, r, payloads)
  {
    AttemptLogged(c, past, one, n, r, payloads);
    LastOfAttempt(past, one);
    var u := past + [AttemptStarts] + one;
    assert u + [] == u;
    if r.Err? { FailedLast(u, r.error); }
  }

  lemma AttemptMarked(before: seq<Event>, one: seq<Event>, r: Result<Proof>)
    ensures before + [AttemptStarts] + one + (if r.Ok? then [] else [AttemptFails(r.error)])
         == before + AfterAttempt([], one, r)
    ensures r.Ok? ==> before + [AttemptStarts] + one == before + AfterAttempt([], one, r)
  {
  }

  lemma AttemptJoins(before: seq<Event>, past: seq<Event>, one: seq<Event>, r: Result<Proof>)
    ensures before + past + AfterAttempt([], one, r) == before + AfterAttempt(past, one, r)
  {
  }

  /** What one pass adds to the log, with or without a failure at its end. */
  lemma AttemptLogged(c: Config, past: seq<Event>, one: seq<Event>, n: nat, r: Result<Proof>, payloads: seq<System>)
    requires MayAttempt(c, past, n) && Attempted(c, one, r, payloads)
    ensures var u := past + [AttemptStarts] + one;
            if r.Ok? then FenceLog(c, u, n + 1) && ProvedBy(c, u, r.value, payloads)
            else FenceLog(c, u + [AttemptFails(r.error)], n + 1)
  {
    AttemptAppend(c, past, one, n);
    LastOfAttempt(past, one);
    if r.Ok? {
      ProofAtEnd(c, past + [AttemptStarts], one, r.value, payloads);
    } else {
      FailureAppend(c, past + [AttemptStarts] + one, r.error, n + 1);
    }
  }

  lemma FailureAppend(c: Config, t: seq<Event>, error: Error, n: nat)
    requires FenceLog(c, t, n) && t != [] && !t[|t| - 1].AttemptFails? && Explained(c, t, error)
    requires NeverStable(c, Row(c, LastAttempt(t)))
    ensures FenceLog(c, t + [AttemptFails(error)], n)
  {
    var u := t + [AttemptFails(error)];
    assert u[..|u| - 1] == t;
    UnstableFailure(c, t, error);
    FailureKeeps(c, t, error);
  }

  lemma FailureKeeps(c: Config, t: seq<Event>, error: Error)
    requires Justified(c, t) && RetriesOnlyRequestErrors(t) && FailuresExplained(c, t)
    requires t != [] && !t[|t| - 1].AttemptFails? && Explained(c, t, error)
    ensures var u := t + [AttemptFails(error)];
            Justified(c, u) && RetriesOnlyRequestErrors(u) && FailuresExplained(c, u)
  {
    var u := t + [AttemptFails(error)];
    forall i | 0 <= i < |u| && u[i].ResetPosted? ensures i > 0 && Justifies(c, u[i - 1], u[i]) {
      assert i < |t| && t[i].ResetPosted?;
    }
    forall i | 0 <= i < |u| - 1 && u[i].AttemptFails? ensures u[i].error == RequestFailed && u[i + 1].AttemptStarts? {
      assert i < |t| - 1 && u[i] == t[i];
    }
  }

  lemma ProofAtEnd(c: Config, t: seq<Event>, one: seq<Event>, proof: Proof, payloads: seq<System>)
    requires ProvedBy(c, one, proof, payloads)
    ensures ProvedBy(c, t + one, proof, payloads)
  {
    assert (t + one)[|t + one| - |payloads|..] == one[|one| - |payloads|..];
    assert (t + one)[..|t + one| - |payloads|] == t + one[..|one| - |payloads|];
  }

  /** The log of a broken wait has no reset in it. */
  lemma BrokenIsQuiet(c: Config, before: seq<Event>, payloads: seq<System>, after: seq<Event>, error: Error)
    requires WaitBroken(c, before, payloads, after, error)
    ensures before <= after && Quiet(after[|before|..])
    ensures after[|before|..] == AsReads(payloads) + [after[|after| - 1]]
  {
    var t := after[..|after| - 1];
    assert after == before + (AsReads(payloads) + [after[|after| - 1]]);
    assert after[|before|..] == AsReads(payloads) + [after[|after| - 1]];
  }

  lemma Behind(start: seq<Event>, sent: seq<Event>, after: seq<Event>)
    requires start + sent <= after
    ensures after == start + (sent + after[|start + sent|..])
  {
  }

  /** An attempt that ends before its wait. */
  lemma NoWait(c: Config, log: seq<Event>, error: Error)
    requires OptionsInRange(c) && Prepared(c, log, Err(error))
    ensures Attempted(c, log, Err(error), [])
  {
  }

  /** A wait that ended by itself: its readings are the row of the attempt. */
  lemma WaitEnded(c: Config, sent: seq<Event>, before: seq<Event>, payloads: seq<System>, after: seq<Event>,
                  target: string, r: Result<Proof>)
    requires Prepared(c, sent, Ok(target)) && AllIdentified(c, payloads) && after == before + AsReads(payloads)
    requires r.Ok? ==>
               && FirstStable(c, payloads)
               && r.value == Proof(c.systemsUri, c.expectedPower, c.requiredReads, target, c.resetType)
    requires r.Err? ==> r.error == TimedOut && payloads != [] && NeverStable(c, payloads)
    ensures before <= after && Attempted(c, sent + after[|before|..], r, payloads)
  {
    assert after[|before|..] == AsReads(payloads);
    QuietAppend(c, sent, AsReads(payloads));
    assert sent + AsReads(payloads) + [] == sent + AsReads(payloads);
    RowBehind(c, sent, payloads, []);
    assert (sent + AsReads(payloads))[|sent|..] == AsReads(payloads);
    assert (sent + AsReads(payloads))[..|sent|] == sent;
  }

  /** A wait left by an error: the row of the attempt is what was read before. */
  lemma WaitFailed(c: Config, sent: seq<Event>, before: seq<Event>, payloads: seq<System>, after: seq<Event>,
                   target: string, error: Error)
    requires Prepared(c, sent, Ok(target)) && AllIdentified(c, payloads) && NeverStable(c, payloads)
    requires WaitBroken(c, before, payloads, after, error)
    ensures before <= after && Attempted(c, sent + after[|before|..], Err(error), payloads)
  {
    var last := after[|after| - 1];
    BrokenIsQuiet(c, before, payloads, after, error);
    QuietAppend(c, sent, after[|before|..]);
    Regroup(sent, AsReads(payloads), [last]);
    RowBehind(c, sent, payloads, [last]);
  }

  predicate Quiet(t: seq<Event>) {
    forall i :: 0 <= i < |t| ==> t[i].Read? || t[i].Request?
  }

  lemma {:induction false} ResetsAppend(t: seq<Event>, u: seq<Event>)
    ensures Resets(t + u) == Resets(t) + Resets(u)
    decreases |u|
  {
    if u == [] {
      assert t + u == t;
    } else {
      assert (t + u)[..|t + u| - 1] == t + u[..|u| - 1];
      ResetsAppend(t, u[..|u| - 1]);
    }
  }

  lemma {:induction false} NoResets(t: seq<Event>)
    requires Quiet(t)
    ensures Resets(t) == 0
    decreases |t|
  {
    if t != [] {
      NoResets(t[..|t| - 1]);
    }
  }

  lemma QuietAppend(c: Config, t: seq<Event>, u: seq<Event>)
    requires OneAttempt(c, t) && Quiet(u)
    ensures OneAttempt(c, t + u)
  {
    NoResets(u);
    ResetsAppend(t, u);
    forall i | 0 <= i < |t + u| && (t + u)[i].ResetPosted? ensures i > 0 && Justifies(c, (t + u)[i - 1], (t + u)[i]) {
      assert i < |t| && t[i].ResetPosted?;
    }
  }

  lemma ResetAppend(c: Config, t: seq<Event>, reset: Event)
    requires OneAttempt(c, t) && Resets(t) == 0 && reset.ResetPosted?
    requires t != [] && Justifies(c, t[|t| - 1], reset)
    ensures OneAttempt(c, t + [reset])
  {
    ResetsAppend(t, [reset]);
    assert [reset][..0] == [];
    forall i | 0 <= i < |t + [reset]| && (t + [reset])[i].ResetPosted?
      ensures i > 0 && Justifies(c, (t + [reset])[i - 1], (t + [reset])[i])
    {
      assert i < |t| ==> t[i].ResetPosted?;
    }
  }

  /** Every reset follows directly on the payload that justified it. */
  ghost predicate Justified(c: Config, t: seq<Event>) {
    forall i :: 0 <= i < |t| && t[i].ResetPosted? ==> i > 0 && Justifies(c, t[i - 1], t[i])
  }

  predicate Justifies(c: Config, before: Event, reset: Event)
    requires reset.ResetPosted?
  {
    && before.Read? && IdentityOk(c, before.system) && ResetAllowed(c, before.system)
    && !HasExpectedPower(c, before.system)
    && reset.resetType == c.resetType && reset.target == ResetTarget(c, before.system)
  }

  function Resets(t: seq<Event>): nat
    decreases |t|
  {
    if t == [] then 0 else Resets(t[..|t| - 1]) + if t[|t| - 1].ResetPosted? then 1 else 0
  }

  /**
   * What an attempt comes to: a proof if the row of its wait got stable, and if not an error that
   * the end of its log explains, which is a time-out only after a row was read.
   */
  ghost predicate Attempted(c: Config, t: seq<Event>, r: Result<Proof>, payloads: seq<System>) {
    && OneAttempt(c, t)
    && (r.Ok? ==> ProvedBy(c, t, r.value, payloads) && Row(c, t) == payloads)
    && (r.Err? ==> Explained(c, t, r.error) && NeverStable(c, Row(c, t)))
    && (r == Err(TimedOut) ==> Row(c, t) != [])
  }

  /** What was sent up to the first payload; errors of the login or of the reading end it. */
  ghost predicate LoggedIn(c: Config, log: seq<Event>, r: Result<System>) {
    && (forall i :: 0 <= i < |log| - 1 ==> log[i].Request?)
    && (log != [] ==> log[|log| - 1].Request? || log[|log| - 1].Read?)
    && (r.Ok? ==> IdentityOk(c, r.value) && log != [] && log[|log| - 1] == Read(r.value))
    && (r.Err? ==> Explained(c, log, r.error) && r.error != TimedOut)
  }

  /** What was sent before the wait, which has not begun; an error explains why it never does. */
  ghost predicate Prepared(c: Config, log: seq<Event>, r: Result<string>) {
    && OneAttempt(c, log) && Row(c, log) == []
    && (r.Err? ==> Explained(c, log, r.error) && r.error != TimedOut)
    && (r.Ok? ==> OffOrReset(c, log, r.value) && BeforeRow(log))
  }

  lemma PreparedByRead(c: Config, log: seq<Event>, r: Result<System>)
    requires LoggedIn(c, log, r)
    ensures r.Err? ==> Prepared(c, log, Err(r.error))
    ensures r.Ok? && !ResetAllowed(c, r.value) ==> Prepared(c, log, Err(ResetNotAllowed))
    ensures r.Ok? && ResetAllowed(c, r.value) && HasExpectedPower(c, r.value) ==>
              Prepared(c, log, Ok(ResetTarget(c, r.value)))
  {
    NoResets(log);
    NoRow(c, log);
  }

  lemma PreparedByReset(c: Config, log: seq<Event>, s: System, reset: Event, r: Result<string>)
    requires LoggedIn(c, log, Ok(s)) && reset.ResetPosted? && Justifies(c, Read(s), reset)
    requires r == if reset.answer.Response? then Ok(reset.target) else Err(ErrorOf(reset.answer))
    ensures Prepared(c, log + [reset], r)
  {
    NoResets(log);
    ResetAppend(c, log, reset);
    NoRow(c, log + [reset]);
  }

  /** The log of one attempt. */
  ghost predicate OneAttempt(c: Config, t: seq<Event>) {
    && Justified(c, t) && Resets(t) <= 1
    && forall i :: 0 <= i < |t| ==> !t[i].AttemptStarts? && !t[i].AttemptFails?
  }

  /** What an attempt that ends in an error saw last. */
  predicate Explains(c: Config, last: Event, error: Error) {
    match error
    case IdentityMismatch => last.Read? && !IdentityOk(c, last.system)
    case ResetNotAllowed => last.Read? && IdentityOk(c, last.system) && !ResetAllowed(c, last.system)
    case AuthFailed =>
      last.Request? && last.answer.Response? && (c.auth.UnknownAuth? || (c.auth.SessionAuth? && !last.answer.token))
    case TimedOut => last.Read? && IdentityOk(c, last.system)
    case AttemptsExhausted => false
    case RequestFailed => (last.Request? || last.ResetPosted?) && last.answer.RequestException?
    case Unexpected => (last.Request? || last.ResetPosted?) && last.answer.OtherException?
  }

  predicate Explained(c: Config, t: seq<Event>, error: Error) {
    t != [] && Explains(c, t[|t| - 1], error)
  }

  /** Every failed attempt failed for what it saw last. */
  ghost predicate FailuresExplained(c: Config, t: seq<Event>) {
    forall i :: 0 <= i < |t| && t[i].AttemptFails? ==> i > 0 && Explains(c, t[i - 1], t[i].error)
  }

  /**
   * The log ends with a payload that shows the power off already and advertises this reset target,
   * or else with a reset sent to it.
   */
  predicate OffOrReset(c: Config, t: seq<Event>, target: string) {
    t != [] && match t[|t| - 1] {
      case Read(s) => HasExpectedPower(c, s) && ResetAllowed(c, s) && target == ResetTarget(c, s)
      case ResetPosted(sent, _, _) => target == sent
      case _ => false
    }
  }

  /**
   * The proof is the outcome of the payloads at the end of the log; before them the power was off
   * already or the reset was sent, and the proof names its target.
   */
  ghost predicate ProvedBy(c: Config, t: seq<Event>, proof: Proof, payloads: seq<System>) {
    && |payloads| < |t| && t[|t| - |payloads|..] == AsReads(payloads)
    && OffOrReset(c, t[..|t| - |payloads|], proof.resetTarget)
    && AllIdentified(c, payloads) && FirstStable(c, payloads)
    && proof.verifiedPowerState == c.expectedPower && proof.powerStateReads == c.requiredReads
    && proof.systemsUri == c.systemsUri && proof.resetType == c.resetType
  }

  /** The wait was left by an error: a foreign identity was read, or the last request failed. */
  ghost predicate WaitBroken(c: Config, before: seq<Event>, payloads: seq<System>, after: seq<Event>, error: Error) {
    && |after| == |before| + |payloads| + 1
    && after[..|after| - 1] == before + AsReads(payloads)
    && match after[|after| - 1] {
         case Read(s) => error == IdentityMismatch && !IdentityOk(c, s)
         case Request(a) => (a.RequestException? && error == RequestFailed) || (a.OtherException? && error == Unexpected)
         case _ => false
       }
  }

  /** Reading one more payload, when the row was not complete before. */
  lemma OneMorePayload(c: Config, payloads: seq<System>, s: System)
    requires NeverStable(c, payloads) && AllIdentified(c, payloads) && IdentityOk(c, s)
    ensures AllIdentified(c, payloads + [s])
    ensures Trailing(c, payloads + [s]) == if HasExpectedPower(c, s) then Trailing(c, payloads) + 1 else 0
    ensures Trailing(c, payloads + [s]) >= c.requiredReads && c.requiredReads >= 1 ==> FirstStable(c, payloads + [s])
    ensures Trailing(c, payloads + [s]) < c.requiredReads ==> NeverStable(c, payloads + [s])
  {
    assert (payloads + [s])[..|payloads + [s]| - 1] == payloads;
    assert payloads[..|payloads|] == payloads;
    if Trailing(c, payloads + [s]) < c.requiredReads {
      NeverStableOn(c, payloads, s);
    }
  }
}
