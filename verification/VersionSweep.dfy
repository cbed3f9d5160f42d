/**
 * API microversions: registering versioned methods with an intersection check that sweeps over
 * the interval end points, and dispatching a request to the first method that matches.
 */
module VersionSweep {
  import opened FiniteSets

  // ---------------------------------------------------------------- versions

  datatype Version = Version(major: nat, minor: nat)

  const NULL := Version(0, 0)

  predicate Lt(a: Version, b: Version) {
    a.major < b.major || (a.major == b.major && a.minor < b.minor)
  }

  predicate Le(a: Version, b: Version) {
    Lt(a, b) || a == b
  }

  /** A method serves the versions from start to end inclusive; a null end means no upper bound. */
  datatype Method = Method(start: Version, end: Version)

  /** APIVersionRequest.matches, for a version that is not null. */
  predicate Matches(v: Version, m: Method) {
    if m.end == NULL && m.start == NULL then true
    else if m.end == NULL then Le(m.start, v)
    else if m.start == NULL then Le(v, m.end)
    else Le(m.start, v) && Le(v, m.end)
  }

  predicate Bounded(m: Method) {
    m.start != NULL && m.end != NULL && Le(m.start, m.end)
  }

  predicate WellFormed(m: Method) {
    Bounded(m) || (m.start != NULL && m.end == NULL)
  }

  ghost predicate AllBounded(ms: seq<Method>) {
    forall i :: 0 <= i < |ms| ==> Bounded(ms[i])
  }

  ghost predicate AllWellFormed(ms: seq<Method>) {
    forall i :: 0 <= i < |ms| ==> WellFormed(ms[i])
  }

  // ---------------------------------------------------------------- the sweep

  /** The start (+1) or the end (-1) of the method at index i of the list. */
  datatype Event = Event(version: Version, opens: bool, i: nat)

  function Point(ms: seq<Method>, i: nat, opens: bool): Event
    requires i < |ms|
  {
    Event(if opens then ms[i].start else ms[i].end, opens, i)
  }

  predicate IsPoint(ms: seq<Method>, e: Event) {
    e.i < |ms| && e == Point(ms, e.i, e.opens)
  }

  /** The order in which the pairs are appended: method by method, start then end. */
  predicate Appended(a: Event, b: Event) {
    a.i < b.i || (a.i == b.i && a.opens && !b.opens)
  }

  /** The order of a stable sort by version: ties keep the order in which they were appended. */
  predicate Before(a: Event, b: Event) {
    Lt(a.version, b.version) || (a.version == b.version && Appended(a, b))
  }

  predicate Sorted(es: seq<Event>) {
    forall i, j :: 0 <= i < j < |es| ==> Before(es[i], es[j])
  }

  /** Put e behind everything that is not later than it. */
  function Insert(es: seq<Event>, e: Event): (r: seq<Event>)
    ensures |r| == |es| + 1
    decreases |es|
  {
    if es == [] then [e]
    else if Lt(e.version, es[|es| - 1].version) then Insert(es[..|es| - 1], e) + [es[|es| - 1]]
    else es + [e]
  }

  /** list.sort: stable, so ties keep the order of the list. */
  function StableSort(es: seq<Event>): (r: seq<Event>)
    ensures |r| == |es|
    decreases |es|
  {
    if es == [] then [] else Insert(StableSort(es[..|es| - 1]), es[|es| - 1])
  }

  /** The pairs of the first n methods, as appended. */
  function Pairs(ms: seq<Method>, n: nat): (r: seq<Event>)
    requires n <= |ms|
    ensures |r| == 2 * n
  {
    if n == 0 then [] else Pairs(ms, n - 1) + [Point(ms, n - 1, true), Point(ms, n - 1, false)]
  }

  function Counter(es: seq<Event>): int
    decreases |es|
  {
    if es == [] then 0 else Counter(es[..|es| - 1]) + if es[|es| - 1].opens then 1 else -1
  }

  /** The pairs in the order in which the sweep goes through them. */
  function AllEvents(ms: seq<Method>): (r: seq<Event>)
    ensures |r| == 2 * |ms|
  {
    StableSort(Pairs(ms, |ms|))
  }

  /** The sweep sees two intervals open at once. */
  ghost predicate Detects(ms: seq<Method>) {
    Exceeds(AllEvents(ms))
  }

  ghost predicate Exceeds(es: seq<Event>) {
    exists k :: 0 <= k <= |es| && Counter(es[..k]) > 1
  }

  /** The counting loop of the sweep. */
  method Count(pairs: seq<Event>) returns (b: bool)
    ensures b <==> Exceeds(pairs)
  {
    var counter := 0;
    for k := 0 to |pairs|
      invariant counter == Counter(pairs[..k])
      invariant forall j :: 0 <= j <= k ==> Counter(pairs[..j]) <= 1
    {
      assert pairs[..k + 1][..k] == pairs[..k];
      counter := counter + if pairs[k].opens then 1 else -1;
      if counter > 1 {
        assert Counter(pairs[..k + 1]) > 1;
        return true;
      }
    }
    return false;
  }

  /** check_for_versions_intersection */
  method CheckForVersionsIntersection(ms: seq<Method>) returns (b: bool)
    ensures b <==> Detects(ms)
  {
    var pairs: seq<Event> := [];
    for i := 0 to |ms|
      invariant pairs == Pairs(ms, i)
    {
      pairs := pairs + [Point(ms, i, true)];
      pairs := pairs + [Point(ms, i, false)];
      assert pairs == Pairs(ms, i) + [Point(ms, i, true), Point(ms, i, false)];
    }
    b := Count(StableSort(pairs));
  }

  // ---------------------------------------------------------------- the sorted list

  predicate InAppendOrder(es: seq<Event>) {
    forall i, j :: 0 <= i < j < |es| ==> Appended(es[i], es[j])
  }

  lemma {:induction false} Inserted(es: seq<Event>, e: Event)
    requires Sorted(es) && forall k :: 0 <= k < |es| ==> Appended(es[k], e)
    ensures Sorted(Insert(es, e)) && multiset(Insert(es, e)) == multiset(es) + multiset{e}
    decreases |es|
  {
    if es != [] {
      var front, last := es[..|es| - 1], es[|es| - 1];
      assert es == front + [last];
      if Lt(e.version, last.version) {
        Inserted(front, e);
        var r := Insert(front, e);
        forall k | 0 <= k < |r| ensures Before(r[k], last) {
          assert r[k] in multiset(front) + multiset{e};
          if r[k] != e {
            assert r[k] in front;
          }
        }
      } else {
        forall k | 0 <= k < |es| ensures Before(es[k], e) {
        }
      }
    }
  }

  lemma {:induction false} Sorts(es: seq<Event>)
    requires InAppendOrder(es)
    ensures Sorted(StableSort(es)) && multiset(StableSort(es)) == multiset(es)
    decreases |es|
  {
    if es != [] {
      var front, last := es[..|es| - 1], es[|es| - 1];
      assert es == front + [last];
      Sorts(front);
      var r := StableSort(front);
      forall k | 0 <= k < |r| ensures Appended(r[k], last) {
        assert r[k] in multiset(front);
        assert r[k] in front;
      }
      Inserted(r, last);
    }
  }

  lemma {:induction false} PairsMembers(ms: seq<Method>, n: nat, x: Event)
    requires n <= |ms|
    ensures x in Pairs(ms, n) <==> x.i < n && IsPoint(ms, x)
  {
    if n > 0 {
      PairsMembers(ms, n - 1, x);
      assert x in Pairs(ms, n) <==>
             x in Pairs(ms, n - 1) || x == Point(ms, n - 1, true) || x == Point(ms, n - 1, false);
    }
  }

  lemma {:induction false} PairsInOrder(ms: seq<Method>, n: nat)
    requires n <= |ms|
    ensures InAppendOrder(Pairs(ms, n))
  {
    if n > 0 {
      PairsInOrder(ms, n - 1);
      var r := Pairs(ms, n - 1);
      forall k | 0 <= k < |r| ensures r[k].i < n - 1 {
        PairsMembers(ms, n - 1, r[k]);
      }
    }
  }

  /** All end points of the list, in the order of the sweep. */
  ghost predicate IsSweep(ms: seq<Method>, es: seq<Event>) {
    Sorted(es) && forall x :: x in es <==> IsPoint(ms, x)
  }

  lemma AllEventsSweep(ms: seq<Method>)
    ensures IsSweep(ms, AllEvents(ms))
  {
    PairsInOrder(ms, |ms|);
    Sorts(Pairs(ms, |ms|));
    forall x ensures x in AllEvents(ms) <==> IsPoint(ms, x) {
      PairsMembers(ms, |ms|, x);
      assert x in AllEvents(ms) <==> x in multiset(AllEvents(ms));
      assert x in Pairs(ms, |ms|) <==> x in multiset(Pairs(ms, |ms|));
    }
  }

  // ---------------------------------------------------------------- what the counter counts

  function Starts(ms: seq<Method>, es: seq<Event>): set<nat> {
    set i | 0 <= i < |ms| && Point(ms, i, true) in es
  }

  function Ends(ms: seq<Method>, es: seq<Event>): set<nat> {
    set i | 0 <= i < |ms| && Point(ms, i, false) in es
  }

  lemma {:induction false} CounterCounts(ms: seq<Method>, es: seq<Event>)
    requires Sorted(es) && forall k :: 0 <= k < |es| ==> IsPoint(ms, es[k])
    ensures Counter(es) == |Starts(ms, es)| - |Ends(ms, es)|
    decreases |es|
  {
    if es == [] {
      assert Starts(ms, es) == {} && Ends(ms, es) == {};
    } else {
      var front, last := es[..|es| - 1], es[|es| - 1];
      assert es == front + [last];
      CounterCounts(ms, front);
      LastIsNew(es);
      assert IsPoint(ms, last);
      OneMorePoint(ms, front, last);
      assert last == Point(ms, last.i, last.opens);
      if last.opens {
        assert last.i !in Starts(ms, front);
      } else {
        assert last.i !in Ends(ms, front);
      }
    }
  }

  lemma OneMorePoint(ms: seq<Method>, front: seq<Event>, last: Event)
    requires IsPoint(ms, last)
    ensures Starts(ms, front + [last]) == if last.opens then Starts(ms, front) + {last.i} else Starts(ms, front)
    ensures Ends(ms, front + [last]) == if last.opens then Ends(ms, front) else Ends(ms, front) + {last.i}
  {
    forall i, opens | 0 <= i < |ms|
      ensures Point(ms, i, opens) in front + [last] <==> Point(ms, i, opens) in front || (i == last.i && opens == last.opens)
    {
      assert Point(ms, i, opens).i == i && Point(ms, i, opens).opens == opens;
      assert last == Point(ms, last.i, last.opens);
    }
  }

  lemma LastIsNew(es: seq<Event>)
    requires Sorted(es) && es != []
    ensures es[|es| - 1] !in es[..|es| - 1]
  {
  }

  predicate Upto(e: Event, p: Event) {
    e == p || Before(e, p)
  }

  /** The intervals that are open just after the end point p; without an end they stay open. */
  function Open(ms: seq<Method>, p: Event): set<nat> {
    set i | 0 <= i < |ms| && Upto(Point(ms, i, true), p) && (ms[i].end == NULL || Before(p, Point(ms, i, false)))
  }

  function Unbounded(ms: seq<Method>): set<nat> {
    set i | 0 <= i < |ms| && ms[i].end == NULL
  }

  function Closed(ms: seq<Method>, p: Event): set<nat> {
    set i | 0 <= i < |ms| && ms[i].end != NULL && Upto(Point(ms, i, false), p)
  }

  /** The first k end points are those up to the k-th. */
  lemma PrefixIsUpto(ms: seq<Method>, es: seq<Event>, k: nat, x: Event)
    requires IsSweep(ms, es) && 1 <= k <= |es|
    ensures x in es[..k] <==> IsPoint(ms, x) && Upto(x, es[k - 1])
  {
    if x in es[..k] {
      var j :| 0 <= j < k && es[j] == x;
      assert x in es;
    }
    if IsPoint(ms, x) && Upto(x, es[k - 1]) {
      assert x in es;
      var j :| 0 <= j < |es| && es[j] == x;
      assert j >= k ==> Before(es[k - 1], es[j]);
    }
  }

  /** Once all null ends are behind, the started intervals are the open and the closed ones. */
  lemma StartedIsOpenOrClosed(ms: seq<Method>, p: Event)
    requires AllWellFormed(ms) && IsPoint(ms, p) && p.version != NULL
    ensures (set i | 0 <= i < |ms| && Upto(Point(ms, i, true), p)) == Open(ms, p) + Closed(ms, p)
    ensures Open(ms, p) !! Closed(ms, p)
  {
    forall i | 0 <= i < |ms| && ms[i].end != NULL ensures Before(Point(ms, i, true), Point(ms, i, false)) {
      assert WellFormed(ms[i]);
    }
    forall i | i in Closed(ms, p) ensures Upto(Point(ms, i, true), p) {
      assert Before(Point(ms, i, true), Point(ms, i, false));
    }
    forall i | 0 <= i < |ms| && ms[i].end != NULL
      ensures Before(p, Point(ms, i, false)) <==> !Upto(Point(ms, i, false), p) {
    }
  }

  lemma EndedIsClosedOrUnbounded(ms: seq<Method>, p: Event)
    requires AllWellFormed(ms) && IsPoint(ms, p) && p.version != NULL
    ensures (set i | 0 <= i < |ms| && Upto(Point(ms, i, false), p)) == Closed(ms, p) + Unbounded(ms)
    ensures Closed(ms, p) !! Unbounded(ms)
  {
    forall i | i in Unbounded(ms) ensures Upto(Point(ms, i, false), p) {
      assert Lt(NULL, p.version);
    }
  }

  lemma NothingStartsAtNull(ms: seq<Method>, p: Event)
    requires AllWellFormed(ms) && IsPoint(ms, p) && p.version == NULL
    ensures (set i | 0 <= i < |ms| && Upto(Point(ms, i, true), p)) == {} && Open(ms, p) == {}
  {
    forall i | 0 <= i < |ms| ensures !Upto(Point(ms, i, true), p) {
      assert WellFormed(ms[i]);
    }
  }

  /** The intervals started and ended by a prefix, told by the last point of the prefix. */
  lemma StartedByPrefix(ms: seq<Method>, es: seq<Event>, k: nat)
    requires IsSweep(ms, es) && 1 <= k <= |es|
    ensures Starts(ms, es[..k]) == set i | 0 <= i < |ms| && Upto(Point(ms, i, true), es[k - 1])
    ensures Ends(ms, es[..k]) == set i | 0 <= i < |ms| && Upto(Point(ms, i, false), es[k - 1])
  {
    forall i, opens | 0 <= i < |ms|
      ensures Point(ms, i, opens) in es[..k] <==> Upto(Point(ms, i, opens), es[k - 1])
    {
      PrefixIsUpto(ms, es, k, Point(ms, i, opens));
    }
  }

  /** After an end point the counter is the number of open intervals less that of null ends. */
  lemma CounterAtPoint(ms: seq<Method>, es: seq<Event>, k: nat)
    requires AllWellFormed(ms) && IsSweep(ms, es) && 1 <= k <= |es|
    ensures IsPoint(ms, es[k - 1])
    ensures if es[k - 1].version == NULL then Counter(es[..k]) <= 0 && Open(ms, es[k - 1]) == {}
            else Counter(es[..k]) == |Open(ms, es[k - 1])| - |Unbounded(ms)|
  {
    var p := es[k - 1];
    assert p in es;
    CounterCounts(ms, es[..k]);
    StartedByPrefix(ms, es, k);
    if p.version == NULL {
      NothingStartsAtNull(ms, p);
    } else {
      StartedIsOpenOrClosed(ms, p);
      EndedIsClosedOrUnbounded(ms, p);
    }
  }

  /** The intervals whose start is up to the end point p. */
  function Started(ms: seq<Method>, p: Event): set<nat> {
    set i | 0 <= i < |ms| && Upto(Point(ms, i, true), p)
  }

  /** The intervals whose end is. */
  function Ended(ms: seq<Method>, p: Event): set<nat> {
    set i | 0 <= i < |ms| && Upto(Point(ms, i, false), p)
  }

  /**
   * What the sweep decides for every list of methods whatever, ends below their starts and null
   * starts included: it reports an intersection exactly when, at some end point, more than one
   * interval has started than has ended.
   */
  lemma SweepCounts(ms: seq<Method>)
    ensures Detects(ms) <==> exists p :: IsPoint(ms, p) && |Started(ms, p)| - |Ended(ms, p)| > 1
  {
    var es := AllEvents(ms);
    AllEventsSweep(ms);
    if Exceeds(es) {
      var k :| 0 <= k <= |es| && Counter(es[..k]) > 1;
      assert es[k - 1] in es;
      CounterCounts(ms, es[..k]);
      StartedByPrefix(ms, es, k);
    }
    if p :| IsPoint(ms, p) && |Started(ms, p)| - |Ended(ms, p)| > 1 {
      assert p in es;
      var k :| 0 <= k < |es| && es[k] == p;
      CounterCounts(ms, es[..k + 1]);
      StartedByPrefix(ms, es, k + 1);
    }
  }

  /**
   * What the sweep decides, for every list of methods with or without an upper bound: it reports
   * an intersection exactly when, at some end point, the number of open intervals exceeds one by
   * more than the number of methods without an upper bound.
   */
  lemma SweepDecides(ms: seq<Method>)
    requires AllWellFormed(ms)
    ensures Detects(ms) <==> exists p :: IsPoint(ms, p) && |Open(ms, p)| > 1 + |Unbounded(ms)|
  {
    var es := AllEvents(ms);
    AllEventsSweep(ms);
    if Exceeds(es) {
      var k :| 0 <= k <= |es| && Counter(es[..k]) > 1;
      CounterAtPoint(ms, es, k);
    }
    if p :| IsPoint(ms, p) && |Open(ms, p)| > 1 + |Unbounded(ms)| {
      assert p in es;
      var k :| 0 <= k < |es| && es[k] == p;
      CounterAtPoint(ms, es, k + 1);
    }
  }

  // ---------------------------------------------------------------- bounded lists

  /** The interval j starts while i is open; touching end points are ordered by the list. */
  predicate StartsWithin(ms: seq<Method>, i: nat, j: nat)
    requires i < |ms| && j < |ms|
  {
    i != j && Before(Point(ms, i, true), Point(ms, j, true)) && Before(Point(ms, j, true), Point(ms, i, false))
  }

  ghost predicate SomeStartWithin(ms: seq<Method>) {
    exists i, j :: 0 <= i < |ms| && 0 <= j < |ms| && StartsWithin(ms, i, j)
  }

  /** Without null ends the sweep reports exactly the lists in which an interval starts within another. */
  lemma BoundedSweepDecides(ms: seq<Method>)
    requires AllBounded(ms)
    ensures Detects(ms) <==> SomeStartWithin(ms)
  {
    SweepDecides(ms);
    assert Unbounded(ms) == {};
    if Detects(ms) {
      var p :| IsPoint(ms, p) && |Open(ms, p)| > 1;
      TwoOpen(ms, p);
    }
    if i, j :| 0 <= i < |ms| && 0 <= j < |ms| && StartsWithin(ms, i, j) {
      var p := Point(ms, j, true);
      assert Bounded(ms[j]);
      TwoMembers(Open(ms, p), i, j);
      assert IsPoint(ms, p);
    }
  }

  lemma TwoOpen(ms: seq<Method>, p: Event)
    requires AllBounded(ms) && IsPoint(ms, p) && |Open(ms, p)| > 1
    ensures SomeStartWithin(ms)
  {
    var open := Open(ms, p);
    var i :| i in open;
    assert |open - {i}| == |open| - 1;
    var j :| j in open - {i};
    assert ms[i].end != NULL && ms[j].end != NULL by {
      assert Bounded(ms[i]) && Bounded(ms[j]);
    }
    if Before(Point(ms, i, true), Point(ms, j, true)) {
      assert StartsWithin(ms, i, j);
    } else {
      assert StartsWithin(ms, j, i);
    }
  }

  predicate InClosed(v: Version, m: Method) {
    Le(m.start, v) && Le(v, m.end)
  }

  predicate StrictlyInside(v: Version, m: Method) {
    Lt(m.start, v) && Lt(v, m.end)
  }

  /** A reported intersection is real: two of the closed intervals share a version. */
  lemma ReportedShareVersion(ms: seq<Method>)
    requires AllBounded(ms) && Detects(ms)
    ensures exists i, j, v :: 0 <= i < j < |ms| && InClosed(v, ms[i]) && InClosed(v, ms[j])
  {
    BoundedSweepDecides(ms);
    var i, j :| 0 <= i < |ms| && 0 <= j < |ms| && StartsWithin(ms, i, j);
    assert Bounded(ms[i]) && Bounded(ms[j]);
    assert InClosed(ms[j].start, ms[i]) && InClosed(ms[j].start, ms[j]);
  }

  /** Two intervals with more than an end point in common are reported. */
  lemma StrictOverlapReported(ms: seq<Method>, i: nat, j: nat)
    requires AllBounded(ms) && i < |ms| && j < |ms| && i != j
    requires Lt(ms[i].start, ms[j].end) && Lt(ms[j].start, ms[i].end)
    requires Lt(ms[i].start, ms[i].end) && Lt(ms[j].start, ms[j].end)
    ensures Detects(ms)
  {
    BoundedSweepDecides(ms);
    if Before(Point(ms, i, true), Point(ms, j, true)) {
      assert StartsWithin(ms, i, j);
    } else {
      assert StartsWithin(ms, j, i);
    }
  }

  /** In an accepted list, a version strictly inside one interval matches no other method. */
  lemma AcceptedDispatchUnique(ms: seq<Method>, i: nat, j: nat, v: Version)
    requires AllBounded(ms) && !Detects(ms) && i < |ms| && j < |ms|
    requires StrictlyInside(v, ms[i]) && Matches(v, ms[j])
    ensures i == j
  {
    BoundedSweepDecides(ms);
    assert Bounded(ms[i]) && Bounded(ms[j]);
    if i != j {
      if Before(Point(ms, i, true), Point(ms, j, true)) {
        assert StartsWithin(ms, i, j);
      } else {
        assert StartsWithin(ms, j, i);
      }
    }
  }

  /** With null ends the check is blind: two methods serving all versions from 1.0 on are accepted. */
  lemma UnboundedOverlapAccepted()
    ensures var ms := [Method(Version(1, 0), NULL), Method(Version(1, 0), NULL)];
            AllWellFormed(ms) && !Detects(ms) && Matches(Version(2, 0), ms[0]) && Matches(Version(2, 0), ms[1])
  {
    var ms := [Method(Version(1, 0), NULL), Method(Version(1, 0), NULL)];
    SweepDecides(ms);
    assert Unbounded(ms) == {0, 1};
    forall p ensures |Open(ms, p)| <= 2 {
      SubsetCard(Open(ms, p), {0, 1});
    }
  }

  // ---------------------------------------------------------------- registering and dispatching

  /** list.sort by start version, reversed: stable among equal starts. */
  function InsertDescending(ms: seq<Method>, m: Method): (r: seq<Method>)
    ensures multiset(r) == multiset(ms) + multiset{m}
    decreases |ms|
  {
    if ms == [] then [m]
    else
      assert ms == ms[..|ms| - 1] + [ms[|ms| - 1]];
      if Lt(ms[|ms| - 1].start, m.start) then InsertDescending(ms[..|ms| - 1], m) + [ms[|ms| - 1]]
      else ms + [m]
  }

  function SortDescending(ms: seq<Method>): (r: seq<Method>)
    ensures multiset(r) == multiset(ms)
    decreases |ms|
  {
    if ms == [] then []
    else
      assert ms == ms[..|ms| - 1] + [ms[|ms| - 1]];
      InsertDescending(SortDescending(ms[..|ms| - 1]), ms[|ms| - 1])
  }

  predicate Descending(ms: seq<Method>) {
    forall i, j :: 0 <= i < j < |ms| ==> Le(ms[j].start, ms[i].start)
  }

  /** No two registered methods serve a version strictly inside one of them; order does not matter. */
  ghost predicate Unambiguous(ms: seq<Method>) {
    forall a, b, v :: multiset{a, b} <= multiset(ms) && StrictlyInside(v, a) ==> !Matches(v, b)
  }

  lemma {:induction false} InsertKeepsDescending(ms: seq<Method>, m: Method)
    requires Descending(ms)
    ensures Descending(InsertDescending(ms, m))
    decreases |ms|
  {
    if ms != [] && Lt(ms[|ms| - 1].start, m.start) {
      var front, last := ms[..|ms| - 1], ms[|ms| - 1];
      InsertKeepsDescending(front, m);
      var r := InsertDescending(front, m);
      forall k | 0 <= k < |r| ensures Le(last.start, r[k].start) {
        assert r[k] in multiset(r);
        assert r[k] == m || r[k] in front;
      }
    }
  }

  lemma {:induction false} SortsDescending(ms: seq<Method>)
    ensures Descending(SortDescending(ms))
    decreases |ms|
  {
    if ms != [] {
      SortsDescending(ms[..|ms| - 1]);
      InsertKeepsDescending(SortDescending(ms[..|ms| - 1]), ms[|ms| - 1]);
    }
  }

  /** A list without its element number i. */
  lemma WithoutPlace(ms: seq<Method>, i: nat)
    requires i < |ms|
    ensures multiset(ms) == multiset(ms[..i] + ms[i + 1..]) + multiset{ms[i]}
  {
    assert ms == ms[..i] + [ms[i]] + ms[i + 1..];
  }

  /** Two entries of the multiset are two places of the list. */
  lemma TwoPlaces(ms: seq<Method>, a: Method, b: Method) returns (i: nat, j: nat)
    requires multiset{a, b} <= multiset(ms)
    ensures i < |ms| && j < |ms| && i != j && ms[i] == a && ms[j] == b
  {
    assert a in multiset(ms) by { assert multiset{a, b}[a] >= 1; }
    i :| 0 <= i < |ms| && ms[i] == a;
    WithoutPlace(ms, i);
    ghost var rest := ms[..i] + ms[i + 1..];
    assert b in multiset(rest) by { assert multiset{a, b} - multiset{a} <= multiset(rest); }
    ghost var k :| 0 <= k < |rest| && rest[k] == b;
    j := if k < i then k else k + 1;
  }

  lemma AcceptedUnambiguous(ms: seq<Method>)
    requires AllBounded(ms) && !Detects(ms)
    ensures Unambiguous(ms)
  {
    forall a, b, v | multiset{a, b} <= multiset(ms) && StrictlyInside(v, a) ensures !Matches(v, b) {
      var i, j := TwoPlaces(ms, a, b);
      if Matches(v, b) {
        AcceptedDispatchUnique(ms, i, j, v);
      }
    }
  }

  datatype Selection = Selected(m: Method) | VersionNotFound | NullVersion

  /** The versioned methods registered under one name. */
  class Registry {
    var methods: seq<Method>

    constructor ()
      ensures methods == []
    {
      methods := [];
    }

    /**
     * The api_version decorator: the method is appended, the list is checked, and only an accepted
     * list is sorted, latest start first.  A refused method stays appended.
     */
    method Register(m: Method) returns (ok: bool)
      modifies this
      ensures ok <==> !Detects(old(methods) + [m])
      ensures !ok ==> methods == old(methods) + [m]
      ensures ok ==> multiset(methods) == multiset(old(methods)) + multiset{m} && Descending(methods)
      ensures ok && AllBounded(old(methods) + [m]) ==> Unambiguous(methods)
    {
      methods := methods + [m];
      ghost var appended := methods;
      var intersect := CheckForVersionsIntersection(methods);
      if intersect { return false; }
      methods := SortDescending(methods);
      SortsDescending(appended);
      if AllBounded(appended) {
        AcceptedUnambiguous(appended);
      }
      return true;
    }

    /** version_select: the first method in the list that matches. */
    method Select(v: Version) returns (s: Selection)
      ensures s.NullVersion? <==> v == NULL && methods != []
      ensures s.VersionNotFound? ==> forall i :: 0 <= i < |methods| ==> !Matches(v, methods[i])
      ensures s.Selected? ==> s.m in methods && Matches(v, s.m)
      ensures s.Selected? && Unambiguous(methods) ==>
                forall i :: 0 <= i < |methods| && StrictlyInside(v, methods[i]) ==> methods[i] == s.m
      ensures v != NULL && (exists i :: 0 <= i < |methods| && StrictlyInside(v, methods[i]) && Bounded(methods[i])) ==>
                s.Selected?
    {
      for k := 0 to |methods|
        invariant v != NULL || k == 0
        invariant forall i :: 0 <= i < k ==> !Matches(v, methods[i])
      {
        if v == NULL { return NullVersion; }
        if Matches(v, methods[k]) {
          forall i | 0 <= i < |methods| && StrictlyInside(v, methods[i]) && Unambiguous(methods) ensures methods[i] == methods[k] {
            if i != k {
              BothPresent(methods, i, k);
            }
          }
          return Selected(methods[k]);
        }
      }
      return VersionNotFound;
    }
  }

  lemma BothPresent(ms: seq<Method>, i: nat, j: nat)
    requires i < |ms| && j < |ms| && i != j
    ensures multiset{ms[i], ms[j]} <= multiset(ms)
  {
    var a, b := if i < j then i else j, if i < j then j else i;
    assert ms == ms[..a] + [ms[a]] + ms[a + 1..b] + [ms[b]] + ms[b + 1..];
  }
}
