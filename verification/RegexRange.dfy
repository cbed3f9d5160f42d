/**
 * Building the body of a regex character class: one scan over the code points emits a single for
 * the first character of every run and a dash with the last one where the run is longer.
 */
module RegexRange {
  import opened Wrappers

  /** A character of the space, by its code point. */
  type Char = nat

  /** An escaped character, or a dash followed by an escaped character. */
  datatype Token = Single(c: Char) | DashTo(c: Char)

  datatype Range = Range(lo: Char, hi: Char)

  /** What valid_char looks at: Unicode properties are arbitrary predicates here. */
  datatype Class = Class(ws: bool, invert: bool, exclude: set<Char>, printable: Char -> bool, spaceSeparator: Char -> bool)

  /** The characters asked for, before inversion. */
  predicate Wanted(k: Class, c: Char) {
    c !in k.exclude && k.printable(c) && (k.ws || !k.spaceSeparator(c))
  }

  /** valid_char, branch by branch. */
  function ValidChar(k: Class, c: Char): (valid: bool)
    ensures valid == (Wanted(k, c) != k.invert)
  {
    var result :=
      if c in k.exclude then false
      else if k.ws then k.printable(c)
      else k.printable(c) && !k.spaceSeparator(c);
    if k.invert then !result else result
  }

  // ---------------------------------------------------------------- reading a class body

  /** A dash is only ever written after a single. */
  predicate WellFormed(regex: seq<Token>)
    decreases |regex|
  {
    if regex == [] then true
    else if regex[|regex| - 1].Single? then WellFormed(regex[..|regex| - 1])
    else |regex| >= 2 && regex[|regex| - 2].Single? && WellFormed(regex[..|regex| - 2])
  }

  /** The ranges a regex engine reads: a lone single is a range of one. */
  function Ranges(regex: seq<Token>): seq<Range>
    requires WellFormed(regex)
    decreases |regex|
  {
    if regex == [] then []
    else
      var last := regex[|regex| - 1];
      if last.Single? then Ranges(regex[..|regex| - 1]) + [Range(last.c, last.c)]
      else Ranges(regex[..|regex| - 2]) + [Range(regex[|regex| - 2].c, last.c)]
  }

  ghost predicate Matches(regex: seq<Token>, c: Char)
    requires WellFormed(regex)
  {
    InSome(Ranges(regex), c)
  }

  ghost predicate InSome(ranges: seq<Range>, c: Char) {
    exists k :: 0 <= k < |ranges| && ranges[k].lo <= c <= ranges[k].hi
  }

  /** Nonempty ranges below n, in increasing order, with a gap between any two. */
  predicate Ordered(ranges: seq<Range>, n: nat) {
    && (forall k :: 0 <= k < |ranges| ==> ranges[k].lo <= ranges[k].hi < n)
    && forall k :: 0 <= k < |ranges| - 1 ==> ranges[k].hi + 1 < ranges[k + 1].lo
  }

  /** The ranges are exactly the runs of wanted characters below n. */
  ghost predicate AreRuns(k: Class, ranges: seq<Range>, n: nat) {
    && Ordered(ranges, n)
    && forall c: Char :: c < n ==> (InSome(ranges, c) <==> ValidChar(k, c))
  }

  /** No character at or above n is in ranges below n. */
  lemma OutsideRanges(ranges: seq<Range>, n: nat, c: Char)
    requires Ordered(ranges, n) && c >= n
    ensures !InSome(ranges, c)
  {
  }

  /** One more character that is not wanted. */
  lemma RunsSkip(k: Class, ranges: seq<Range>, n: nat)
    requires AreRuns(k, ranges, n) && !ValidChar(k, n)
    ensures AreRuns(k, ranges, n + 1)
  {
    OutsideRanges(ranges, n, n);
  }

  /** A run from lo to hi is closed: everything in it is wanted and the character before it is not. */
  lemma RunsClose(k: Class, ranges: seq<Range>, lo: Char, hi: Char)
    requires AreRuns(k, ranges, lo) && lo <= hi
    requires lo > 0 ==> !ValidChar(k, lo - 1)
    requires forall c: Char :: lo <= c <= hi ==> ValidChar(k, c)
    ensures AreRuns(k, ranges + [Range(lo, hi)], hi + 1)
  {
    var all := ranges + [Range(lo, hi)];
    if |ranges| > 0 {
      var last := ranges[|ranges| - 1];
      assert InSome(ranges, last.hi);
    }
    forall c: Char | c < hi + 1 ensures InSome(all, c) <==> ValidChar(k, c) {
      if c < lo {
        if InSome(ranges, c) {
          var j :| 0 <= j < |ranges| && ranges[j].lo <= c <= ranges[j].hi;
          assert all[j] == ranges[j];
        }
        if InSome(all, c) {
          var j :| 0 <= j < |all| && all[j].lo <= c <= all[j].hi;
          assert j < |ranges| && ranges[j] == all[j];
        }
      } else {
        assert all[|ranges|] == Range(lo, hi);
      }
    }
  }

  /** Both ways of writing a run are read as that run. */
  lemma RunWritten(closed: seq<Token>, lo: Char, hi: Char, regex: seq<Token>)
    requires WellFormed(closed)
    requires regex == closed + [Single(lo), DashTo(hi)] || (lo == hi && regex == closed + [Single(lo)])
    ensures WellFormed(regex) && Ranges(regex) == Ranges(closed) + [Range(lo, hi)]
  {
    if regex == closed + [Single(lo), DashTo(hi)] {
      assert regex[..|regex| - 2] == closed;
    } else {
      assert regex[..|regex| - 1] == closed;
    }
  }

  // ---------------------------------------------------------------- the builder

  /** Between runs: what is written are the runs below c, and the character before c is in none. */
  ghost predicate Between(k: Class, regex: seq<Token>, c: nat) {
    WellFormed(regex) && AreRuns(k, Ranges(regex), c) && (c > 0 ==> !ValidChar(k, c - 1))
  }

  /** Inside a run that began at lo: it reaches up to c, and closed is written of the runs before it. */
  ghost predicate Inside(k: Class, closed: seq<Token>, lo: Char, c: nat) {
    Between(k, closed, lo) && lo < c && forall d: Char :: lo <= d < c ==> ValidChar(k, d)
  }

  lemma RunEnds(k: Class, closed: seq<Token>, lo: Char, c: nat, regex: seq<Token>)
    requires Inside(k, closed, lo, c)
    requires regex == closed + [Single(lo), DashTo(c - 1)] || (lo == c - 1 && regex == closed + [Single(lo)])
    ensures WellFormed(regex) && AreRuns(k, Ranges(regex), c)
  {
    RunWritten(closed, lo, c - 1, regex);
    RunsClose(k, Ranges(closed), lo, c - 1);
  }

  lemma Skip(k: Class, regex: seq<Token>, c: nat)
    requires WellFormed(regex) && AreRuns(k, Ranges(regex), c) && !ValidChar(k, c)
    ensures Between(k, regex, c + 1)
  {
    RunsSkip(k, Ranges(regex), c);
  }

  lemma Start(k: Class, regex: seq<Token>, c: nat)
    requires Between(k, regex, c) && ValidChar(k, c)
    ensures Inside(k, regex, c, c + 1)
  {
  }

  lemma Continue(k: Class, closed: seq<Token>, lo: Char, c: nat)
    requires Inside(k, closed, lo, c) && ValidChar(k, c)
    ensures Inside(k, closed, lo, c + 1)
  {
  }

  lemma Read(k: Class, regex: seq<Token>, n: nat)
    requires WellFormed(regex) && AreRuns(k, Ranges(regex), n)
    ensures Ordered(Ranges(regex), n)
    ensures forall c: Char :: Matches(regex, c) <==> c < n && (Wanted(k, c) != k.invert)
  {
    forall c: Char | c >= n ensures !Matches(regex, c) {
      OutsideRanges(Ranges(regex), n, c);
    }
  }

  /**
   * _build_regex_range over the first n code points.  The class body reads back as exactly the
   * wanted characters (their complement when inverted), as maximal disjoint ranges in order.
   */
  method BuildRegexRange(k: Class, n: nat) returns (regex: seq<Token>)
    ensures WellFormed(regex)
    ensures Ordered(Ranges(regex), n)
    ensures forall c: Char :: Matches(regex, c) <==> c < n && (Wanted(k, c) != k.invert)
  {
    regex := [];
    var inRange := false;
    var last: Option<Char> := None;
    var lastAdded: Option<Char> := None;
    ghost var closed: seq<Token> := [];
    for c := 0 to n
      invariant last == if c == 0 then None else Some(c - 1)
      invariant if inRange then lastAdded.Some? && regex == closed + [Single(lastAdded.value)]
                  && Inside(k, closed, lastAdded.value, c)
                else Between(k, regex, c)
    {
      if ValidChar(k, c) {
        if !inRange {
          Start(k, regex, c);
          closed := regex;
          regex := regex + [Single(c)];
          lastAdded := Some(c);
        } else {
          Continue(k, closed, lastAdded.value, c);
        }
        inRange := true;
      } else {
        if inRange && last != lastAdded {
          regex := regex + [DashTo(last.value)];
          assert regex == closed + [Single(lastAdded.value), DashTo(c - 1)];
        }
        if inRange {
          RunEnds(k, closed, lastAdded.value, c, regex);
        }
        Skip(k, regex, c);
        inRange := false;
      }
      last := Some(c);
    }
    if inRange {
      regex := regex + [DashTo(n - 1)];
      assert regex == closed + [Single(lastAdded.value), DashTo(n - 1)];
      RunEnds(k, closed, lastAdded.value, n, regex);
    }
    Read(k, regex, n);
  }
}
