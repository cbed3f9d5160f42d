/**
 * Walking a class hierarchy: a depth-first generator that shares one list of encountered classes
 * with all its recursive calls and yields a class after all its subclasses.
 */
module ClassHierarchy {
  type Class = string

  /** The direct subclasses of each class, in the order the class lists them. */
  type Hierarchy = map<Class, seq<Class>>

  ghost predicate Closed(h: Hierarchy) {
    forall c, d :: c in h && d in h[c] ==> d in h
  }

  /** Each class of the path is a direct subclass of the one before it. */
  ghost predicate IsPath(h: Hierarchy, p: seq<Class>) {
    && p != [] && (forall k :: 0 <= k < |p| ==> p[k] in h)
    && forall k :: 0 <= k < |p| - 1 ==> p[k + 1] in h[p[k]]
  }

  /** No class descends from itself. */
  ghost predicate Acyclic(h: Hierarchy) {
    forall p :: IsPath(h, p) && |p| >= 2 ==> p[0] != p[|p| - 1]
  }

  /** d is a subclass of c, directly or through others. */
  ghost predicate Descends(h: Hierarchy, c: Class, d: Class) {
    exists p :: IsPath(h, p) && |p| >= 2 && p[0] == c && p[|p| - 1] == d
  }

  predicate Distinct(s: seq<Class>) {
    forall i, j :: 0 <= i < j < |s| ==> s[i] != s[j]
  }

  /** Every class comes after all its direct subclasses. */
  ghost predicate SubclassesFirst(h: Hierarchy, s: seq<Class>) {
    forall i, d :: 0 <= i < |s| && s[i] in h && d in h[s[i]] ==> d in s[..i]
  }

  // ---------------------------------------------------------------- paths

  lemma PathAppend(h: Hierarchy, p: seq<Class>, d: Class)
    requires IsPath(h, p) && d in h && d in h[p[|p| - 1]]
    ensures IsPath(h, p + [d])
  {
  }

  lemma PathSuffix(h: Hierarchy, p: seq<Class>, k: nat)
    requires IsPath(h, p) && k < |p|
    ensures IsPath(h, p[k..])
  {
  }

  /** A subclass on the way down to c would close a cycle. */
  lemma NotOnStack(h: Hierarchy, stack: seq<Class>, d: Class)
    requires Acyclic(h) && IsPath(h, stack) && d in h && d in h[stack[|stack| - 1]]
    ensures d !in stack
  {
    if d in stack {
      var k :| 0 <= k < |stack| && stack[k] == d;
      PathSuffix(h, stack, k);
      PathAppend(h, stack[k..], d);
    }
  }

  lemma DirectDescends(h: Hierarchy, c: Class, d: Class)
    requires Closed(h) && c in h && d in h[c]
    ensures Descends(h, c, d)
  {
    assert IsPath(h, [c, d]);
  }

  lemma DescendsThrough(h: Hierarchy, c: Class, d: Class, e: Class)
    requires Closed(h) && c in h && d in h[c] && Descends(h, d, e)
    ensures Descends(h, c, e)
  {
    var p :| IsPath(h, p) && |p| >= 2 && p[0] == d && p[|p| - 1] == e;
    assert IsPath(h, [c] + p);
  }

  // ---------------------------------------------------------------- the walk

  /** What is encountered and not yet yielded lies on the way down from the root. */
  ghost predicate Consistent(h: Hierarchy, stack: seq<Class>, encountered: seq<Class>, yielded: seq<Class>) {
    && Closed(h) && Acyclic(h) && IsPath(h, stack)
    && Distinct(encountered) && (forall c :: c in encountered ==> c in h)
    && Distinct(yielded) && (forall c :: c in yielded ==> c in encountered)
    && (forall c :: c in encountered && c !in yielded ==> c in stack)
    && SubclassesFirst(h, yielded)
  }

  class Walker {
    const h: Hierarchy
    var encountered: seq<Class>
    var yielded: seq<Class>

    constructor (h: Hierarchy)
      ensures this.h == h && encountered == [] && yielded == []
    {
      this.h := h;
      this.encountered := [];
      this.yielded := [];
    }

    ghost predicate Valid(stack: seq<Class>)
      reads this
    {
      Consistent(h, stack, encountered, yielded)
    }

    ghost function Unseen(): nat
      reads this
    {
      |h.Keys - set c | c in encountered|
    }

    /** encountered.append(subclass) */
    method Enter(subclass: Class, ghost stack: seq<Class>)
      requires Valid(stack) && subclass in h && subclass in h[stack[|stack| - 1]] && subclass !in encountered
      modifies this`encountered
      ensures Valid(stack + [subclass]) && encountered == old(encountered) + [subclass]
      ensures Unseen() < old(Unseen())
    {
      PathAppend(h, stack, subclass);
      ghost var before := h.Keys - set c | c in encountered;
      encountered := encountered + [subclass];
      assert before == (h.Keys - set c | c in encountered) + {subclass};
    }

    /** yield subclass, once its own subclasses are out */
    method Emit(subclass: Class, ghost stack: seq<Class>)
      requires Valid(stack + [subclass]) && IsPath(h, stack)
      requires subclass in encountered && subclass !in yielded && forall d :: d in h[subclass] ==> d in yielded
      modifies this`yielded
      ensures Valid(stack) && yielded == old(yielded) + [subclass]
    {
      yielded := yielded + [subclass];
      assert forall i :: 0 <= i < |yielded| - 1 ==> yielded[..i] == old(yielded)[..i];
      assert yielded[..|yielded| - 1] == old(yielded);
    }

    /** The body of the loop for one subclass. */
    method Visit(c: Class, subclass: Class, ghost stack: seq<Class>)
      requires Valid(stack) && stack[|stack| - 1] == c && subclass in h && subclass in h[c]
      modifies this
      ensures Valid(stack) && Grown(h, c, old(encountered), old(yielded), encountered, yielded) && subclass in yielded
      ensures Unseen() <= old(Unseen())
      decreases Unseen(), 0
    {
      NotOnStack(h, stack, subclass);
      if subclass !in encountered {
        Enter(subclass, stack);
        Walk(subclass, stack + [subclass]);
        GrownThrough(h, c, subclass, old(encountered), old(yielded), encountered, yielded);
        Emit(subclass, stack);
      }
    }

    /** One generator: afterwards every class below c is yielded, and what was pending still is. */
    method Walk(c: Class, ghost stack: seq<Class>)
      requires Valid(stack) && stack[|stack| - 1] == c
      modifies this
      ensures Valid(stack) && Grown(h, c, old(encountered), old(yielded), encountered, yielded)
      ensures forall d :: d in h[c] ==> d in yielded
      ensures Unseen() <= old(Unseen())
      decreases Unseen(), 1
    {
      assert c in h;
      for k := 0 to |h[c]|
        invariant Valid(stack) && Grown(h, c, old(encountered), old(yielded), encountered, yielded)
        invariant AllIn(h[c][..k], yielded)
        invariant Unseen() <= old(Unseen())
      {
        ghost var e1, y1 := encountered, yielded;
        var subclass := h[c][k];
        assert subclass in h[c] && subclass in h;
        Visit(c, subclass, stack);
        GrownOn(h, c, old(encountered), old(yielded), e1, y1, encountered, yielded);
        OneMoreIn(h[c], k, y1, yielded);
      }
      assert h[c][..|h[c]|] == h[c];
      AllInMembers(h[c], yielded);
    }
  }

  /** What a call adds: only classes below c, none of them encountered before, all of them finished. */
  ghost predicate Grown(h: Hierarchy, c: Class, e0: seq<Class>, y0: seq<Class>, e: seq<Class>, y: seq<Class>) {
    && e0 <= e && y0 <= y
    && (forall d :: d in e && d !in e0 ==> d in y)
    && (forall d :: d in y && d !in y0 ==> Descends(h, c, d) && d !in e0)
  }

  predicate AllIn(some: seq<Class>, all: seq<Class>)
    decreases |some|
  {
    some == [] || (some[|some| - 1] in all && AllIn(some[..|some| - 1], all))
  }

  lemma {:induction false} AllInMembers(some: seq<Class>, all: seq<Class>)
    requires AllIn(some, all)
    ensures forall d :: d in some ==> d in all
    decreases |some|
  {
    if some != [] {
      AllInMembers(some[..|some| - 1], all);
    }
  }

  lemma {:induction false} AllStillIn(some: seq<Class>, before: seq<Class>, after: seq<Class>)
    requires before <= after && AllIn(some, before)
    ensures AllIn(some, after)
    decreases |some|
  {
    if some != [] {
      var k :| 0 <= k < |before| && before[k] == some[|some| - 1];
      assert after[k] == some[|some| - 1];
      AllStillIn(some[..|some| - 1], before, after);
    }
  }

  lemma OneMoreIn(some: seq<Class>, k: nat, before: seq<Class>, after: seq<Class>)
    requires k < |some| && before <= after && AllIn(some[..k], before) && some[k] in after
    ensures AllIn(some[..k + 1], after)
  {
    AllStillIn(some[..k], before, after);
    assert some[..k + 1][..k] == some[..k];
  }

  lemma GrownOn(h: Hierarchy, c: Class, e0: seq<Class>, y0: seq<Class>, e1: seq<Class>, y1: seq<Class>, e: seq<Class>,
                y: seq<Class>)
    requires Grown(h, c, e0, y0, e1, y1) && Grown(h, c, e1, y1, e, y)
    ensures Grown(h, c, e0, y0, e, y)
  {
    forall d | d in y && d !in y0 ensures Descends(h, c, d) && d !in e0 {
      assert d in y1 || d !in e1;
    }
  }

  /** After the recursive call for a new subclass and the yield that follows it. */
  lemma GrownThrough(h: Hierarchy, c: Class, subclass: Class, e0: seq<Class>, y0: seq<Class>, e: seq<Class>, y: seq<Class>)
    requires Closed(h) && c in h && subclass in h[c] && subclass !in e0 && subclass !in y0
    requires Grown(h, subclass, e0 + [subclass], y0, e, y)
    ensures subclass in e && subclass !in y
    ensures Grown(h, c, e0, y0, e, y + [subclass])
  {
    DirectDescends(h, c, subclass);
    forall d | d in y && d !in y0 ensures Descends(h, c, d) && d !in e0 {
      DescendsThrough(h, c, subclass, d);
      assert d !in e0 + [subclass];
    }
    assert subclass in e0 + [subclass];
  }

  // ---------------------------------------------------------------- the whole hierarchy

  /** A set of classes that contains the subclasses of the root and of its members contains all below. */
  lemma {:induction false} AllBelow(h: Hierarchy, out: seq<Class>, p: seq<Class>)
    requires Closed(h) && SubclassesFirst(h, out)
    requires IsPath(h, p) && |p| >= 2 && forall d :: d in h[p[0]] ==> d in out
    ensures p[|p| - 1] in out
    decreases |p|
  {
    if |p| > 2 {
      AllBelow(h, out, p[..|p| - 1]);
      var c := p[|p| - 2];
      var i :| 0 <= i < |out| && out[i] == c;
      assert p[|p| - 1] in h[out[i]];
    }
  }

  /**
   * walk_class_hierarchy: every proper descendant of the root exactly once, each class after all
   * its direct subclasses, for every acyclic hierarchy, diamonds included.
   */
  method WalkClassHierarchy(h: Hierarchy, root: Class) returns (out: seq<Class>)
    requires Closed(h) && Acyclic(h) && root in h
    ensures Distinct(out)
    ensures forall c :: c in out <==> Descends(h, root, c)
    ensures SubclassesFirst(h, out)
  {
    var walker := new Walker(h);
    assert IsPath(h, [root]);
    walker.Walk(root, [root]);
    out := walker.yielded;
    forall c | Descends(h, root, c) ensures c in out {
      var p :| IsPath(h, p) && |p| >= 2 && p[0] == root && p[|p| - 1] == c;
      AllBelow(h, out, p);
    }
  }

  /** So a class comes after every class that descends from it, not only the direct ones. */
  lemma DescendantsFirst(h: Hierarchy, out: seq<Class>, i: nat, d: Class)
    requires Closed(h) && Distinct(out) && SubclassesFirst(h, out)
    requires i < |out| && out[i] in h && Descends(h, out[i], d)
    ensures d in out[..i]
  {
    var p :| IsPath(h, p) && |p| >= 2 && p[0] == out[i] && p[|p| - 1] == d;
    DescendantsFirstAlong(h, out, i, p);
  }

  lemma {:induction false} DescendantsFirstAlong(h: Hierarchy, out: seq<Class>, i: nat, p: seq<Class>)
    requires Closed(h) && Distinct(out) && SubclassesFirst(h, out)
    requires i < |out| && IsPath(h, p) && |p| >= 2 && p[0] == out[i]
    ensures p[|p| - 1] in out[..i]
    decreases |p|
  {
    assert p[1] in out[..i];
    if |p| > 2 {
      var j :| 0 <= j < i && out[j] == p[1];
      PathSuffix(h, p, 1);
      DescendantsFirstAlong(h, out, j, p[1..]);
    }
  }
}
