/** Cardinality facts about finite sets that the protocol proofs count with. */
module FiniteSets {

  /** A subset is no larger than the set it is taken from. */
  lemma {:induction false} SubsetCard<T>(small: set<T>, big: set<T>)
    requires small <= big
    ensures |small| <= |big|
  {
    assert big == small + (big - small);
    assert |big| == |small| + |big - small|;
  }

  /** An injective map from a set into another bounds the first set by the second. */
  lemma {:induction false} InjectionCard<A, B>(domain: set<A>, image: set<B>, f: map<A, B>)
    requires domain == f.Keys
    requires forall a :: a in domain ==> f[a] in image
    requires forall a, b :: a in domain && b in domain && a != b ==> f[a] != f[b]
    ensures |domain| <= |image|
    decreases |domain|
  {
    if domain != {} {
      var a :| a in domain;
      var rest := domain - {a};
      var g := map x | x in rest :: f[x];
      assert |domain| == |rest| + 1;
      assert f[a] in image;
      assert |image| == |image - {f[a]}| + 1;
      InjectionCard(rest, image - {f[a]}, g);
    }
  }

  /** Two different members make a set larger than one. */
  lemma TwoMembers<T>(s: set<T>, a: T, b: T)
    requires a in s && b in s && a != b
    ensures |s| >= 2
  {
    SubsetCard({a, b}, s);
  }
}
