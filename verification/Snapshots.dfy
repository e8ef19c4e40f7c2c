/**
 Listings of the same registrations. The model builder sorts its list and the
 policy reconciler does not; what both compute depends on neither the order of
 the list nor the order in which the children were gathered.
 */
module Snapshots {
  import opened Sorting
  import opened ResourceGraph
  import opened Hierarchy

  ghost predicate SameRegistrations(prs: seq<ProtectedResource>, others: seq<ProtectedResource>) {
    forall pr :: pr in prs <==> pr in others
  }

  /** Registrations of one type agree on its spec. */
  ghost predicate OneSpecPerType(prs: seq<ProtectedResource>) {
    forall a, b, t :: a in prs && b in prs && Registers(a, t) && Registers(b, t) ==> a.spec == b.spec
  }

  ghost predicate Agree(g: Graph, h: Graph) {
    g.specs == h.specs && g.roots == h.roots && forall t :: Kids(g, t) == Kids(h, t)
  }

  lemma SpecsAgree(prs: seq<ProtectedResource>, others: seq<ProtectedResource>)
    requires SameRegistrations(prs, others) && OneSpecPerType(prs)
    ensures Specs(prs) == Specs(others)
  {
    forall t
      ensures t in Specs(prs) <==> t in Specs(others)
      ensures t in Specs(prs) ==> Specs(prs)[t] == Specs(others)[t]
    {
      SpecsRegistered(prs, t);
      SpecsRegistered(others, t);
    }
  }

  lemma SetsAgree(s: seq<string>, r: seq<string>)
    requires SortedSet(s) && SortedSet(r) && forall x :: x in s <==> x in r
    ensures s == r
  {
    CanonicalUnique(s, r);
    CanonicalUnique(r, r);
  }

  /** What the registrations describe is one graph, however they are listed. */
  lemma GraphsAgree(g: Graph, h: Graph, prs: seq<ProtectedResource>, others: seq<ProtectedResource>)
    requires Describes(g, prs) && Describes(h, others) && SameRegistrations(prs, others)
    requires prs == others || OneSpecPerType(prs)
    ensures Agree(g, h)
  {
    if prs != others {
      SpecsAgree(prs, others);
    }
    forall t
      ensures IsParentless(prs, t) <==> IsParentless(others, t)
    {
    }
    SetsAgree(g.roots, h.roots);
    forall t
      ensures Kids(g, t) == Kids(h, t)
    {
      assert forall child :: IsChild(prs, t, child) <==> IsChild(others, t, child);
      SetsAgree(Kids(g, t), Kids(h, t));
    }
  }

  lemma {:induction false} NodesAgree(g: Graph, h: Graph, on: bool, ts: seq<string>, path: set<string>)
    requires Agree(g, h)
    ensures GraphNodes(g, on, ts, path) == GraphNodes(h, on, ts, path)
    decreases g.specs.Keys - path, |ts| + 1
  {
    if ts != [] {
      var n := |ts| - 1;
      NodesAgree(g, h, on, ts[..n], path);
      NodeAgrees(g, h, on, ts[n], path);
    }
  }

  lemma {:induction false} NodeAgrees(g: Graph, h: Graph, on: bool, t: string, path: set<string>)
    requires Agree(g, h)
    ensures GraphNode(g, on, t, path) == GraphNode(h, on, t, path)
    decreases g.specs.Keys - path, 0
  {
    if t in g.specs && t !in path {
      NodesAgree(g, h, on, Kids(g, t), path + {t});
    }
  }

  lemma HierarchiesAgree(g: Graph, h: Graph, on: bool)
    requires Agree(g, h)
    ensures ResourceGraphOf(g, on) == ResourceGraphOf(h, on)
    ensures ResourceGraphOf(g, on).Ok? ==> HierarchyOf(g, on) == HierarchyOf(h, on)
  {
    NodesAgree(g, h, on, g.roots, {});
    if ResourceGraphOf(g, on).Ok? {
      forall t
        ensures GraphNode(g, on, t, {}) == GraphNode(h, on, t, {})
      {
        NodeAgrees(g, h, on, t, {});
      }
    }
  }

  // ---- The builder's order

  function KeyOf(pr: ProtectedResource): (string, string) {
    (TypeOf(pr.spec), pr.name)
  }

  predicate Before(a: ProtectedResource, b: ProtectedResource) {
    PairLe(KeyOf(a), KeyOf(b))
  }

  function InOrder(prs: seq<ProtectedResource>): (sorted: seq<ProtectedResource>)
    ensures multiset(sorted) == multiset(prs)
  {
    Sort(prs, Before)
  }

  predicate DistinctNames(prs: seq<ProtectedResource>) {
    forall a, b :: a in prs && b in prs && a.name == b.name ==> a == b
  }

  lemma BeforeIsOrder()
    ensures TotalPreorder(Before)
  {
    forall a, b, c
      ensures Before(a, a) && (Before(a, b) || Before(b, a))
      ensures Before(a, b) && Before(b, c) ==> Before(a, c)
    {
      PairLaws(KeyOf(a), KeyOf(b), KeyOf(c));
    }
  }

  /** Sorting puts every listing of distinctly named registrations in one order. */
  lemma OneOrder(prs: seq<ProtectedResource>, others: seq<ProtectedResource>)
    requires multiset(prs) == multiset(others) && DistinctNames(prs)
    ensures InOrder(prs) == InOrder(others)
  {
    BeforeIsOrder();
    SortSorts(prs, Before);
    SortSorts(others, Before);
    SameElements(prs, InOrder(prs));
    forall a, b | a in InOrder(prs) && b in InOrder(prs) && Before(a, b) && Before(b, a)
      ensures a == b
    {
      PairLaws(KeyOf(a), KeyOf(b), KeyOf(a));
    }
    SortedUnique(InOrder(prs), InOrder(others), Before);
  }

  lemma SortedIsSame(prs: seq<ProtectedResource>)
    ensures SameRegistrations(prs, InOrder(prs))
  {
    SameElements(prs, InOrder(prs));
  }
}
