/**
 Hierarchical permissions: the memoised fold that gives each type its own
 permissions and those of every type below it.
 */
module Hierarchy {
  import opened Names
  import opened Permissions
  import opened Sorting
  import opened ResourceGraph

  /** `n` is the tree of its type, unrolled below some path. */
  ghost predicate IsNode(g: Graph, on: bool, n: Node) {
    exists path :: GraphNode(g, on, n.typ, path) == Ok(n)
  }

  function AllPermissions(n: Node): seq<string>
    decreases n
  {
    n.direct + PermissionsOfAll(n.children)
  }

  function PermissionsOfAll(ns: seq<Node>): seq<string>
    decreases ns
  {
    if ns == [] then [] else PermissionsOfAll(ns[..|ns| - 1]) + AllPermissions(ns[|ns| - 1])
  }

  function TreeTypes(n: Node): set<string>
    decreases n
  {
    {n.typ} + TypesOfAll(n.children)
  }

  function TypesOfAll(ns: seq<Node>): set<string>
    decreases ns
  {
    if ns == [] then {} else TypesOfAll(ns[..|ns| - 1]) + TreeTypes(ns[|ns| - 1])
  }

  function NodePermissions(n: Node): seq<string> {
    Canonical(AllPermissions(n))
  }

  // ---- Trees

  lemma LastNode(g: Graph, on: bool, ts: seq<string>, path: set<string>)
    requires GraphNodes(g, on, ts, path).Ok? && ts != []
    ensures var n := |ts| - 1;
      && GraphNode(g, on, ts[n], path) == Ok(GraphNodes(g, on, ts, path).value[n])
      && GraphNodes(g, on, ts[..n], path) == Ok(GraphNodes(g, on, ts, path).value[..n])
  {
  }

  lemma {:induction false} NodesAre(g: Graph, on: bool, ts: seq<string>, path: set<string>, i: nat)
    requires GraphNodes(g, on, ts, path).Ok? && i < |ts|
    ensures GraphNode(g, on, ts[i], path) == Ok(GraphNodes(g, on, ts, path).value[i])
    decreases |ts|
  {
    LastNode(g, on, ts, path);
    if i < |ts| - 1 {
      NodesAre(g, on, ts[..|ts| - 1], path, i);
    }
  }

  /** A type has one tree, whatever the path above it. */
  lemma {:induction false} NodeUnique(g: Graph, on: bool, t: string, p: set<string>, q: set<string>)
    requires GraphNode(g, on, t, p).Ok? && GraphNode(g, on, t, q).Ok?
    ensures GraphNode(g, on, t, p) == GraphNode(g, on, t, q)
    decreases g.specs.Keys - p
  {
    var kids := Kids(g, t);
    var a, b := GraphNodes(g, on, kids, p + {t}).value, GraphNodes(g, on, kids, q + {t}).value;
    forall i | 0 <= i < |kids|
      ensures a[i] == b[i]
    {
      NodesAre(g, on, kids, p + {t}, i);
      NodesAre(g, on, kids, q + {t}, i);
      NodeUnique(g, on, kids[i], p + {t}, q + {t});
    }
    assert a == b;
  }

  lemma {:induction false} InAll(ns: seq<Node>)
    ensures forall p :: p in PermissionsOfAll(ns) <==> exists n :: n in ns && p in AllPermissions(n)
    ensures forall x :: x in TypesOfAll(ns) <==> exists n :: n in ns && x in TreeTypes(n)
  {
    if ns != [] {
      var last := |ns| - 1;
      InAll(ns[..last]);
      assert forall n :: n in ns <==> n in ns[..last] || n == ns[last];
      assert ns[last] in ns;
      assert forall n :: n in ns[..last] ==> n in ns;
    }
  }

  lemma DescendsSelf(g: Graph, t: string)
    ensures Descends(g, t, t)
  {
    assert Leads(g, [t], t, t);
  }

  /** A descendant is the type itself, or a descendant of one of its children. */
  lemma DescendsVia(g: Graph, t: string, x: string)
    ensures Descends(g, t, x) <==> x == t || exists kid :: kid in Kids(g, t) && Descends(g, kid, x)
  {
    DescendsSelf(g, t);
    if Descends(g, t, x) && x != t {
      var w :| Leads(g, w, t, x);
      WalkTail(g, w);
      assert Leads(g, w[1..], w[1], x);
    }
    if kid :| kid in Kids(g, t) && Descends(g, kid, x) {
      var w :| Leads(g, w, kid, x);
      WalkCons(g, t, w);
      assert Leads(g, [t] + w, t, x);
    }
  }

  lemma {:induction false} DescendsTrans(g: Graph, t: string, x: string, y: string)
    requires Descends(g, t, x) && y in Kids(g, x)
    ensures Descends(g, t, y)
  {
    var w :| Leads(g, w, t, x);
    var v := w + [y];
    forall i | 0 <= i < |v| - 1
      ensures v[i + 1] in Kids(g, v[i])
    {
      if i < |w| - 1 {
        assert w[i + 1] in Kids(g, w[i]);
      }
    }
    assert Leads(g, v, t, y);
  }

  /** A permission that `t` or a type below it registers. */
  ghost predicate RegisteredBelow(g: Graph, on: bool, t: string, p: string) {
    exists x :: x in g.specs && Descends(g, t, x) && p in Enumeration(g.specs[x], on)
  }

  /** The tree of a type holds exactly its descendants, and their permissions. */
  lemma {:induction false} TreeMeans(g: Graph, on: bool, t: string, path: set<string>)
    requires GraphNode(g, on, t, path).Ok?
    ensures forall x :: x in TreeTypes(GraphNode(g, on, t, path).value) <==> Descends(g, t, x)
    ensures forall p :: p in AllPermissions(GraphNode(g, on, t, path).value) <==> RegisteredBelow(g, on, t, p)
    decreases g.specs.Keys - path
  {
    var n, kids := GraphNode(g, on, t, path).value, Kids(g, t);
    forall i | 0 <= i < |kids|
      ensures forall x :: x in TreeTypes(n.children[i]) <==> Descends(g, kids[i], x)
      ensures forall p :: p in AllPermissions(n.children[i]) <==> RegisteredBelow(g, on, kids[i], p)
    {
      NodesAre(g, on, kids, path + {t}, i);
      TreeMeans(g, on, kids[i], path + {t});
    }
    InAll(n.children);
    SameElements(n.direct, Enumeration(g.specs[t], on));
    forall x
      ensures x in TreeTypes(n) <==> Descends(g, t, x)
    {
      TypesVia(g, n, t, x);
    }
    forall p
      ensures p in AllPermissions(n) <==> RegisteredBelow(g, on, t, p)
    {
      PermissionsVia(g, on, n, t, p);
    }
  }

  lemma TypesVia(g: Graph, n: Node, t: string, x: string)
    requires n.typ == t && |n.children| == |Kids(g, t)|
    requires forall i :: 0 <= i < |n.children| ==> (x in TreeTypes(n.children[i]) <==> Descends(g, Kids(g, t)[i], x))
    ensures x in TreeTypes(n) <==> Descends(g, t, x)
  {
    InAll(n.children);
    DescendsVia(g, t, x);
    if kid :| kid in Kids(g, t) && Descends(g, kid, x) {
      var i :| 0 <= i < |Kids(g, t)| && Kids(g, t)[i] == kid;
      assert n.children[i] in n.children;
    }
  }

  lemma InNode(n: Node, p: string)
    ensures p in AllPermissions(n) <==> p in n.direct || exists i :: 0 <= i < |n.children| && p in AllPermissions(n.children[i])
  {
    InAll(n.children);
    assert p in AllPermissions(n) <==> p in n.direct || p in PermissionsOfAll(n.children);
  }

  lemma PermissionsVia(g: Graph, on: bool, n: Node, t: string, p: string)
    requires t in g.specs && |n.children| == |Kids(g, t)|
    requires forall q :: q in n.direct <==> q in Enumeration(g.specs[t], on)
    requires forall i :: 0 <= i < |n.children| ==>
      (p in AllPermissions(n.children[i]) <==> RegisteredBelow(g, on, Kids(g, t)[i], p))
    ensures p in AllPermissions(n) <==> RegisteredBelow(g, on, t, p)
  {
    InNode(n, p);
    DescendsSelf(g, t);
    if i :| 0 <= i < |n.children| && p in AllPermissions(n.children[i]) {
      var x :| x in g.specs && Descends(g, Kids(g, t)[i], x) && p in Enumeration(g.specs[x], on);
      DescendsVia(g, t, x);
    }
    if RegisteredBelow(g, on, t, p) {
      var x :| x in g.specs && Descends(g, t, x) && p in Enumeration(g.specs[x], on);
      DescendsVia(g, t, x);
      if x != t {
        var kid :| kid in Kids(g, t) && Descends(g, kid, x);
        var i :| 0 <= i < |Kids(g, t)| && Kids(g, t)[i] == kid;
        assert RegisteredBelow(g, on, Kids(g, t)[i], p);
      }
    }
  }

  // ---- The memoised fold

  class PermissionsMap {
    var entries: map<string, seq<string>>

    constructor ()
      ensures entries == map[]
    {
      entries := map[];
    }
  }

  /** Each entry is the answer for its type, and the types below it have theirs. */
  ghost predicate MemoOk(g: Graph, on: bool, memo: map<string, seq<string>>) {
    forall n :: IsNode(g, on, n) && n.typ in memo ==> EntryOk(memo, n)
  }

  ghost predicate EntryOk(memo: map<string, seq<string>>, n: Node)
    requires n.typ in memo
  {
    memo[n.typ] == NodePermissions(n) && TreeTypes(n) <= memo.Keys
  }

  ghost predicate SameStrings(s: seq<string>, r: seq<string>) {
    forall x :: x in s <==> x in r
  }

  lemma JoinsSame(s: seq<string>, r: seq<string>, t: seq<string>, u: seq<string>)
    requires SameStrings(s, r) && SameStrings(t, u)
    ensures SameStrings(s + t, r + u)
  {
  }

  lemma CanonicalSame(s: seq<string>, r: seq<string>)
    requires SameStrings(s, r)
    ensures Canonical(s) == Canonical(r)
  {
    CanonicalIs(s);
    CanonicalUnique(Canonical(s), r);
  }

  lemma ChildrenAreNodes(g: Graph, on: bool, n: Node)
    requires IsNode(g, on, n)
    ensures forall child :: child in n.children ==> IsNode(g, on, child)
  {
    var path :| GraphNode(g, on, n.typ, path) == Ok(n);
    ChildrenBuilt(g, on, n, path);
    forall child | child in n.children
      ensures IsNode(g, on, child)
    {
      var i :| 0 <= i < |n.children| && n.children[i] == child;
      assert GraphNode(g, on, child.typ, path + {n.typ}) == Ok(child);
    }
  }

  lemma ChildrenBuilt(g: Graph, on: bool, n: Node, path: set<string>)
    requires GraphNode(g, on, n.typ, path) == Ok(n)
    ensures forall i :: 0 <= i < |n.children| ==> GraphNode(g, on, n.children[i].typ, path + {n.typ}) == Ok(n.children[i])
  {
    forall i | 0 <= i < |n.children|
      ensures GraphNode(g, on, n.children[i].typ, path + {n.typ}) == Ok(n.children[i])
    {
      NodesAre(g, on, Kids(g, n.typ), path + {n.typ}, i);
    }
  }

  lemma NodesEqual(g: Graph, on: bool, n: Node, m: Node)
    requires IsNode(g, on, n) && IsNode(g, on, m) && n.typ == m.typ
    ensures n == m
  {
    var p :| GraphNode(g, on, n.typ, p) == Ok(n);
    var q :| GraphNode(g, on, m.typ, q) == Ok(m);
    NodeUnique(g, on, n.typ, p, q);
  }

  lemma MemoAdds(g: Graph, on: bool, memo: map<string, seq<string>>, n: Node)
    requires MemoOk(g, on, memo) && IsNode(g, on, n) && TypesOfAll(n.children) <= memo.Keys
    ensures MemoOk(g, on, memo[n.typ := NodePermissions(n)])
  {
    var grown := memo[n.typ := NodePermissions(n)];
    forall m | IsNode(g, on, m) && m.typ in grown
      ensures EntryOk(grown, m)
    {
      if m.typ == n.typ {
        NodesEqual(g, on, m, n);
      } else {
        assert EntryOk(memo, m);
      }
    }
  }

  lemma MemoHit(g: Graph, on: bool, memo: map<string, seq<string>>, n: Node)
    requires MemoOk(g, on, memo) && IsNode(g, on, n) && n.typ in memo
    ensures memo[n.typ] == NodePermissions(n) && memo.Keys == memo.Keys + TreeTypes(n)
  {
    assert EntryOk(memo, n);
  }

  /** One step of the fold: a node's own permissions joined with its children's are its answer. */
  lemma FoldStep(g: Graph, on: bool, memo: map<string, seq<string>>, n: Node, below: seq<string>, permissions: seq<string>)
    requires MemoOk(g, on, memo) && IsNode(g, on, n) && TypesOfAll(n.children) <= memo.Keys
    requires SameStrings(below, PermissionsOfAll(n.children)) && permissions == Canonical(n.direct + below)
    ensures permissions == NodePermissions(n)
    ensures MemoOk(g, on, memo[n.typ := permissions])
    ensures memo[n.typ := permissions].Keys == memo.Keys + TreeTypes(n)
  {
    JoinsSame(n.direct, n.direct, below, PermissionsOfAll(n.children));
    CanonicalSame(n.direct + below, AllPermissions(n));
    MemoAdds(g, on, memo, n);
  }

  ghost predicate AreNodes(g: Graph, on: bool, ns: seq<Node>) {
    forall n :: n in ns ==> IsNode(g, on, n)
  }

  method CalculatePermissionsForNode(node: Node, memo: PermissionsMap, ghost g: Graph, ghost on: bool)
    returns (permissions: seq<string>)
    requires RootType !in g.specs && MemoOk(g, on, memo.entries)
    requires if node.typ == RootType then AreNodes(g, on, node.children) else IsNode(g, on, node)
    modifies memo
    ensures MemoOk(g, on, memo.entries)
    ensures permissions == if node.typ == RootType then [] else NodePermissions(node)
    ensures memo.entries.Keys ==
      old(memo.entries.Keys) + if node.typ == RootType then TypesOfAll(node.children) else TreeTypes(node)
    decreases node, 2
  {
    if node.typ == RootType {
      var _ := CalculatePermissionsForNodes(node.children, memo, g, on);
      return [];
    }
    permissions := CalculatePermissionsBelowRoot(node, memo, g, on);
  }

  method CalculatePermissionsBelowRoot(node: Node, memo: PermissionsMap, ghost g: Graph, ghost on: bool)
    returns (permissions: seq<string>)
    requires RootType !in g.specs && MemoOk(g, on, memo.entries) && IsNode(g, on, node)
    modifies memo
    ensures MemoOk(g, on, memo.entries)
    ensures permissions == NodePermissions(node)
    ensures memo.entries.Keys == old(memo.entries.Keys) + TreeTypes(node)
    decreases node, 1
  {
    if node.typ in memo.entries {
      MemoHit(g, on, memo.entries, node);
      return memo.entries[node.typ];
    }
    permissions := FoldNode(node, memo, g, on);
  }

  /** A node that the memo does not have yet. */
  method FoldNode(node: Node, memo: PermissionsMap, ghost g: Graph, ghost on: bool) returns (permissions: seq<string>)
    requires RootType !in g.specs && MemoOk(g, on, memo.entries) && IsNode(g, on, node)
    modifies memo
    ensures MemoOk(g, on, memo.entries)
    ensures permissions == NodePermissions(node)
    ensures memo.entries.Keys == old(memo.entries.Keys) + TreeTypes(node)
    decreases node, 0
  {
    ChildrenAreNodes(g, on, node);
    var below := CalculatePermissionsForNodes(node.children, memo, g, on);
    permissions := Canonical(node.direct + below);
    FoldStep(g, on, memo.entries, node, below, permissions);
    memo.entries := memo.entries[node.typ := permissions];
  }

  /** The children's answers, one after the other. */
  method CalculatePermissionsForNodes(nodes: seq<Node>, memo: PermissionsMap, ghost g: Graph, ghost on: bool)
    returns (all: seq<string>)
    requires RootType !in g.specs && MemoOk(g, on, memo.entries) && AreNodes(g, on, nodes)
    modifies memo
    ensures MemoOk(g, on, memo.entries)
    ensures memo.entries.Keys == old(memo.entries.Keys) + TypesOfAll(nodes)
    ensures SameStrings(all, PermissionsOfAll(nodes))
    decreases nodes
  {
    all := [];
    for i := 0 to |nodes|
      invariant MemoOk(g, on, memo.entries)
      invariant memo.entries.Keys == old(memo.entries.Keys) + TypesOfAll(nodes[..i])
      invariant SameStrings(all, PermissionsOfAll(nodes[..i]))
    {
      OneMoreNode(nodes, i);
      NotRoot(g, on, nodes[i]);
      var child := CalculatePermissionsForNode(nodes[i], memo, g, on);
      CanonicalIs(AllPermissions(nodes[i]));
      JoinsSame(all, PermissionsOfAll(nodes[..i]), child, AllPermissions(nodes[i]));
      all := all + child;
    }
    assert nodes[..|nodes|] == nodes;
  }

  lemma OneMoreNode(nodes: seq<Node>, i: nat)
    requires i < |nodes|
    ensures TypesOfAll(nodes[..i + 1]) == TypesOfAll(nodes[..i]) + TreeTypes(nodes[i])
    ensures PermissionsOfAll(nodes[..i + 1]) == PermissionsOfAll(nodes[..i]) + AllPermissions(nodes[i])
  {
    assert nodes[..i + 1][..i] == nodes[..i];
  }

  lemma NotRoot(g: Graph, on: bool, n: Node)
    requires RootType !in g.specs && IsNode(g, on, n)
    ensures n.typ != RootType
  {
  }

  // ---- The permissions of each type

  /** The types of the graph: the parentless ones and all below them. */
  ghost predicate InGraph(g: Graph, t: string) {
    exists r :: r in g.roots && Descends(g, r, t)
  }

  /** The answer of the fold, stated on the graph. */
  function HierarchyOf(g: Graph, on: bool): map<string, seq<string>>
    requires ResourceGraphOf(g, on).Ok?
  {
    map t | t in TypesOfAll(ResourceGraphOf(g, on).value.children) && GraphNode(g, on, t, {}).Ok? ::
      NodePermissions(GraphNode(g, on, t, {}).value)
  }

  method CalculateHierarchicalPermissions(root: Node, ghost g: Graph, ghost on: bool)
    returns (hierarchy: map<string, seq<string>>)
    requires ResourceGraphOf(g, on) == Ok(root)
    requires RootType !in g.specs && WellTyped(g) && WellNamed(g) && forall t :: t in g.roots ==> t in g.specs
    ensures hierarchy == HierarchyOf(g, on)
  {
    TreesAreNodes(g, on);
    var memo := new PermissionsMap();
    var _ := CalculatePermissionsForNode(root, memo, g, on);
    hierarchy := memo.entries;
    MemoIsHierarchy(g, on, root, hierarchy);
  }

  lemma MemoIsHierarchy(g: Graph, on: bool, root: Node, memo: map<string, seq<string>>)
    requires ResourceGraphOf(g, on) == Ok(root) && MemoOk(g, on, memo) && memo.Keys == TypesOfAll(root.children)
    requires WellTyped(g) && WellNamed(g) && forall t :: t in g.roots ==> t in g.specs
    ensures memo == HierarchyOf(g, on)
  {
    forall t | t in TypesOfAll(root.children)
      ensures GraphNode(g, on, t, {}).Ok? && memo[t] == NodePermissions(GraphNode(g, on, t, {}).value)
    {
      GraphTypes(g, on, t);
      MemoEntry(g, on, memo, t);
    }
  }

  lemma MemoEntry(g: Graph, on: bool, memo: map<string, seq<string>>, t: string)
    requires MemoOk(g, on, memo) && t in memo && GraphNode(g, on, t, {}).Ok?
    ensures memo[t] == NodePermissions(GraphNode(g, on, t, {}).value)
  {
    var n := GraphNode(g, on, t, {}).value;
    assert GraphNode(g, on, n.typ, {}) == Ok(n);
    assert IsNode(g, on, n);
  }

  lemma TreesAreNodes(g: Graph, on: bool)
    requires ResourceGraphOf(g, on).Ok?
    ensures var trees := ResourceGraphOf(g, on).value.children;
      |trees| == |g.roots| && forall i :: 0 <= i < |trees| ==> GraphNode(g, on, g.roots[i], {}) == Ok(trees[i])
    ensures forall tree :: tree in ResourceGraphOf(g, on).value.children ==> IsNode(g, on, tree)
  {
    var trees := ResourceGraphOf(g, on).value.children;
    forall i | 0 <= i < |trees|
      ensures GraphNode(g, on, g.roots[i], {}) == Ok(trees[i]) && IsNode(g, on, trees[i])
    {
      NodesAre(g, on, g.roots, {}, i);
      assert trees[i].typ == g.roots[i];
    }
    forall tree | tree in trees
      ensures IsNode(g, on, tree)
    {
      var i :| 0 <= i < |trees| && trees[i] == tree;
    }
  }

  /** No cycle can be reached from a type that is reached from one where none can. */
  lemma CyclesCarryUp(g: Graph, t: string, x: string)
    requires Descends(g, t, x) && CycleReachable(g, x)
    ensures CycleReachable(g, t)
  {
    var w :| Leads(g, w, t, x);
    var v :| Walk(g, v) && v[0] == x && Repeats(v);
    var i, j :| 0 <= i < j < |v| && v[i] == v[j];
    var n := |w| - 1;
    var u := w[..n] + v;
    forall k | 0 <= k < |u| - 1
      ensures u[k + 1] in Kids(g, u[k])
    {
      if k < n {
        assert w[k + 1] in Kids(g, w[k]);
      } else {
        assert v[k - n + 1] in Kids(g, v[k - n]);
      }
    }
    assert Walk(g, u) && u[0] == t;
    assert u[n + i] == u[n + j] && Repeats(u);
  }

  /** The trees hold exactly the types of the graph. */
  lemma TreesHoldGraph(g: Graph, on: bool, t: string)
    requires ResourceGraphOf(g, on).Ok?
    ensures t in TypesOfAll(ResourceGraphOf(g, on).value.children) <==> InGraph(g, t)
  {
    var trees := ResourceGraphOf(g, on).value.children;
    TreesAreNodes(g, on);
    InAll(trees);
    forall i | 0 <= i < |trees|
      ensures t in TreeTypes(trees[i]) <==> Descends(g, g.roots[i], t)
    {
      TreeMeans(g, on, g.roots[i], {});
      assert trees[i] in trees;
    }
  }

  /** They do, and each type of the graph is registered, below no cycle, and has its own tree. */
  lemma GraphTypes(g: Graph, on: bool, t: string)
    requires ResourceGraphOf(g, on).Ok?
    requires WellTyped(g) && WellNamed(g) && forall r :: r in g.roots ==> r in g.specs
    ensures t in TypesOfAll(ResourceGraphOf(g, on).value.children) <==> InGraph(g, t)
    ensures InGraph(g, t) ==> t in g.specs && GraphNode(g, on, t, {}).Ok? && !CycleReachable(g, t)
  {
    TreesHoldGraph(g, on, t);
    if InGraph(g, t) {
      var r :| r in g.roots && Descends(g, r, t);
      DescendantRegistered(g, r, t);
      RootsFailIffCycle(g, on);
      if CycleReachable(g, t) {
        CyclesCarryUp(g, r, t);
      }
      NodeFailsIffCycle(g, on, t);
    }
  }

  lemma {:induction false} DescendantRegistered(g: Graph, t: string, x: string)
    requires WellTyped(g) && t in g.specs && Descends(g, t, x)
    ensures x in g.specs
  {
    var w :| Leads(g, w, t, x);
    for i := 0 to |w| - 1
      invariant w[i] in g.specs
    {
      assert w[i + 1] in Kids(g, w[i]);
    }
  }

  /**
   The fold's answer for each type of the graph: sorted, each once, exactly the
   permissions that the type and its descendants register.
   */
  lemma HierarchyMeans(g: Graph, on: bool, t: string)
    requires ResourceGraphOf(g, on).Ok?
    requires WellTyped(g) && WellNamed(g) && forall r :: r in g.roots ==> r in g.specs
    ensures t in HierarchyOf(g, on) <==> InGraph(g, t)
    ensures InGraph(g, t) ==>
      SortedSet(HierarchyOf(g, on)[t]) && forall p :: p in HierarchyOf(g, on)[t] <==> RegisteredBelow(g, on, t, p)
  {
    GraphTypes(g, on, t);
    if InGraph(g, t) {
      TreeMeans(g, on, t, {});
      CanonicalIs(AllPermissions(GraphNode(g, on, t, {}).value));
    }
  }
}
