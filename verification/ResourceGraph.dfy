/**
 The resource hierarchy: ProtectedResources gathered into a graph of types,
 unrolled into trees from the parentless types with a check for cycles on each
 path, and folded into the permissions that each type carries.
 */
module ResourceGraph {
  import opened Names
  import opened Permissions
  import opened Sorting

  datatype ProtectedResource = ProtectedResource(name: string, deleting: bool, spec: ResourceSpec)

  /** The gathered registrations: the specs by type, the child types of each type, and the parentless types. */
  datatype Graph = Graph(specs: map<string, ResourceSpec>, children: map<string, seq<string>>, roots: seq<string>)

  datatype Node = Node(typ: string, direct: seq<string>, parents: seq<string>, children: seq<Node>)

  datatype Result<T> = Ok(value: T) | CycleDetected | ChildMissing | TypeMalformed

  // ---- Gathering

  function TypeOf(spec: ResourceSpec): string {
    TypeName(spec.service, spec.kind)
  }

  /** Registrations that are being deleted, or lack a service or a kind, are left out. */
  predicate Counts(pr: ProtectedResource) {
    !pr.deleting && pr.spec.service != "" && pr.spec.kind != ""
  }

  /** `pr` registers the type `t`. */
  predicate Registers(pr: ProtectedResource, t: string) {
    !pr.deleting && pr.spec.service != "" && pr.spec.kind != "" && TypeName(pr.spec.service, pr.spec.kind) == t
  }

  lemma RegistersMeans(pr: ProtectedResource, t: string)
    ensures Registers(pr, t) <==> Counts(pr) && TypeOf(pr.spec) == t
  {
  }

  /** `ref` names the type `parent`. */
  predicate NamesType(ref: ParentRef, parent: string) {
    ref.group != "" && ref.kind != "" && TypeName(ref.group, ref.kind) == parent
  }

  /** The parent types a spec declares; a reference without a group or a kind is skipped. */
  function ParentTypes(parents: seq<ParentRef>): seq<string> {
    if parents == [] then []
    else
      var n := |parents| - 1;
      ParentTypes(parents[..n])
      + if parents[n].group == "" || parents[n].kind == "" then [] else [TypeName(parents[n].group, parents[n].kind)]
  }

  /** Every type also has Root as a parent. */
  function EffectiveParents(spec: ResourceSpec): seq<string> {
    var declared := ParentTypes(spec.parents);
    if RootType in declared then declared else declared + [RootType]
  }

  /** The type is registered as a child of `parent`: Root, or a parent that the registration declares. */
  predicate IsChild(prs: seq<ProtectedResource>, parent: string, child: string) {
    && child != parent
    && exists pr :: pr in prs && Registers(pr, child)
                    && (parent == RootType || exists ref :: ref in pr.spec.parents && NamesType(ref, parent))
  }

  predicate IsParentless(prs: seq<ProtectedResource>, t: string) {
    exists pr :: pr in prs && Registers(pr, t) && pr.spec.parents == []
  }

  lemma {:induction false} InParentTypes(parents: seq<ParentRef>, t: string)
    ensures t in ParentTypes(parents) <==> exists ref :: ref in parents && NamesType(ref, t)
  {
    if parents != [] {
      var n := |parents| - 1;
      InParentTypes(parents[..n], t);
      assert forall ref :: ref in parents <==> ref in parents[..n] || ref == parents[n];
      assert NamesType(parents[n], t) <==>
        parents[n].group != "" && parents[n].kind != "" && TypeName(parents[n].group, parents[n].kind) == t;
    }
  }

  /** The specs by type; of two for one type the later one stays. */
  function Specs(prs: seq<ProtectedResource>): map<string, ResourceSpec> {
    if prs == [] then map[]
    else
      var n := |prs| - 1;
      var before := Specs(prs[..n]);
      if Counts(prs[n]) then before[TypeOf(prs[n].spec) := prs[n].spec] else before
  }

  /** The registration at `i` is the last of `t`. */
  predicate IsLast(prs: seq<ProtectedResource>, t: string, i: nat) {
    i < |prs| && Registers(prs[i], t) && forall j :: i < j < |prs| ==> !Registers(prs[j], t)
  }

  /** A type has a spec exactly if it has a registration, whose spec it is. */
  lemma {:induction false} SpecsRegistered(prs: seq<ProtectedResource>, t: string)
    ensures t in Specs(prs) <==> exists pr :: pr in prs && Registers(pr, t)
    ensures t in Specs(prs) ==> exists pr :: pr in prs && Registers(pr, t) && pr.spec == Specs(prs)[t]
  {
    if prs != [] {
      var n := |prs| - 1;
      SpecsRegistered(prs[..n], t);
      RegistersMeans(prs[n], t);
      assert forall pr :: pr in prs <==> pr in prs[..n] || pr == prs[n];
    }
  }

  lemma LastOfPrefix(prs: seq<ProtectedResource>, t: string, i: nat)
    requires IsLast(prs, t, i) && i < |prs| - 1
    ensures IsLast(prs[..|prs| - 1], t, i) && !Registers(prs[|prs| - 1], t)
  {
    var init := prs[..|prs| - 1];
    assert init[i] == prs[i];
    forall j | i < j < |init|
      ensures !Registers(init[j], t)
    {
      assert init[j] == prs[j];
    }
  }

  /** The spec of a type is that of its last registration. */
  lemma {:induction false} SpecIsLast(prs: seq<ProtectedResource>, t: string, i: nat)
    requires IsLast(prs, t, i)
    ensures t in Specs(prs) && Specs(prs)[t] == prs[i].spec
  {
    var n := |prs| - 1;
    RegistersMeans(prs[n], t);
    if i < n {
      LastOfPrefix(prs, t, i);
      SpecIsLast(prs[..n], t, i);
    }
  }

  function Kids(g: Graph, t: string): seq<string> {
    Under(g.children, t)
  }

  ghost predicate SortedSet(s: seq<string>) {
    Sorted(s, StringLe) && Distinct(s)
  }

  /** `g` is what the registrations describe. */
  ghost predicate Describes(g: Graph, prs: seq<ProtectedResource>) {
    && g.specs == Specs(prs)
    && (forall parent, child :: child in Kids(g, parent) <==> IsChild(prs, parent, child))
    && (forall parent :: SortedSet(Kids(g, parent)))
    && (forall t :: t in g.roots <==> IsParentless(prs, t)) && SortedSet(g.roots)
  }

  function Under(children: map<string, seq<string>>, parent: string): seq<string> {
    if parent in children then children[parent] else []
  }

  method AddChild(children: map<string, seq<string>>, parent: string, child: string)
    returns (r: map<string, seq<string>>)
    ensures forall p :: p != parent ==> Under(r, p) == Under(children, p)
    ensures Under(r, parent) ==
      if child == parent || child in Under(children, parent) then Under(children, parent) else Under(children, parent) + [child]
  {
    var was := Under(children, parent);
    if child != parent && child !in was {
      r := children[parent := was + [child]];
    } else {
      r := children;
    }
  }

  /** The children gathered before the sort: each child once, under each parent. */
  ghost predicate Gathered(children: map<string, seq<string>>, prs: seq<ProtectedResource>, extra: set<(string, string)>) {
    forall parent :: Distinct(Under(children, parent)) && forall child :: child in Under(children, parent) <==>
      IsChild(prs, parent, child) || (child != parent && (parent, child) in extra)
  }

  function Pairs(parents: seq<string>, child: string): set<(string, string)> {
    set p | p in parents :: (p, child)
  }

  method AddChildOf(children: map<string, seq<string>>, child: string, parents: seq<string>, ghost prs: seq<ProtectedResource>)
    returns (r: map<string, seq<string>>)
    requires Gathered(children, prs, {})
    ensures Gathered(r, prs, Pairs(parents, child))
  {
    r := children;
    for j := 0 to |parents|
      invariant Gathered(r, prs, Pairs(parents[..j], child))
    {
      assert forall p :: p in parents[..j + 1] <==> p in parents[..j] || p == parents[j];
      r := AddChild(r, parents[j], child);
    }
    assert parents[..|parents|] == parents;
  }

  lemma OneMoreRegistration(prs: seq<ProtectedResource>, pr: ProtectedResource, parent: string, child: string)
    ensures IsChild(prs + [pr], parent, child) <==>
      IsChild(prs, parent, child) || (child != parent && Counts(pr) && TypeOf(pr.spec) == child && parent in EffectiveParents(pr.spec))
  {
    InParentTypes(pr.spec.parents, parent);
    assert Registers(pr, child) <==> Counts(pr) && TypeOf(pr.spec) == child;
  }

  method GatherChildren(prs: seq<ProtectedResource>) returns (children: map<string, seq<string>>)
    ensures Gathered(children, prs, {})
  {
    children := map[];
    for i := 0 to |prs|
      invariant Gathered(children, prs[..i], {})
    {
      assert prs[..i + 1] == prs[..i] + [prs[i]];
      forall parent, child {
        OneMoreRegistration(prs[..i], prs[i], parent, child);
      }
      if Counts(prs[i]) {
        children := AddChildOf(children, TypeOf(prs[i].spec), EffectiveParents(prs[i].spec), prs[..i]);
      }
    }
    assert prs[..|prs|] == prs;
  }

  method GatherRoots(prs: seq<ProtectedResource>) returns (roots: seq<string>)
    ensures Distinct(roots) && forall t :: t in roots <==> IsParentless(prs, t)
  {
    roots := [];
    for i := 0 to |prs|
      invariant Distinct(roots) && forall t :: t in roots <==> IsParentless(prs[..i], t)
    {
      assert prs[..i + 1] == prs[..i] + [prs[i]];
      if Counts(prs[i]) && prs[i].spec.parents == [] && TypeOf(prs[i].spec) !in roots {
        roots := roots + [TypeOf(prs[i].spec)];
      }
    }
    assert prs[..|prs|] == prs;
  }

  lemma SortsToSet(s: seq<string>)
    requires Distinct(s)
    ensures SortedSet(SortStrings(s)) && forall x :: x in SortStrings(s) <==> x in s
  {
    StringOrder();
    SortSorts(s, StringLe);
    SortKeepsDistinct(s, SortStrings(s));
    SameElements(s, SortStrings(s));
  }

  method Gather(prs: seq<ProtectedResource>) returns (g: Graph)
    ensures Describes(g, prs)
  {
    var children := GatherChildren(prs);
    var roots := GatherRoots(prs);
    g := Graph(Specs(prs), map parent | parent in children :: SortStrings(children[parent]), SortStrings(roots));
    SortsToSet(roots);
    forall parent
      ensures SortedSet(Kids(g, parent)) && forall child :: child in Kids(g, parent) <==> IsChild(prs, parent, child)
    {
      SortsToSet(Under(children, parent));
      assert Kids(g, parent) == SortStrings(Under(children, parent));
    }
  }

  // ---- Unrolling

  function GraphNode(g: Graph, on: bool, t: string, path: set<string>): (r: Result<Node>)
    ensures r.Ok? ==> r.value.typ == t
    decreases g.specs.Keys - path, 0
  {
    if t !in g.specs then ChildMissing
    else if t in path then CycleDetected
    else
      match GraphNodes(g, on, Kids(g, t), path + {t})
      case CycleDetected => CycleDetected
      case ChildMissing => ChildMissing
      case TypeMalformed => TypeMalformed
      case Ok(children) =>
        if |Split(t, '/')| != 2 then TypeMalformed
        else Ok(Node(t, SortStrings(Enumeration(g.specs[t], on)), SortStrings(ParentTypes(g.specs[t].parents)), children))
  }

  function GraphNodes(g: Graph, on: bool, ts: seq<string>, path: set<string>): (r: Result<seq<Node>>)
    ensures r.Ok? ==> |r.value| == |ts|
    decreases g.specs.Keys - path, |ts| + 1
  {
    if ts == [] then Ok([])
    else
      var n := |ts| - 1;
      WithNode(GraphNodes(g, on, ts[..n], path), GraphNode(g, on, ts[n], path))
  }

  /** The first error met, or all the nodes. */
  function WithNode(before: Result<seq<Node>>, node: Result<Node>): (r: Result<seq<Node>>)
    ensures r.Ok? <==> before.Ok? && node.Ok?
    ensures r.Ok? ==> r.value == before.value + [node.value] && node == Ok(r.value[|before.value|])
  {
    match before
    case CycleDetected => CycleDetected
    case ChildMissing => ChildMissing
    case TypeMalformed => TypeMalformed
    case Ok(nodes) =>
      match node
      case CycleDetected => CycleDetected
      case ChildMissing => ChildMissing
      case TypeMalformed => TypeMalformed
      case Ok(last) => Ok(nodes + [last])
  }

  /** The prefix one longer, once the shorter one is built. */
  lemma OneMoreKid(g: Graph, on: bool, ts: seq<string>, i: nat, path: set<string>)
    requires i < |ts| && GraphNodes(g, on, ts[..i], path).Ok?
    ensures var node, nodes := GraphNode(g, on, ts[i], path), GraphNodes(g, on, ts[..i + 1], path);
      && (node.Ok? ==> nodes == Ok(GraphNodes(g, on, ts[..i], path).value + [node.value]))
      && (node.CycleDetected? ==> nodes.CycleDetected?) && (node.ChildMissing? ==> nodes.ChildMissing?)
      && (node.TypeMalformed? ==> nodes.TypeMalformed?)
  {
    assert ts[..i + 1][..i] == ts[..i];
  }

  /** An error in a prefix is the error of the whole. */
  lemma {:induction false} ErrorStays(g: Graph, on: bool, ts: seq<string>, i: nat, path: set<string>)
    requires i <= |ts| && !GraphNodes(g, on, ts[..i], path).Ok?
    ensures GraphNodes(g, on, ts, path) == GraphNodes(g, on, ts[..i], path)
    decreases |ts|
  {
    if i == |ts| {
      assert ts[..i] == ts;
    } else {
      var n := |ts| - 1;
      assert ts[..n][..i] == ts[..i];
      ErrorStays(g, on, ts[..n], i, path);
    }
  }

  method GetResourceGraphNode(g: Graph, on: bool, t: string, visited: set<string>) returns (r: Result<Node>)
    requires t in g.specs
    ensures r == GraphNode(g, on, t, visited)
    decreases g.specs.Keys - visited
  {
    if t in visited {
      return CycleDetected;
    }
    var path := visited + {t};
    var children, kids := [], Kids(g, t);
    for i := 0 to |kids|
      invariant GraphNodes(g, on, kids[..i], path) == Ok(children)
    {
      OneMoreKid(g, on, kids, i, path);
      if kids[i] !in g.specs {
        ErrorStays(g, on, kids, i + 1, path);
        return ChildMissing;
      }
      var child := GetResourceGraphNode(g, on, kids[i], path);
      if !child.Ok? {
        ErrorStays(g, on, kids, i + 1, path);
        match child
        case CycleDetected => return CycleDetected;
        case ChildMissing => return ChildMissing;
        case TypeMalformed => return TypeMalformed;
      }
      children := children + [child.value];
    }
    assert kids[..|kids|] == kids;
    if |Split(t, '/')| != 2 {
      return TypeMalformed;
    }
    var direct := Enumerate(g.specs[t], on);
    return Ok(Node(t, SortStrings(direct), SortStrings(ParentTypes(g.specs[t].parents)), children));
  }

  /** The whole graph: a Root node over the trees of the parentless types. */
  function ResourceGraphOf(g: Graph, on: bool): Result<Node> {
    match GraphNodes(g, on, g.roots, {})
    case CycleDetected => CycleDetected
    case ChildMissing => ChildMissing
    case TypeMalformed => TypeMalformed
    case Ok(trees) => Ok(Node(RootType, [], [], trees))
  }

  method GetResourceGraph(prs: seq<ProtectedResource>, on: bool) returns (r: Result<Node>, ghost g: Graph)
    ensures Describes(g, prs) && r == ResourceGraphOf(g, on)
  {
    var gathered := Gather(prs);
    g := gathered;
    if prs == [] {
      DistinctSameElements(g.roots, []);
      SameElements(g.roots, []);
      return Ok(Node(RootType, [], [], [])), g;
    }
    var nodes := [];
    for i := 0 to |gathered.roots|
      invariant GraphNodes(g, on, g.roots[..i], {}) == Ok(nodes)
    {
      OneMoreKid(g, on, g.roots, i, {});
      assert g.roots[i] in g.roots && IsParentless(prs, g.roots[i]);
      SpecsRegistered(prs, g.roots[i]);
      var node := GetResourceGraphNode(gathered, on, gathered.roots[i], {});
      if !node.Ok? {
        ErrorStays(g, on, g.roots, i + 1, {});
        return node, g;
      }
      nodes := nodes + [node.value];
    }
    assert g.roots[..|g.roots|] == g.roots;
    return Ok(Node(RootType, [], [], nodes)), g;
  }

  // ---- Reachability and cycles

  /** A chain of types, each a child of the one before. */
  ghost predicate Walk(g: Graph, w: seq<string>) {
    |w| > 0 && forall i :: 0 <= i < |w| - 1 ==> w[i + 1] in Kids(g, w[i])
  }

  ghost predicate Leads(g: Graph, w: seq<string>, t: string, x: string) {
    Walk(g, w) && w[0] == t && w[|w| - 1] == x
  }

  /** `x` is `t` or a descendant of it. */
  ghost predicate Descends(g: Graph, t: string, x: string) {
    exists w :: Leads(g, w, t, x)
  }

  ghost predicate Repeats(w: seq<string>) {
    exists i, j :: 0 <= i < j < |w| && w[i] == w[j]
  }

  /** A cycle can be reached from `t`: some chain from it meets a type twice. */
  ghost predicate CycleReachable(g: Graph, t: string) {
    exists w :: Walk(g, w) && w[0] == t && Repeats(w)
  }

  /** The types of a graph: registered, and well formed. */
  ghost predicate WellTyped(g: Graph) {
    forall t, x :: t in g.specs && x in Kids(g, t) ==> x in g.specs
  }

  ghost predicate WellNamed(g: Graph) {
    forall t :: t in g.specs ==> |Split(t, '/')| == 2
  }

  /** A chain from `t` that ends on the path so far, or on itself. */
  ghost predicate Blocks(g: Graph, path: set<string>, t: string, w: seq<string>) {
    Walk(g, w) && w[0] == t && (w[|w| - 1] in path || w[|w| - 1] in w[..|w| - 1])
  }

  lemma WalkTail(g: Graph, w: seq<string>)
    requires Walk(g, w) && |w| > 1
    ensures Walk(g, w[1..]) && w[1] in Kids(g, w[0])
  {
  }

  lemma WalkCons(g: Graph, t: string, w: seq<string>)
    requires Walk(g, w) && w[0] in Kids(g, t)
    ensures Walk(g, [t] + w)
  {
  }

  /** A chain that blocks makes the unrolling fail. */
  lemma {:induction false} BlockedFails(g: Graph, on: bool, t: string, path: set<string>, w: seq<string>)
    requires Blocks(g, path, t, w)
    ensures !GraphNode(g, on, t, path).Ok?
    decreases |w|
  {
    if |w| > 1 && t in g.specs && t !in path {
      WalkTail(g, w);
      var v, last := w[1..], |w| - 1;
      if w[last] in w[..last] {
        var i :| 0 <= i < last && w[i] == w[last];
        assert i > 0 ==> v[..|v| - 1][i - 1] == w[last];
      }
      BlockedFails(g, on, w[1], path + {t}, v);
      KidFails(g, on, Kids(g, t), path + {t}, w[1]);
    }
  }

  lemma {:induction false} KidFails(g: Graph, on: bool, ts: seq<string>, path: set<string>, t: string)
    requires t in ts && !GraphNode(g, on, t, path).Ok?
    ensures !GraphNodes(g, on, ts, path).Ok?
  {
    var n := |ts| - 1;
    if t != ts[n] {
      KidFails(g, on, ts[..n], path, t);
    }
  }

  /** Where the unrolling fails, a chain blocks it. */
  lemma {:induction false} FailsBlocked(g: Graph, on: bool, t: string, path: set<string>) returns (w: seq<string>)
    requires WellTyped(g) && WellNamed(g) && t in g.specs && !GraphNode(g, on, t, path).Ok?
    ensures Blocks(g, path, t, w)
    decreases g.specs.Keys - path
  {
    if t in path {
      w := [t];
    } else {
      var kid := FailedKid(g, on, Kids(g, t), path + {t});
      var v := FailsBlocked(g, on, kid, path + {t});
      w := [t] + v;
      WalkCons(g, t, v);
      assert w[..|w| - 1] == [t] + v[..|v| - 1];
    }
  }

  lemma {:induction false} FailedKid(g: Graph, on: bool, ts: seq<string>, path: set<string>) returns (t: string)
    requires !GraphNodes(g, on, ts, path).Ok?
    ensures t in ts && !GraphNode(g, on, t, path).Ok?
  {
    var n := |ts| - 1;
    if GraphNodes(g, on, ts[..n], path).Ok? {
      t := ts[n];
    } else {
      t := FailedKid(g, on, ts[..n], path);
    }
  }

  /** A chain cut after its first repetition blocks itself. */
  lemma CycleBlocks(g: Graph, t: string) returns (v: seq<string>)
    requires CycleReachable(g, t)
    ensures Blocks(g, {}, t, v)
  {
    var w :| Walk(g, w) && w[0] == t && Repeats(w);
    var i, j :| 0 <= i < j < |w| && w[i] == w[j];
    v := w[..j + 1];
    assert v[..j][i] == v[j];
    forall k | 0 <= k < |v| - 1
      ensures v[k + 1] in Kids(g, v[k])
    {
      assert w[k + 1] in Kids(g, w[k]);
    }
  }

  lemma BlockIsCycle(g: Graph, t: string, w: seq<string>)
    requires Blocks(g, {}, t, w)
    ensures CycleReachable(g, t)
  {
  }

  /** The tree of a type cannot be built exactly when a cycle can be reached from it. */
  lemma NodeFailsIffCycle(g: Graph, on: bool, t: string)
    requires WellTyped(g) && WellNamed(g) && t in g.specs
    ensures !GraphNode(g, on, t, {}).Ok? <==> CycleReachable(g, t)
  {
    if CycleReachable(g, t) {
      var v := CycleBlocks(g, t);
      BlockedFails(g, on, t, {}, v);
    } else if !GraphNode(g, on, t, {}).Ok? {
      var w := FailsBlocked(g, on, t, {});
      BlockIsCycle(g, t, w);
    }
  }

  /** The names Kubernetes admits: a group and a kind have no slash. */
  predicate SlashlessTypes(prs: seq<ProtectedResource>) {
    forall pr :: pr in prs ==> '/' !in pr.spec.service && '/' !in pr.spec.kind
  }

  lemma RegisteredSplits(pr: ProtectedResource, t: string)
    requires Registers(pr, t) && '/' !in pr.spec.service && '/' !in pr.spec.kind
    ensures |Split(t, '/')| == 2
  {
    CutOf(pr.spec.service, pr.spec.kind, '/');
    assert t[|pr.spec.service|] == '/';
  }

  lemma DescribedIsWellFormed(g: Graph, prs: seq<ProtectedResource>)
    requires Describes(g, prs) && SlashlessTypes(prs)
    ensures WellTyped(g) && WellNamed(g)
    ensures forall t :: t in g.roots ==> t in g.specs
  {
    forall t | t in g.roots
      ensures t in g.specs
    {
      assert IsParentless(prs, t);
      SpecsRegistered(prs, t);
    }
    forall parent, child | child in Kids(g, parent)
      ensures child in g.specs
    {
      assert IsChild(prs, parent, child);
      SpecsRegistered(prs, child);
    }
    forall t | t in g.specs
      ensures |Split(t, '/')| == 2
    {
      SpecsRegistered(prs, t);
      var pr :| pr in prs && Registers(pr, t);
      RegisteredSplits(pr, t);
    }
  }

  lemma RootsFailIffCycle(g: Graph, on: bool)
    requires WellTyped(g) && WellNamed(g) && forall t :: t in g.roots ==> t in g.specs
    ensures !ResourceGraphOf(g, on).Ok? <==> exists t :: t in g.roots && CycleReachable(g, t)
  {
    if !ResourceGraphOf(g, on).Ok? {
      var t := FailedKid(g, on, g.roots, {});
      NodeFailsIffCycle(g, on, t);
    } else {
      forall t | t in g.roots
        ensures !CycleReachable(g, t)
      {
        NodeFailsIffCycle(g, on, t);
        if !GraphNode(g, on, t, {}).Ok? {
          KidFails(g, on, g.roots, {}, t);
        }
      }
    }
  }

  /** Building the graph fails exactly when a cycle can be reached from a parentless type. */
  lemma GraphFailsIffCycle(g: Graph, prs: seq<ProtectedResource>, on: bool)
    requires Describes(g, prs) && SlashlessTypes(prs)
    ensures !ResourceGraphOf(g, on).Ok? <==> exists t :: IsParentless(prs, t) && CycleReachable(g, t)
  {
    DescribedIsWellFormed(g, prs);
    RootsFailIffCycle(g, on);
    assert forall t :: t in g.roots <==> IsParentless(prs, t);
  }
}
