/**
 The OpenFGA authorization model: built from the resource hierarchy, and merged
 with the type definitions that were written by hand.
 */
module AuthorizationModel {
  import opened Names
  import opened Sorting
  import R = ResourceGraph
  import opened Hierarchy
  import opened Snapshots
  import opened Wrappers

  /** A kind of user a relation admits: the objects of a type, or the usersets `typ#relation`. */
  datatype TypeRef = TypeRef(typ: string, relation: string)

  datatype Userset =
    | This
    | Computed(relation: string)
    | TupleToUserset(tupleset: string, computed: string)
    | Union(children: seq<Userset>)

  datatype TypeDefinition = TypeDefinition(
    typ: string,
    relations: map<string, Userset>,
    related: map<string, seq<TypeRef>>)

  datatype Model = Model(schema: string, types: seq<TypeDefinition>, conditions: map<string, string>)

  type Hash = string -> string

  const SchemaVersion := "1.2"

  // ---- Type definitions

  function Elements(s: seq<string>): set<string> {
    set x | x in s
  }

  function Hashes(hash: Hash, permissions: set<string>): set<string> {
    set p | p in permissions :: hash(p)
  }

  function RefsTo(types: seq<string>): seq<TypeRef> {
    seq(|types|, i requires 0 <= i < |types| => TypeRef(types[i], ""))
  }

  /** Users and the members of groups may hold a permission directly. */
  const Holders := [TypeRef(InternalUserType, ""), TypeRef(InternalUserGroupType, MemberRelation)]

  function PermissionUserset(parents: seq<string>, relation: string): Userset {
    if parents == [] then This else Union([This, TupleToUserset(ParentRelation, relation)])
  }

  function ParentRelations(parents: seq<string>): map<string, Userset> {
    if parents == [] then map[] else map[ParentRelation := This]
  }

  function ParentRefs(parents: seq<string>): map<string, seq<TypeRef>> {
    if parents == [] then map[] else map[ParentRelation := RefsTo(SortStrings(parents))]
  }

  function MapOver<V>(value: string -> V, keys: set<string>): map<string, V> {
    map k | k in keys :: value(k)
  }

  lemma MapJoins<V>(value: string -> V, s: set<string>, r: set<string>)
    ensures MapOver(value, s) + MapOver(value, r) == MapOver(value, s + r)
  {
  }

  lemma MapOfOne<V>(value: string -> V, k: string)
    ensures map[k := value(k)] == MapOver(value, {k})
  {
  }

  lemma MapGrows<V>(m: map<string, V>, value: string -> V, keys: set<string>, k: string)
    ensures m + MapOver(value, keys + {k}) == (m + MapOver(value, keys))[k := value(k)]
  {
  }

  function Usersets(parents: seq<string>): string -> Userset {
    relation => PermissionUserset(parents, relation)
  }

  function HoldersOfAny(): string -> seq<TypeRef> {
    relation => Holders
  }

  /** A type with a relation for each of `permissions`, held directly or through a parent. */
  function ResourceType(hash: Hash, t: string, parents: seq<string>, permissions: set<string>): TypeDefinition {
    Relating(t, parents, Hashes(hash, permissions))
  }

  function Relating(t: string, parents: seq<string>, relations: set<string>): TypeDefinition {
    TypeDefinition(
      t,
      ParentRelations(parents) + MapOver(Usersets(parents), relations),
      ParentRefs(parents) + MapOver(HoldersOfAny(), relations))
  }

  method GetResourceTypeDefinition(hash: Hash, permissions: seq<string>, node: R.Node) returns (d: TypeDefinition)
    ensures d == ResourceType(hash, node.typ, node.parents, Elements(permissions))
  {
    var relations, related := map[], map[];
    if |node.parents| > 0 {
      related := related[ParentRelation := RefsTo(SortStrings(node.parents))];
      relations := relations[ParentRelation := This];
    }
    NoPermissions(hash, node.typ, node.parents);
    for i := 0 to |permissions|
      invariant ResourceType(hash, node.typ, node.parents, Elements(permissions[..i]))
        == TypeDefinition(node.typ, relations, related)
    {
      var relation := hash(permissions[i]);
      var children := [This];
      if |node.parents| > 0 {
        children := children + [TupleToUserset(ParentRelation, relation)];
      }
      OneMorePermission(hash, node.typ, node.parents, permissions, i);
      assert children == if node.parents == [] then [This] else [This, TupleToUserset(ParentRelation, relation)];
      related := related[relation := Holders];
      relations := relations[relation := if |children| == 1 then children[0] else Union(children)];
    }
    assert permissions[..|permissions|] == permissions;
    return TypeDefinition(node.typ, relations, related);
  }

  lemma NoPermissions(hash: Hash, t: string, parents: seq<string>)
    ensures ResourceType(hash, t, parents, Elements([])) == TypeDefinition(t, ParentRelations(parents), ParentRefs(parents))
  {
  }

  lemma OneMoreHash(hash: Hash, permissions: seq<string>, i: nat)
    requires i < |permissions|
    ensures Hashes(hash, Elements(permissions[..i + 1])) == Hashes(hash, Elements(permissions[..i])) + {hash(permissions[i])}
  {
  }

  lemma OneMoreRelation(t: string, parents: seq<string>, relations: set<string>, h: string)
    ensures var d := Relating(t, parents, relations);
      Relating(t, parents, relations + {h})
      == TypeDefinition(t, d.relations[h := PermissionUserset(parents, h)], d.related[h := Holders])
  {
    MapGrows(ParentRelations(parents), Usersets(parents), relations, h);
    MapGrows(ParentRefs(parents), HoldersOfAny(), relations, h);
  }

  lemma OneMorePermission(hash: Hash, t: string, parents: seq<string>, permissions: seq<string>, i: nat)
    requires i < |permissions|
    ensures var d := ResourceType(hash, t, parents, Elements(permissions[..i]));
      var h := hash(permissions[i]);
      ResourceType(hash, t, parents, Elements(permissions[..i + 1]))
      == TypeDefinition(t, d.relations[h := PermissionUserset(parents, h)], d.related[h := Holders])
  {
    OneMoreHash(hash, permissions, i);
    OneMoreRelation(t, parents, Hashes(hash, Elements(permissions[..i])), hash(permissions[i]));
  }

  const UserType := TypeDefinition(InternalUserType, map[], map[])

  const UserGroupType := TypeDefinition(
    InternalUserGroupType,
    map[MemberRelation := This, AssigneeRelation := Computed(MemberRelation)],
    map[MemberRelation := [TypeRef(InternalUserType, "")], AssigneeRelation := []])

  /** Root carries every permission, held directly only. */
  function RootTypeOf(hash: Hash, permissions: set<string>): TypeDefinition {
    ResourceType(hash, RootType, [], permissions)
  }

  method GetRootTypeDefinition(hash: Hash, permissions: seq<string>) returns (d: TypeDefinition)
    ensures d == RootTypeOf(hash, Elements(permissions))
  {
    var relations, related := map[], map[];
    NoPermissions(hash, RootType, []);
    for i := 0 to |permissions|
      invariant RootTypeOf(hash, Elements(permissions[..i])) == TypeDefinition(RootType, relations, related)
    {
      OneMorePermission(hash, RootType, [], permissions, i);
      related := related[hash(permissions[i]) := Holders];
      relations := relations[hash(permissions[i]) := This];
    }
    assert permissions[..|permissions|] == permissions;
    return TypeDefinition(RootType, relations, related);
  }

  // ---- The definitions of the graph's types

  function DeclaredParents(g: R.Graph, t: string): seq<string> {
    if t in g.specs then R.ParentTypes(g.specs[t].parents) else []
  }

  function Entry(hierarchy: map<string, seq<string>>, t: string): seq<string> {
    if t in hierarchy then hierarchy[t] else []
  }

  function PermissionsOn(hierarchy: map<string, seq<string>>, t: string): set<string> {
    Elements(Entry(hierarchy, t))
  }

  function DefinitionOf(g: R.Graph, hash: Hash, hierarchy: map<string, seq<string>>, t: string): TypeDefinition {
    ResourceType(hash, t, SortStrings(DeclaredParents(g, t)), PermissionsOn(hierarchy, t))
  }

  function Definitions(g: R.Graph, hash: Hash, hierarchy: map<string, seq<string>>): string -> TypeDefinition {
    t => DefinitionOf(g, hash, hierarchy, t)
  }

  method GetResourceTypeDefinitions(hash: Hash, hierarchy: map<string, seq<string>>, node: R.Node, ghost g: R.Graph, ghost on: bool)
    returns (types: map<string, TypeDefinition>)
    requires RootType !in g.specs
    requires if node.typ == RootType then AreNodes(g, on, node.children) else IsNode(g, on, node)
    ensures types == MapOver(Definitions(g, hash, hierarchy), if node.typ == RootType then TypesOfAll(node.children) else TreeTypes(node))
    decreases node, 2
  {
    if node.typ == RootType {
      types := GetChildTypeDefinitions(hash, hierarchy, node.children, g, on);
    } else {
      types := GetTypeDefinitionsBelowRoot(hash, hierarchy, node, g, on);
    }
  }

  method GetTypeDefinitionsBelowRoot(hash: Hash, hierarchy: map<string, seq<string>>, node: R.Node, ghost g: R.Graph, ghost on: bool)
    returns (types: map<string, TypeDefinition>)
    requires RootType !in g.specs && IsNode(g, on, node)
    ensures types == MapOver(Definitions(g, hash, hierarchy), TreeTypes(node))
    decreases node, 1
  {
    var definition := GetResourceTypeDefinition(hash, Entry(hierarchy, node.typ), node);
    NodeIsDeclared(g, on, node);
    var below := GetChildTypeDefinitions(hash, hierarchy, node.children, g, on);
    DefinitionsOfNode(g, on, hash, hierarchy, node);
    types := map[node.typ := definition] + below;
  }

  lemma DefinitionsOfNode(g: R.Graph, on: bool, hash: Hash, hierarchy: map<string, seq<string>>, n: R.Node)
    requires IsNode(g, on, n)
    ensures map[n.typ := ResourceType(hash, n.typ, n.parents, PermissionsOn(hierarchy, n.typ))]
      + MapOver(Definitions(g, hash, hierarchy), TypesOfAll(n.children)) == MapOver(Definitions(g, hash, hierarchy), TreeTypes(n))
  {
    NodeIsDeclared(g, on, n);
    var definition := Definitions(g, hash, hierarchy);
    assert definition(n.typ) == ResourceType(hash, n.typ, n.parents, PermissionsOn(hierarchy, n.typ));
    MapOfOne(definition, n.typ);
    MapJoins(definition, {n.typ}, TypesOfAll(n.children));
  }

  /** The children's definitions, each merged over those before it. */
  method GetChildTypeDefinitions(hash: Hash, hierarchy: map<string, seq<string>>, nodes: seq<R.Node>, ghost g: R.Graph, ghost on: bool)
    returns (types: map<string, TypeDefinition>)
    requires RootType !in g.specs && AreNodes(g, on, nodes)
    ensures types == MapOver(Definitions(g, hash, hierarchy), TypesOfAll(nodes))
    decreases nodes, 0
  {
    types := map[];
    for i := 0 to |nodes|
      invariant types == MapOver(Definitions(g, hash, hierarchy), TypesOfAll(nodes[..i]))
    {
      assert nodes[..i + 1][..i] == nodes[..i];
      NotRoot(g, on, nodes[i]);
      var more := GetResourceTypeDefinitions(hash, hierarchy, nodes[i], g, on);
      MapJoins(Definitions(g, hash, hierarchy), TypesOfAll(nodes[..i]), TreeTypes(nodes[i]));
      types := types + more;
    }
    assert nodes[..|nodes|] == nodes;
  }

  lemma NodeIsDeclared(g: R.Graph, on: bool, n: R.Node)
    requires IsNode(g, on, n)
    ensures n.parents == SortStrings(DeclaredParents(g, n.typ)) && AreNodes(g, on, n.children)
  {
    ChildrenAreNodes(g, on, n);
  }

  /** Every permission of any type. */
  function EveryPermission(hierarchy: map<string, seq<string>>): set<string> {
    PermissionsOnAny(hierarchy, hierarchy.Keys)
  }

  function PermissionsOnAny(hierarchy: map<string, seq<string>>, types: set<string>): set<string> {
    set t, p | t in types && p in PermissionsOn(hierarchy, t) :: p
  }

  lemma OneMoreType(hierarchy: map<string, seq<string>>, types: set<string>, t: string)
    ensures PermissionsOnAny(hierarchy, types + {t}) == PermissionsOnAny(hierarchy, types) + PermissionsOn(hierarchy, t)
  {
  }

  function DefinitionList(g: R.Graph, hash: Hash, hierarchy: map<string, seq<string>>, types: seq<string>): seq<TypeDefinition> {
    seq(|types|, i requires 0 <= i < |types| => DefinitionOf(g, hash, hierarchy, types[i]))
  }

  function TypeList(ns: seq<R.Node>): (ts: seq<string>)
    ensures forall t :: t in ts <==> t in TypesOfAll(ns)
    decreases ns
  {
    if ns == [] then []
    else TypeList(ns[..|ns| - 1]) + ([ns[|ns| - 1].typ] + TypeList(ns[|ns| - 1].children))
  }

  const MinimalModel := Model(SchemaVersion, [UserType, UserGroupType], map[])

  /** The types of the graph, in order. */
  function ModelTypes(g: R.Graph, on: bool): seq<string>
    requires R.ResourceGraphOf(g, on).Ok?
  {
    Canonical(TypeList(R.ResourceGraphOf(g, on).value.children))
  }

  /** The model of a graph: users, groups, its types in order, and Root. */
  function ModelOf(g: R.Graph, on: bool, hash: Hash): Model
    requires R.ResourceGraphOf(g, on).Ok?
  {
    var hierarchy := HierarchyOf(g, on);
    Model(
      SchemaVersion,
      [UserType, UserGroupType] + DefinitionList(g, hash, hierarchy, ModelTypes(g, on)) + [RootTypeOf(hash, EveryPermission(hierarchy))],
      map[])
  }

  /** Registered types are not among the three the IAM system defines itself. */
  predicate NoSystemTypes(prs: seq<R.ProtectedResource>) {
    forall pr :: pr in prs ==> TypeOfResource(pr) !in SystemTypes
  }

  function TypeOfResource(pr: R.ProtectedResource): string {
    R.TypeOf(pr.spec)
  }

  const SystemTypes := {InternalUserType, InternalUserGroupType, RootType}

  lemma RegisteredIsNotSystem(prs: seq<R.ProtectedResource>, g: R.Graph)
    requires R.Describes(g, prs) && NoSystemTypes(prs)
    ensures g.specs.Keys !! SystemTypes
  {
    forall t | t in g.specs
      ensures t !in SystemTypes
    {
      R.SpecsRegistered(prs, t);
      var pr :| pr in prs && R.Registers(pr, t);
      R.RegistersMeans(pr, t);
    }
  }

  method CollectPermissions(hierarchy: map<string, seq<string>>) returns (all: seq<string>)
    ensures Elements(all) == EveryPermission(hierarchy)
  {
    var found := [];
    var left := hierarchy.Keys;
    while left != {}
      invariant left <= hierarchy.Keys
      invariant Elements(found) == PermissionsOnAny(hierarchy, hierarchy.Keys - left)
      decreases left
    {
      var t :| t in left;
      OneMoreType(hierarchy, hierarchy.Keys - left, t);
      assert hierarchy.Keys - (left - {t}) == hierarchy.Keys - left + {t};
      found, left := found + hierarchy[t], left - {t};
    }
    assert hierarchy.Keys - {} == hierarchy.Keys;
    CanonicalIs(found);
    all := Canonical(found);
  }

  method SortedTypes(definitions: map<string, TypeDefinition>) returns (types: seq<string>)
    ensures R.SortedSet(types) && forall t :: t in types <==> t in definitions
  {
    var keys := [];
    var left := definitions.Keys;
    while left != {}
      invariant left <= definitions.Keys && Distinct(keys)
      invariant forall t :: t in keys <==> t in definitions && t !in left
      decreases left
    {
      var t :| t in left;
      keys, left := keys + [t], left - {t};
    }
    R.SortsToSet(keys);
    types := SortStrings(keys);
  }

  method CreateExpectedAuthorizationModel(prs: seq<R.ProtectedResource>, on: bool, hash: Hash)
    returns (r: R.Result<Model>, ghost g: R.Graph)
    requires R.SlashlessTypes(prs) && NoSystemTypes(prs)
    ensures prs == [] ==> r == R.Ok(MinimalModel)
    ensures prs == [] ==> forall t :: DefOf(r.value.types, t).Some? <==> t == InternalUserType || t == InternalUserGroupType
    ensures prs != [] ==> R.Describes(g, InOrder(prs)) && (r.Ok? <==> R.ResourceGraphOf(g, on).Ok?)
    ensures prs != [] && r.Ok? ==> r.value == ModelOf(g, on, hash)
  {
    if prs == [] {
      MinimalDefines();
      return R.Ok(MinimalModel), R.Graph(map[], map[], []);
    }
    SortedIsSame(prs);
    var root;
    root, g := R.GetResourceGraph(InOrder(prs), on);
    match root
    case CycleDetected => return R.CycleDetected, g;
    case ChildMissing => return R.ChildMissing, g;
    case TypeMalformed => return R.TypeMalformed, g;
    case Ok(node) =>
      R.DescribedIsWellFormed(g, InOrder(prs));
      RegisteredIsNotSystem(InOrder(prs), g);
      var model := AssembleModel(node, hash, g, on);
      return R.Ok(model), g;
  }

  method AssembleModel(root: R.Node, hash: Hash, ghost g: R.Graph, ghost on: bool) returns (model: Model)
    requires R.ResourceGraphOf(g, on) == R.Ok(root) && RootType !in g.specs
    requires R.WellTyped(g) && R.WellNamed(g) && forall t :: t in g.roots ==> t in g.specs
    ensures model == ModelOf(g, on, hash)
  {
    TreesAreNodes(g, on);
    var hierarchy := CalculateHierarchicalPermissions(root, g, on);
    var all := CollectPermissions(hierarchy);
    var definitions := GetResourceTypeDefinitions(hash, hierarchy, root, g, on);
    var types := SortedTypes(definitions);
    CanonicalUnique(types, TypeList(root.children));
    var list := ListDefinitions(types, definitions, g, hash, hierarchy);
    var rootType := GetRootTypeDefinition(hash, all);
    return Model(SchemaVersion, [UserType, UserGroupType] + list + [rootType], map[]);
  }

  method ListDefinitions(types: seq<string>, definitions: map<string, TypeDefinition>, ghost g: R.Graph, hash: Hash,
                         ghost hierarchy: map<string, seq<string>>)
    returns (list: seq<TypeDefinition>)
    requires forall t :: t in types ==> t in definitions && definitions[t] == DefinitionOf(g, hash, hierarchy, t)
    ensures list == DefinitionList(g, hash, hierarchy, types)
  {
    list := [];
    for i := 0 to |types|
      invariant list == DefinitionList(g, hash, hierarchy, types)[..i]
    {
      assert types[i] in types;
      list := list + [definitions[types[i]]];
    }
  }

  // ---- Looking up a type

  /** The definition of a type; of two for one type the later one. */
  function DefOf(types: seq<TypeDefinition>, t: string): Option<TypeDefinition> {
    if types == [] then None
    else if types[|types| - 1].typ == t then Some(types[|types| - 1])
    else DefOf(types[..|types| - 1], t)
  }

  /** The same relations with the same usersets, and for each the same user types, in whatever order. */
  predicate SameContent(a: TypeDefinition, b: TypeDefinition) {
    && a.relations == b.relations && a.related.Keys == b.related.Keys
    && forall k :: k in a.related ==> multiset(a.related[k]) == multiset(b.related[k])
  }

  /** Neither is a definition, or both are, with the same content. */
  predicate Alike(a: Option<TypeDefinition>, b: Option<TypeDefinition>) {
    (a.Some? <==> b.Some?) && (a.Some? ==> SameContent(a.value, b.value))
  }

  predicate DistinctTypes(types: seq<TypeDefinition>) {
    forall i, j :: 0 <= i < j < |types| ==> types[i].typ != types[j].typ
  }

  lemma {:induction false} FoundOnce(types: seq<TypeDefinition>, i: nat)
    requires i < |types| && DistinctTypes(types)
    ensures DefOf(types, types[i].typ) == Some(types[i])
  {
    if i < |types| - 1 {
      FoundOnce(types[..|types| - 1], i);
    }
  }

  lemma {:induction false} FoundIsThere(types: seq<TypeDefinition>, t: string)
    ensures DefOf(types, t).Some? ==> exists i :: 0 <= i < |types| && types[i].typ == t && DefOf(types, t) == Some(types[i])
  {
    if types != [] && types[|types| - 1].typ != t {
      FoundIsThere(types[..|types| - 1], t);
      if DefOf(types, t).Some? {
        var i :| 0 <= i < |types| - 1 && types[..|types| - 1][i].typ == t && DefOf(types, t) == Some(types[..|types| - 1][i]);
        assert types[i].typ == t;
      }
    }
  }

  /** Without registrations there are users and groups, and nothing else. */
  lemma MinimalDefines()
    ensures DefOf(MinimalModel.types, InternalUserGroupType) == Some(UserGroupType)
    ensures forall t :: DefOf(MinimalModel.types, t).Some? <==> t == InternalUserType || t == InternalUserGroupType
  {
    SystemTypesDiffer();
    var types := MinimalModel.types;
    FoundOnce(types, 0);
    FoundOnce(types, 1);
    assert types[0].typ == InternalUserType && types[1].typ == InternalUserGroupType;
    forall t
      ensures DefOf(types, t).Some? ==> t == InternalUserType || t == InternalUserGroupType
    {
      FoundIsThere(types, t);
    }
  }

  /** A graph that registered, well-formed types describe. */
  ghost predicate Sound(g: R.Graph) {
    && R.WellTyped(g) && R.WellNamed(g) && (forall t :: t in g.roots ==> t in g.specs)
    && g.specs.Keys !! SystemTypes
    && forall t, p :: t in g.specs && p in DeclaredParents(g, t) && p != t ==> t in R.Kids(g, p)
  }

  lemma DescribedIsSound(g: R.Graph, prs: seq<R.ProtectedResource>)
    requires R.Describes(g, prs) && R.SlashlessTypes(prs) && NoSystemTypes(prs)
    ensures Sound(g)
  {
    R.DescribedIsWellFormed(g, prs);
    RegisteredIsNotSystem(prs, g);
    forall t, p | t in g.specs && p in DeclaredParents(g, t) && p != t
      ensures t in R.Kids(g, p)
    {
      DeclaredIsChild(g, prs, t, p);
    }
  }

  lemma DeclaredIsChild(g: R.Graph, prs: seq<R.ProtectedResource>, t: string, p: string)
    requires R.Describes(g, prs) && t in g.specs && p in DeclaredParents(g, t) && p != t
    ensures t in R.Kids(g, p)
  {
    R.SpecsRegistered(prs, t);
    R.InParentTypes(g.specs[t].parents, p);
    assert R.IsChild(prs, p, t);
  }

  lemma GraphTypeList(g: R.Graph, on: bool)
    requires R.ResourceGraphOf(g, on).Ok? && Sound(g)
    ensures forall t :: t in TypeList(R.ResourceGraphOf(g, on).value.children) <==> InGraph(g, t)
    ensures forall t :: InGraph(g, t) ==> t in g.specs && t in HierarchyOf(g, on)
  {
    forall t
      ensures t in TypeList(R.ResourceGraphOf(g, on).value.children) <==> InGraph(g, t)
      ensures InGraph(g, t) ==> t in g.specs && t in HierarchyOf(g, on)
    {
      GraphTypes(g, on, t);
    }
  }

  lemma ModelTypesAre(g: R.Graph, on: bool)
    requires R.ResourceGraphOf(g, on).Ok? && Sound(g)
    ensures Distinct(ModelTypes(g, on))
    ensures forall t :: t in ModelTypes(g, on) <==> InGraph(g, t)
    ensures forall t :: t in ModelTypes(g, on) ==> t !in SystemTypes
  {
    GraphTypeList(g, on);
    CanonicalIs(TypeList(R.ResourceGraphOf(g, on).value.children));
    assert forall t :: t in ModelTypes(g, on) ==> t in g.specs;
  }

  lemma SystemTypesDiffer()
    ensures InternalUserType != InternalUserGroupType && InternalUserType != RootType && InternalUserGroupType != RootType
  {
  }

  /** Two definitions, then one for each type of a duplicate-free list, then a last one. */
  lemma Assembled(u: TypeDefinition, v: TypeDefinition, ds: seq<TypeDefinition>, w: TypeDefinition, ts: seq<string>)
    requires |ds| == |ts| && Distinct(ts) && forall i :: 0 <= i < |ts| ==> ds[i].typ == ts[i]
    requires u.typ != v.typ && u.typ != w.typ && v.typ != w.typ && u.typ !in ts && v.typ !in ts && w.typ !in ts
    ensures var types := [u, v] + ds + [w];
      && DistinctTypes(types)
      && DefOf(types, u.typ) == Some(u) && DefOf(types, v.typ) == Some(v) && DefOf(types, w.typ) == Some(w)
      && (forall i :: 0 <= i < |ts| ==> DefOf(types, ts[i]) == Some(ds[i]))
      && (forall t :: t !in ts && t != u.typ && t != v.typ && t != w.typ ==> DefOf(types, t) == None)
  {
    var types := [u, v] + ds + [w];
    AssembledTypes(u, v, ds, w, ts);
    FoundOnce(types, 0);
    FoundOnce(types, 1);
    FoundOnce(types, |types| - 1);
    forall i | 0 <= i < |ts|
      ensures DefOf(types, ts[i]) == Some(ds[i])
    {
      FoundOnce(types, i + 2);
    }
    forall t | t !in ts && t != u.typ && t != v.typ && t != w.typ
      ensures DefOf(types, t) == None
    {
      FoundIsThere(types, t);
    }
  }

  lemma AssembledTypes(u: TypeDefinition, v: TypeDefinition, ds: seq<TypeDefinition>, w: TypeDefinition, ts: seq<string>)
    requires |ds| == |ts| && Distinct(ts) && forall i :: 0 <= i < |ts| ==> ds[i].typ == ts[i]
    requires u.typ != v.typ && u.typ != w.typ && v.typ != w.typ && u.typ !in ts && v.typ !in ts && w.typ !in ts
    ensures var types := [u, v] + ds + [w];
      && |types| == |ts| + 3 && DistinctTypes(types)
      && (forall i :: 2 <= i < |types| - 1 ==> types[i] == ds[i - 2] && types[i].typ == ts[i - 2] && types[i].typ in ts)
      && types[0] == u && types[1] == v && types[|types| - 1] == w
  {
  }

  lemma ModelAssembled(g: R.Graph, on: bool, hash: Hash)
    requires R.ResourceGraphOf(g, on).Ok? && Sound(g)
    ensures DistinctTypes(ModelOf(g, on, hash).types)
    ensures var hierarchy := HierarchyOf(g, on);
      var types := ModelOf(g, on, hash).types;
      && DefOf(types, InternalUserType) == Some(UserType) && DefOf(types, InternalUserGroupType) == Some(UserGroupType)
      && DefOf(types, RootType) == Some(RootTypeOf(hash, EveryPermission(hierarchy)))
      && (forall t :: InGraph(g, t) ==> t !in SystemTypes && DefOf(types, t) == Some(DefinitionOf(g, hash, hierarchy, t)))
      && (forall t :: !InGraph(g, t) && t !in SystemTypes ==> DefOf(types, t) == None)
  {
    var hierarchy := HierarchyOf(g, on);
    var ts := ModelTypes(g, on);
    var definitions := DefinitionList(g, hash, hierarchy, ts);
    ModelTypesAre(g, on);
    SystemTypesDiffer();
    Assembled(UserType, UserGroupType, definitions, RootTypeOf(hash, EveryPermission(hierarchy)), ts);
    forall t | InGraph(g, t)
      ensures DefOf(ModelOf(g, on, hash).types, t) == Some(DefinitionOf(g, hash, hierarchy, t))
    {
      var i :| 0 <= i < |ts| && ts[i] == t;
      assert definitions[i] == DefinitionOf(g, hash, hierarchy, t);
    }
  }

  /** What the model defines for a type: each type of the graph, and the three system types. */
  lemma ModelDefines(g: R.Graph, on: bool, hash: Hash, t: string)
    requires R.ResourceGraphOf(g, on).Ok? && Sound(g)
    ensures DefOf(ModelOf(g, on, hash).types, t) ==
      if t == InternalUserType then Some(UserType)
      else if t == InternalUserGroupType then Some(UserGroupType)
      else if t == RootType then Some(RootTypeOf(hash, EveryPermission(HierarchyOf(g, on))))
      else if InGraph(g, t) then Some(DefinitionOf(g, hash, HierarchyOf(g, on), t))
      else None
  {
    ModelAssembled(g, on, hash);
  }
}
