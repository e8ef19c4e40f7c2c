/**
 The model built from a graph of registrations, alone or merged with hand-written
 types, evaluates every permission by plain reachability.
 */
module GraphMeaning {
  import opened Names
  import opened Permissions
  import opened Sorting
  import R = ResourceGraph
  import opened Hierarchy
  import opened AuthorizationModel
  import opened ModelMerge
  import opened ModelMeaning
  import opened Wrappers

  /** Every declared parent is a type of the graph or Root, and no type is its own parent. */
  ghost predicate ParentsRegistered(g: R.Graph) {
    forall t, p :: t in g.specs && p in DeclaredParents(g, t) ==> p != t && (p == RootType || InGraph(g, p))
  }

  /**
   `m` defines every type with a slash as the model of `g` does, but for the order
   of user types. A permission's relation is never the parent relation.
   */
  ghost predicate InForce(m: Model, g: R.Graph, on: bool, hash: Hash) {
    && R.ResourceGraphOf(g, on).Ok? && Sound(g)
    && (forall p :: hash(p) != ParentRelation)
    && (forall t :: '/' in t ==> Alike(DefOf(m.types, t), DefOf(ModelOf(g, on, hash).types, t)))
  }

  /** Whatever was in the store before, the merge puts the model of the graph in force. */
  lemma MergedIsInForce(current: Model, g: R.Graph, on: bool, hash: Hash)
    requires R.ResourceGraphOf(g, on).Ok? && Sound(g) && forall p :: hash(p) != ParentRelation
    ensures InForce(Merge(current, ModelOf(g, on, hash)), g, on, hash)
  {
    ModelAssembled(g, on, hash);
    ModelTypesHaveSlash(g, on, hash);
    MergedServes(current, ModelOf(g, on, hash));
    ServedIsInForce(Merge(current, ModelOf(g, on, hash)), current, g, on, hash);
  }

  /**
   Whatever a reconcile leaves in the store has the model of the graph in force,
   also when it has found nothing to write: so what is said of checks is said of
   the stored model.
   */
  lemma ServedIsInForce(settled: Model, current: Model, g: R.Graph, on: bool, hash: Hash)
    requires R.ResourceGraphOf(g, on).Ok? && Sound(g) && forall p :: hash(p) != ParentRelation
    requires Serves(settled, current, ModelOf(g, on, hash))
    ensures InForce(settled, g, on, hash)
  {
  }

  /** A type of the graph, or Root. */
  ghost predicate IsModelled(g: R.Graph, t: string) {
    t == RootType || InGraph(g, t)
  }

  /** The permissions that the model carries on a type. */
  function Carried(g: R.Graph, on: bool, t: string): set<string>
    requires R.ResourceGraphOf(g, on).Ok?
  {
    if t == RootType then EveryPermission(HierarchyOf(g, on)) else PermissionsOn(HierarchyOf(g, on), t)
  }

  function ParentsOn(g: R.Graph, t: string): seq<string> {
    if t == RootType then [] else SortStrings(DeclaredParents(g, t))
  }

  lemma ModelledType(m: Model, g: R.Graph, on: bool, hash: Hash, t: string)
    requires InForce(m, g, on, hash) && IsModelled(g, t)
    ensures Alike(DefOf(m.types, t), Some(Relating(t, ParentsOn(g, t), Hashes(hash, Carried(g, on, t)))))
  {
    ModelDefines(g, on, hash, t);
    SystemTypesHaveSlash();
    SystemTypesDiffer();
    GraphTypeList(g, on);
    if InGraph(g, t) {
      assert t in g.specs && t !in SystemTypes;
      assert |Split(t, '/')| == 2;
    }
  }

  // ---- What each type carries

  lemma CarriedMeans(g: R.Graph, on: bool, t: string, p: string)
    requires R.ResourceGraphOf(g, on).Ok? && Sound(g) && InGraph(g, t)
    ensures t != RootType && (p in Carried(g, on, t) <==> RegisteredBelow(g, on, t, p))
    ensures p in Carried(g, on, t) ==> p in Carried(g, on, RootType)
  {
    GraphTypeList(g, on);
    HierarchyMeans(g, on, t);
    assert t in g.specs && t in HierarchyOf(g, on).Keys;
  }

  /** Each permission of a type of the graph is also on each of its parents, and on Root. */
  lemma CarriedUp(g: R.Graph, on: bool, t: string, parent: string)
    requires R.ResourceGraphOf(g, on).Ok? && Sound(g) && InGraph(g, t)
    requires parent == RootType || (InGraph(g, parent) && t in R.Kids(g, parent))
    ensures Carried(g, on, t) <= Carried(g, on, parent)
  {
    forall p | p in Carried(g, on, t)
      ensures p in Carried(g, on, parent)
    {
      CarriedMeans(g, on, t, p);
      if parent != RootType {
        CarriedMeans(g, on, parent, p);
        RegisteredUp(g, on, t, parent, p);
      }
    }
  }

  lemma RegisteredUp(g: R.Graph, on: bool, t: string, parent: string, p: string)
    requires t in R.Kids(g, parent) && RegisteredBelow(g, on, t, p)
    ensures RegisteredBelow(g, on, parent, p)
  {
    var x :| x in g.specs && R.Descends(g, t, x) && p in Enumeration(g.specs[x], on);
    DescendsVia(g, parent, x);
  }

  // ---- The rank of a type

  ghost function Ancestors(g: R.Graph, t: string): set<string> {
    set x | x in g.specs && x != t && R.Descends(g, x, t)
  }

  ghost function Rank(g: R.Graph, t: string): nat {
    if t == RootType then 0 else 1 + |Ancestors(g, t)|
  }

  lemma ClosesCycle(g: R.Graph, t: string, p: string)
    requires R.Descends(g, t, p) && t in R.Kids(g, p)
    ensures R.CycleReachable(g, p)
  {
    var w :| R.Leads(g, w, t, p);
    R.WalkCons(g, p, w);
    var v := [p] + w;
    assert v[0] == v[|v| - 1];
    assert R.Walk(g, v) && v[0] == p && R.Repeats(v);
  }

  lemma AncestorsGrow(g: R.Graph, on: bool, t: string, p: string)
    requires R.ResourceGraphOf(g, on).Ok? && Sound(g) && InGraph(g, p) && t in R.Kids(g, p) && p != t
    ensures Ancestors(g, p) < Ancestors(g, t)
  {
    GraphTypes(g, on, p);
    DescendsSelf(g, t);
    DescendsVia(g, p, t);
    forall x | x in Ancestors(g, p)
      ensures x in Ancestors(g, t)
    {
      DescendsTrans(g, x, p, t);
      if x == t {
        ClosesCycle(g, t, p);
      }
    }
    assert p in Ancestors(g, t);
  }

  lemma SmallerSet<T>(s: set<T>, r: set<T>)
    requires s <= r
    ensures |s| <= |r| && (s < r ==> |s| < |r|)
  {
    assert r == s + (r - s);
  }

  lemma RankFalls(g: R.Graph, on: bool, t: string, p: string)
    requires R.ResourceGraphOf(g, on).Ok? && Sound(g) && InGraph(g, t) && t != RootType && p != t
    requires p == RootType || (InGraph(g, p) && t in R.Kids(g, p))
    ensures Rank(g, p) < Rank(g, t) <= |g.specs| + 1
  {
    if p != RootType {
      AncestorsGrow(g, on, t, p);
      SmallerSet(Ancestors(g, p), Ancestors(g, t));
    }
    SmallerSet(Ancestors(g, t), g.specs.Keys);
  }

  // ---- The shape of the generated model

  ghost function ModelledTypes(g: R.Graph): set<string> {
    (set t | t in g.specs && InGraph(g, t)) + {RootType}
  }

  ghost function ShapeOf(g: R.Graph, on: bool, hash: Hash): Shape
    requires R.ResourceGraphOf(g, on).Ok?
  {
    Shape(
      map t | t in ModelledTypes(g) :: ParentsOn(g, t),
      map t | t in ModelledTypes(g) :: Hashes(hash, Carried(g, on, t)),
      map t | t in ModelledTypes(g) :: Rank(g, t))
  }

  lemma HashesGrow(hash: Hash, s: set<string>, r: set<string>)
    requires s <= r
    ensures Hashes(hash, s) <= Hashes(hash, r)
  {
  }

  lemma ParentIsModelled(g: R.Graph, on: bool, hash: Hash, t: string, p: string)
    requires R.ResourceGraphOf(g, on).Ok? && Sound(g) && ParentsRegistered(g) && t in ModelledTypes(g) && p in ParentsOn(g, t)
    ensures p in ModelledTypes(g) && Rank(g, p) < Rank(g, t)
    ensures Hashes(hash, Carried(g, on, t)) <= Hashes(hash, Carried(g, on, p))
  {
    SameElements(DeclaredParents(g, t), SortStrings(DeclaredParents(g, t)));
    assert t in g.specs && p in DeclaredParents(g, t);
    GraphTypeList(g, on);
    CarriedUp(g, on, t, p);
    HashesGrow(hash, Carried(g, on, t), Carried(g, on, p));
    RankFalls(g, on, t, p);
  }

  lemma GroupTypeInForce(m: Model, g: R.Graph, on: bool, hash: Hash)
    requires InForce(m, g, on, hash)
    ensures Alike(DefOf(m.types, InternalUserGroupType), Some(UserGroupType))
  {
    ModelDefines(g, on, hash, InternalUserGroupType);
    SystemTypesHaveSlash();
    SystemTypesDiffer();
  }

  lemma ShapeIsWellFounded(g: R.Graph, on: bool, hash: Hash)
    requires R.ResourceGraphOf(g, on).Ok? && Sound(g) && ParentsRegistered(g)
    ensures var s := ShapeOf(g, on, hash);
      forall t, p :: t in s.parents && p in s.parents[t] ==> RisesTo(s, t, p)
  {
    var s := ShapeOf(g, on, hash);
    forall t, p | t in s.parents && p in s.parents[t]
      ensures RisesTo(s, t, p)
    {
      ParentIsModelled(g, on, hash, t, p);
    }
  }

  lemma ShapeIsDefined(m: Model, g: R.Graph, on: bool, hash: Hash, t: string)
    requires InForce(m, g, on, hash) && t in ModelledTypes(g)
    ensures ParentRelation !in Hashes(hash, Carried(g, on, t))
    ensures Alike(DefOf(m.types, t), Some(Relating(t, ParentsOn(g, t), Hashes(hash, Carried(g, on, t)))))
  {
    ModelledType(m, g, on, hash, t);
    assert forall p :: hash(p) != ParentRelation;
  }

  lemma ModelRealisesShape(m: Model, g: R.Graph, on: bool, hash: Hash)
    requires InForce(m, g, on, hash) && ParentsRegistered(g)
    ensures Realises(m, ShapeOf(g, on, hash))
  {
    ShapeIsWellFounded(g, on, hash);
    forall t | t in ModelledTypes(g)
      ensures ParentRelation !in Hashes(hash, Carried(g, on, t))
      ensures Alike(DefOf(m.types, t), Some(Relating(t, ParentsOn(g, t), Hashes(hash, Carried(g, on, t)))))
    {
      ShapeIsDefined(m, g, on, hash, t);
    }
    GroupTypeInForce(m, g, on, hash);
    forall t
      ensures DefinedAs(m, ShapeOf(g, on, hash), t)
    {
    }
  }

  /**
   On every store that conforms to the model, a check of a permission on an
   object succeeds exactly when the object's type carries the permission's
   relation, and the user or one of the user's groups holds it on the object or
   on an ancestor. The evaluation is as deep as the graph at most.
   */
  lemma EvaluationIsReachability(m: Model, g: R.Graph, on: bool, hash: Hash, store: set<Tuple>, user: Object, permission: string,
                                 obj: Object, fuel: nat)
    requires InForce(m, g, on, hash) && ParentsRegistered(g) && Conforming(m, store)
    requires IsModelled(g, obj.typ) && fuel >= |g.specs| + 3
    ensures Check(m, store, user, hash(permission), obj, fuel) <==>
      && hash(permission) in Hashes(hash, Carried(g, on, obj.typ))
      && GrantedAtOrAbove(store, user, hash(permission), obj)
  {
    ModelRealisesShape(m, g, on, hash);
    ModelledHasRank(g, on, obj.typ);
    CheckMeans(m, ShapeOf(g, on, hash), store, user, hash(permission), obj, fuel);
  }

  lemma ShapeHasModelled(g: R.Graph, on: bool, hash: Hash, t: string)
    requires R.ResourceGraphOf(g, on).Ok? && Sound(g)
    ensures t in ShapeOf(g, on, hash).parents <==> IsModelled(g, t)
  {
    GraphTypeList(g, on);
  }

  lemma ModelledHasRank(g: R.Graph, on: bool, t: string)
    requires R.ResourceGraphOf(g, on).Ok? && Sound(g) && IsModelled(g, t)
    ensures t in ModelledTypes(g) && Rank(g, t) <= |g.specs| + 1
  {
    GraphTypeList(g, on);
    SmallerSet(Ancestors(g, t), g.specs.Keys);
  }
}
