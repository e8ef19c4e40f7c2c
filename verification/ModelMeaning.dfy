/**
 What the generated model means. OpenFGA evaluates a relation by its userset;
 for a permission that comes to plain reachability: the user, or a group the
 user is a member of, holds it on the object or on an object above it.
 */
module ModelMeaning {
  import opened Names
  import opened Sorting
  import opened AuthorizationModel
  import opened Wrappers

  // ---- OpenFGA's evaluation

  /** Whether `user` has `relation` on `obj`, following at most `fuel` relations in a row. */
  predicate Check(m: Model, store: set<Tuple>, user: Object, relation: string, obj: Object, fuel: nat)
    decreases fuel, 0
  {
    && fuel > 0
    && DefOf(m.types, obj.typ).Some?
    && relation in DefOf(m.types, obj.typ).value.relations
    && Evaluates(m, store, user, relation, obj, DefOf(m.types, obj.typ).value.relations[relation], fuel - 1)
  }

  predicate Evaluates(m: Model, store: set<Tuple>, user: Object, relation: string, obj: Object, u: Userset, fuel: nat)
    decreases fuel, 2, u
  {
    match u
    case This =>
      exists t :: t in store && t.relation == relation && t.obj == obj && Includes(m, store, user, t.user, fuel)
    case Computed(other) => Check(m, store, user, other, obj, fuel)
    case TupleToUserset(tupleset, computed) =>
      exists t :: t in store && t.relation == tupleset && t.obj == obj && t.user.Entity?
        && Check(m, store, user, computed, t.user.obj, fuel)
    case Union(children) =>
      exists i :: 0 <= i < |children| && Evaluates(m, store, user, relation, obj, children[i], fuel)
  }

  predicate Includes(m: Model, store: set<Tuple>, user: Object, granted: User, fuel: nat)
    decreases fuel, 1
  {
    match granted
    case Entity(obj) => obj == user
    case Userset(obj, relation) => Check(m, store, user, relation, obj, fuel)
  }

  /** A tuple that the model admits: its relation is defined on its object's type, for that kind of user. */
  predicate Conforms(m: Model, t: Tuple) {
    && DefOf(m.types, t.obj.typ).Some?
    && t.relation in DefOf(m.types, t.obj.typ).value.related
    && Admits(DefOf(m.types, t.obj.typ).value.related[t.relation], t.user)
  }

  predicate Admits(refs: seq<TypeRef>, user: User) {
    match user
    case Entity(obj) => TypeRef(obj.typ, "") in refs
    case Userset(obj, relation) => relation != "" && TypeRef(obj.typ, relation) in refs
  }

  predicate Conforming(m: Model, store: set<Tuple>) {
    forall t :: t in store ==> Conforms(m, t)
  }

  // ---- Plain reachability

  /** A grant reaches its user, or every member of its group. */
  predicate Reaches(store: set<Tuple>, granted: User, user: Object) {
    || granted == Entity(user)
    || (granted.Userset? && granted.relation == MemberRelation && Tuple(Entity(user), MemberRelation, granted.obj) in store)
  }

  predicate GrantedOn(store: set<Tuple>, user: Object, relation: string, obj: Object) {
    exists t :: t in store && t.relation == relation && t.obj == obj && Reaches(store, t.user, user)
  }

  /** Each object is a parent of the one before. */
  ghost predicate Ascent(store: set<Tuple>, path: seq<Object>) {
    |path| > 0 && forall i :: 0 <= i < |path| - 1 ==> Tuple(Entity(path[i + 1]), ParentRelation, path[i]) in store
  }

  ghost predicate Climbs(store: set<Tuple>, path: seq<Object>, obj: Object, above: Object) {
    Ascent(store, path) && path[0] == obj && path[|path| - 1] == above
  }

  /** `above` is `obj`, or an ancestor of it by parent tuples. */
  ghost predicate AtOrAbove(store: set<Tuple>, obj: Object, above: Object) {
    exists path :: Climbs(store, path, obj, above)
  }

  ghost predicate GrantedAtOrAbove(store: set<Tuple>, user: Object, relation: string, obj: Object) {
    exists above :: AtOrAbove(store, obj, above) && GrantedOn(store, user, relation, above)
  }

  lemma AtSelf(store: set<Tuple>, obj: Object)
    ensures AtOrAbove(store, obj, obj)
  {
    assert Climbs(store, [obj], obj, obj);
  }

  lemma ClimbOn(store: set<Tuple>, obj: Object, parent: Object, above: Object)
    requires Tuple(Entity(parent), ParentRelation, obj) in store && AtOrAbove(store, parent, above)
    ensures AtOrAbove(store, obj, above)
  {
    var path :| Climbs(store, path, parent, above);
    var longer := [obj] + path;
    forall i | 0 <= i < |longer| - 1
      ensures Tuple(Entity(longer[i + 1]), ParentRelation, longer[i]) in store
    {
      if i > 0 {
        assert Tuple(Entity(path[i]), ParentRelation, path[i - 1]) in store;
      }
    }
    assert Climbs(store, longer, obj, above);
  }

  lemma FirstClimb(store: set<Tuple>, obj: Object, above: Object) returns (parent: Object)
    requires AtOrAbove(store, obj, above) && above != obj
    ensures Tuple(Entity(parent), ParentRelation, obj) in store && AtOrAbove(store, parent, above)
  {
    var path :| Climbs(store, path, obj, above);
    parent := path[1];
    assert Tuple(Entity(path[0 + 1]), ParentRelation, path[0]) in store;
    forall i | 0 <= i < |path[1..]| - 1
      ensures Tuple(Entity(path[1..][i + 1]), ParentRelation, path[1..][i]) in store
    {
      assert Tuple(Entity(path[i + 1 + 1]), ParentRelation, path[i + 1]) in store;
    }
    assert Climbs(store, path[1..], parent, above);
  }

  ghost predicate GrantedAboveParent(store: set<Tuple>, user: Object, relation: string, obj: Object) {
    exists parent :: Tuple(Entity(parent), ParentRelation, obj) in store && GrantedAtOrAbove(store, user, relation, parent)
  }

  /** A permission held above is held here, or above a parent. */
  lemma GrantedVia(store: set<Tuple>, user: Object, relation: string, obj: Object)
    ensures GrantedAtOrAbove(store, user, relation, obj) <==>
      GrantedOn(store, user, relation, obj) || GrantedAboveParent(store, user, relation, obj)
  {
    if GrantedAtOrAbove(store, user, relation, obj) && !GrantedOn(store, user, relation, obj) {
      var above :| AtOrAbove(store, obj, above) && GrantedOn(store, user, relation, above);
      var parent := FirstClimb(store, obj, above);
      assert GrantedAtOrAbove(store, user, relation, parent);
    }
    if GrantedOn(store, user, relation, obj) {
      AtSelf(store, obj);
    }
    if parent :| Tuple(Entity(parent), ParentRelation, obj) in store && GrantedAtOrAbove(store, user, relation, parent) {
      var above :| AtOrAbove(store, parent, above) && GrantedOn(store, user, relation, above);
      ClimbOn(store, obj, parent, above);
    }
  }

  // ---- Models in which permissions flow down from parents

  /**
   What a model defines on its resource types: the declared parents of each, its
   permission relations, and a rank that is lower for every parent.
   */
  datatype Shape = Shape(parents: map<string, seq<string>>, relations: map<string, set<string>>, rank: map<string, nat>)

  predicate SameTypes(s: Shape) {
    s.relations.Keys == s.parents.Keys == s.rank.Keys
  }

  predicate RisesTo(s: Shape, t: string, p: string)
    requires SameTypes(s) && t in s.parents
  {
    p in s.parents && s.relations[t] <= s.relations[p] && s.rank[p] < s.rank[t]
  }

  /** The model defines `t` as the shape has it, and the groups of users as groups. */
  ghost predicate DefinedAs(m: Model, s: Shape, t: string)
    requires SameTypes(s)
  {
    && (t in s.parents ==>
          && Alike(DefOf(m.types, t), Some(Relating(t, s.parents[t], s.relations[t])))
          && ParentRelation !in s.relations[t] && forall p :: p in s.parents[t] ==> RisesTo(s, t, p))
    && (t == InternalUserGroupType ==> Alike(DefOf(m.types, t), Some(UserGroupType)))
  }

  ghost predicate Realises(m: Model, s: Shape) {
    SameTypes(s) && forall t :: DefinedAs(m, s, t)
  }

  lemma AdmitsAlike(refs: seq<TypeRef>, others: seq<TypeRef>, user: User)
    requires multiset(refs) == multiset(others)
    ensures Admits(refs, user) <==> Admits(others, user)
  {
    assert forall ref :: (ref in refs <==> ref in multiset(refs)) && (ref in others <==> ref in multiset(others));
  }

  lemma RelatingMeans(d: TypeDefinition, parents: seq<string>, relations: set<string>, h: string)
    requires ParentRelation !in relations && h != ParentRelation && SameContent(d, Relating(d.typ, parents, relations))
    ensures (h in d.relations <==> h in relations) && (h in d.related <==> h in relations)
    ensures h in relations ==> d.relations[h] == PermissionUserset(parents, h) && multiset(d.related[h]) == multiset(Holders)
  {
    var made := Relating(d.typ, parents, relations);
    assert (h in made.relations <==> h in relations) && (h in made.related <==> h in relations);
  }

  lemma ParentsRelated(d: TypeDefinition, parents: seq<string>, relations: set<string>, user: User)
    requires ParentRelation !in relations && SameContent(d, Relating(d.typ, parents, relations))
    requires ParentRelation in d.related && Admits(d.related[ParentRelation], user)
    ensures user.Entity? && user.obj.typ in parents
  {
    var made := Relating(d.typ, parents, relations);
    AdmitsAlike(d.related[ParentRelation], made.related[ParentRelation], user);
    SameElements(parents, SortStrings(parents));
  }

  lemma ParentConforms(m: Model, t: Tuple, parents: seq<string>, relations: set<string>)
    requires Alike(DefOf(m.types, t.obj.typ), Some(Relating(t.obj.typ, parents, relations))) && ParentRelation !in relations
    requires t.relation == ParentRelation && t.user.Entity? && t.user.obj.typ in parents
    ensures Conforms(m, t)
  {
    var made := Relating(t.obj.typ, parents, relations);
    SameElements(parents, SortStrings(parents));
    var i :| 0 <= i < |SortStrings(parents)| && SortStrings(parents)[i] == t.user.obj.typ;
    assert RefsTo(SortStrings(parents))[i] == TypeRef(t.user.obj.typ, "");
    AdmitsAlike(DefOf(m.types, t.obj.typ).value.related[ParentRelation], made.related[ParentRelation], t.user);
  }

  /** A group's members are those its member tuples name. */
  lemma MemberMeans(m: Model, store: set<Tuple>, user: Object, group: Object, fuel: nat)
    requires Alike(DefOf(m.types, group.typ), Some(UserGroupType)) && Conforming(m, store) && fuel >= 1
    ensures Check(m, store, user, MemberRelation, group, fuel) <==> Tuple(Entity(user), MemberRelation, group) in store
  {
    forall t | t in store && t.relation == MemberRelation && t.obj == group
      ensures t.user.Entity?
    {
      assert Conforms(m, t);
      AdmitsAlike(DefOf(m.types, group.typ).value.related[MemberRelation], UserGroupType.related[MemberRelation], t.user);
    }
    assert Check(m, store, user, MemberRelation, group, fuel) <==>
      Evaluates(m, store, user, MemberRelation, group, This, fuel - 1);
    if Tuple(Entity(user), MemberRelation, group) in store {
      var t := Tuple(Entity(user), MemberRelation, group);
      assert t.relation == MemberRelation && t.obj == group && Includes(m, store, user, t.user, fuel - 1);
    }
  }

  /** The group's assignees are its members. */
  lemma AssigneeMeans(m: Model, store: set<Tuple>, user: Object, group: Object, fuel: nat)
    requires Alike(DefOf(m.types, group.typ), Some(UserGroupType)) && Conforming(m, store) && fuel >= 2
    ensures Check(m, store, user, AssigneeRelation, group, fuel) <==> Tuple(Entity(user), MemberRelation, group) in store
  {
    MemberMeans(m, store, user, group, fuel - 1);
    assert Check(m, store, user, AssigneeRelation, group, fuel) <==>
      Evaluates(m, store, user, AssigneeRelation, group, Computed(MemberRelation), fuel - 1);
  }

  /** A grant on one object, as the userset `This` evaluates it. */
  lemma GrantMeans(m: Model, s: Shape, store: set<Tuple>, user: Object, h: string, obj: Object, fuel: nat)
    requires Realises(m, s) && Conforming(m, store) && obj.typ in s.parents && h in s.relations[obj.typ] && fuel >= 1
    ensures Evaluates(m, store, user, h, obj, This, fuel) <==> GrantedOn(store, user, h, obj)
  {
    forall t | t in store && t.relation == h && t.obj == obj
      ensures Includes(m, store, user, t.user, fuel) <==> Reaches(store, t.user, user)
    {
      HolderMeans(m, s, store, user, t, fuel);
    }
  }

  lemma HolderMeans(m: Model, s: Shape, store: set<Tuple>, user: Object, t: Tuple, fuel: nat)
    requires Realises(m, s) && Conforming(m, store) && t in store && fuel >= 1
    requires t.obj.typ in s.parents && t.relation in s.relations[t.obj.typ]
    ensures Includes(m, store, user, t.user, fuel) <==> Reaches(store, t.user, user)
  {
    assert Conforms(m, t) && DefinedAs(m, s, t.obj.typ) && DefinedAs(m, s, InternalUserGroupType);
    var d := DefOf(m.types, t.obj.typ).value;
    FoundIsThere(m.types, t.obj.typ);
    RelatingMeans(d, s.parents[t.obj.typ], s.relations[t.obj.typ], t.relation);
    AdmitsAlike(d.related[t.relation], Holders, t.user);
    AdmittedReaches(m, store, user, t.user, fuel);
  }

  /** A user that a permission admits is included exactly when the grant reaches it. */
  lemma AdmittedReaches(m: Model, store: set<Tuple>, user: Object, granted: User, fuel: nat)
    requires Alike(DefOf(m.types, InternalUserGroupType), Some(UserGroupType)) && Conforming(m, store) && fuel >= 1
    requires Admits(Holders, granted)
    ensures Includes(m, store, user, granted, fuel) <==> Reaches(store, granted, user)
  {
    if granted.Userset? {
      assert TypeRef(granted.obj.typ, granted.relation) in Holders;
      MemberMeans(m, store, user, granted.obj, fuel);
    }
  }

  /** A parent tuple names an object of a declared parent type, which carries every relation of the child. */
  lemma ParentTupleMeans(m: Model, s: Shape, store: set<Tuple>, t: Tuple)
    requires Realises(m, s) && Conforming(m, store) && t in store && t.relation == ParentRelation && t.obj.typ in s.parents
    ensures t.user.Entity? && t.user.obj.typ in s.parents[t.obj.typ] && s.parents[t.obj.typ] != []
  {
    assert Conforms(m, t) && DefinedAs(m, s, t.obj.typ);
    FoundIsThere(m.types, t.obj.typ);
    ParentsRelated(DefOf(m.types, t.obj.typ).value, s.parents[t.obj.typ], s.relations[t.obj.typ], t.user);
  }

  /** Parent tuples lead from types of the shape to types of the shape. */
  lemma ClimbStaysInShape(m: Model, s: Shape, store: set<Tuple>, obj: Object, above: Object)
    requires Realises(m, s) && Conforming(m, store) && obj.typ in s.parents && AtOrAbove(store, obj, above)
    ensures above.typ in s.parents
  {
    var path: seq<Object> :| Climbs(store, path, obj, above);
    for i := 0 to |path| - 1
      invariant path[i].typ in s.parents
    {
      ParentStaysInShape(m, s, store, Tuple(Entity(path[i + 1]), ParentRelation, path[i]));
    }
  }

  lemma ParentStaysInShape(m: Model, s: Shape, store: set<Tuple>, t: Tuple)
    requires Realises(m, s) && Conforming(m, store) && t in store && t.relation == ParentRelation && t.obj.typ in s.parents
    ensures t.user.Entity? && t.user.obj.typ in s.parents
  {
    ParentTupleMeans(m, s, store, t);
    assert DefinedAs(m, s, t.obj.typ);
    assert RisesTo(s, t.obj.typ, t.user.obj.typ);
  }

  /** A check evaluates the permission's userset, if the type carries it. */
  lemma CheckUnfolds(m: Model, s: Shape, store: set<Tuple>, user: Object, h: string, obj: Object, fuel: nat) returns (answer: bool)
    requires Realises(m, s) && obj.typ in s.parents && h != ParentRelation && fuel > 0
    ensures IsAnswer(m, s.parents[obj.typ], store, user, h, obj, fuel - 1, answer)
    ensures Check(m, store, user, h, obj, fuel) <==> h in s.relations[obj.typ] && answer
  {
    assert DefinedAs(m, s, obj.typ);
    FoundIsThere(m.types, obj.typ);
    RelatingMeans(DefOf(m.types, obj.typ).value, s.parents[obj.typ], s.relations[obj.typ], h);
    answer := Evaluates(m, store, user, h, obj, PermissionUserset(s.parents[obj.typ], h), fuel - 1);
  }

  /** What the userset of a permission evaluates to. */
  ghost predicate IsAnswer(m: Model, parents: seq<string>, store: set<Tuple>, user: Object, h: string, obj: Object, fuel: nat,
                           answer: bool)
  {
    answer <==> Evaluates(m, store, user, h, obj, PermissionUserset(parents, h), fuel)
  }

  /**
   The model preserves meaning. Evaluating a permission's relation succeeds
   exactly when the type of the object carries it and it is granted on the
   object or on one above; and evaluation ends within the rank of the type.
   */
  lemma {:induction false} CheckMeans(m: Model, s: Shape, store: set<Tuple>, user: Object, h: string, obj: Object, fuel: nat)
    requires Realises(m, s) && Conforming(m, store) && h != ParentRelation
    requires obj.typ in s.parents && fuel >= s.rank[obj.typ] + 2
    ensures Check(m, store, user, h, obj, fuel) <==>
      h in s.relations[obj.typ] && GrantedAtOrAbove(store, user, h, obj)
    decreases fuel, 1
  {
    var answer := CheckUnfolds(m, s, store, user, h, obj, fuel);
    if h in s.relations[obj.typ] {
      UsersetMeans(m, s, store, user, h, obj, fuel - 1, answer);
    }
  }

  /** A relation that the type carries evaluates to the grants on the object and above it. */
  lemma {:induction false} UsersetMeans(m: Model, s: Shape, store: set<Tuple>, user: Object, h: string, obj: Object, fuel: nat,
                                        answer: bool)
    requires Realises(m, s) && Conforming(m, store) && h != ParentRelation
    requires obj.typ in s.parents && h in s.relations[obj.typ] && fuel >= s.rank[obj.typ] + 1
    requires IsAnswer(m, s.parents[obj.typ], store, user, h, obj, fuel, answer)
    ensures answer <==> GrantedAtOrAbove(store, user, h, obj)
    decreases fuel, 3
  {
    var direct, above := GrantedOn(store, user, h, obj), GrantedAboveParent(store, user, h, obj);
    assert Evaluates(m, store, user, h, obj, PermissionUserset(s.parents[obj.typ], h), fuel) <==> direct || above by {
      GrantMeans(m, s, store, user, h, obj, fuel);
      ParentsMean(m, s, store, user, h, obj, fuel);
      UnionMeans(m, s, store, user, h, obj, fuel);
    }
    GrantedVia(store, user, h, obj);
  }

  /** The parents' own checks mean what they should. */
  lemma {:induction false} ParentsMean(m: Model, s: Shape, store: set<Tuple>, user: Object, h: string, obj: Object, fuel: nat)
    requires Realises(m, s) && Conforming(m, store) && h != ParentRelation
    requires obj.typ in s.parents && h in s.relations[obj.typ] && fuel >= s.rank[obj.typ] + 1
    ensures ParentsAnswer(m, s, store, user, h, obj, fuel)
    decreases fuel, 2
  {
    forall x | x in store && x.relation == ParentRelation && x.obj == obj
      ensures x.user.Entity? && s.parents[obj.typ] != []
      ensures Check(m, store, user, h, x.user.obj, fuel) <==> GrantedAtOrAbove(store, user, h, x.user.obj)
    {
      ParentTupleMeans(m, s, store, x);
      assert DefinedAs(m, s, obj.typ);
      assert RisesTo(s, obj.typ, x.user.obj.typ);
      CheckMeans(m, s, store, user, h, x.user.obj, fuel);
    }
  }

  ghost predicate ParentsAnswer(m: Model, s: Shape, store: set<Tuple>, user: Object, h: string, obj: Object, fuel: nat)
    requires obj.typ in s.parents
  {
    forall x :: x in store && x.relation == ParentRelation && x.obj == obj ==>
      x.user.Entity? && s.parents[obj.typ] != []
      && (Check(m, store, user, h, x.user.obj, fuel) <==> GrantedAtOrAbove(store, user, h, x.user.obj))
  }

  /** One level: a direct grant, or one above a parent. */
  lemma UnionMeans(m: Model, s: Shape, store: set<Tuple>, user: Object, h: string, obj: Object, fuel: nat)
    requires Evaluates(m, store, user, h, obj, This, fuel) <==> GrantedOn(store, user, h, obj)
    requires obj.typ in s.parents
    requires ParentsAnswer(m, s, store, user, h, obj, fuel)
    ensures Evaluates(m, store, user, h, obj, PermissionUserset(s.parents[obj.typ], h), fuel) <==>
      GrantedOn(store, user, h, obj) || GrantedAboveParent(store, user, h, obj)
  {
    var up := TupleToUserset(ParentRelation, h);
    assert Evaluates(m, store, user, h, obj, up, fuel) <==> GrantedAboveParent(store, user, h, obj) by {
      if parent :| Tuple(Entity(parent), ParentRelation, obj) in store && GrantedAtOrAbove(store, user, h, parent) {
        var x := Tuple(Entity(parent), ParentRelation, obj);
        assert x in store && x.relation == ParentRelation && x.obj == obj && x.user.Entity?;
      }
      if Evaluates(m, store, user, h, obj, up, fuel) {
        var x :| x in store && x.relation == ParentRelation && x.obj == obj && x.user.Entity?
          && Check(m, store, user, h, x.user.obj, fuel);
        assert Tuple(Entity(x.user.obj), ParentRelation, obj) == x;
      }
    }
    if s.parents[obj.typ] != [] {
      assert PermissionUserset(s.parents[obj.typ], h).children == [This, up];
      UnionOfTwo(m, store, user, h, obj, This, up, fuel);
    }
  }

  lemma UnionOfTwo(m: Model, store: set<Tuple>, user: Object, h: string, obj: Object, u: Userset, v: Userset, fuel: nat)
    ensures Evaluates(m, store, user, h, obj, Union([u, v]), fuel) <==>
      Evaluates(m, store, user, h, obj, u, fuel) || Evaluates(m, store, user, h, obj, v, fuel)
  {
    var children := [u, v];
    assert children[0] == u && children[1] == v;
  }
}
