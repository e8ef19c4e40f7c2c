/**
 Writers and the model: which tuples a model takes, the one retry when a write
 meets a model that has just been replaced, and why what a binding writes always
 fits the model built from the same registrations.
 */
module ModelTransition {
  import opened Names
  import opened Sorting
  import R = ResourceGraph
  import opened Hierarchy
  import opened Snapshots
  import opened AuthorizationModel
  import opened ModelMerge
  import opened ModelMeaning
  import opened GraphMeaning
  import opened Hold
  import opened PolicyReconciler
  import opened Wrappers

  // ---- The relations a model defines

  predicate Defines(m: Model, t: string, relation: string) {
    DefOf(m.types, t).Some? && relation in DefOf(m.types, t).value.relations
  }

  /** The model defines the tuple's relation on its object's type, the part before the first colon. */
  predicate Supports(m: Model, t: Tuple) {
    CutAt(Render(t.obj), ':').Cut? && Defines(m, CutAt(Render(t.obj), ':').before, t.relation)
  }

  /** The relations by type; of two definitions for one type the later one stays. */
  ghost predicate Indexes(index: map<string, set<string>>, types: seq<TypeDefinition>) {
    && (forall t :: t in index <==> DefOf(types, t).Some?)
    && (forall t :: t in index ==> index[t] == DefOf(types, t).value.relations.Keys)
  }

  lemma OneMoreIndexed(index: map<string, set<string>>, types: seq<TypeDefinition>, i: nat)
    requires i < |types| && Indexes(index, types[..i])
    ensures Indexes(index[types[i].typ := types[i].relations.Keys], types[..i + 1])
  {
    assert types[..i + 1][..i] == types[..i];
  }

  method ModelSupportsTupleWrites(model: Option<Model>, tuples: seq<Tuple>) returns (supported: bool)
    ensures supported <==> model.Some? && forall t :: t in tuples ==> Supports(model.value, t)
  {
    if model.None? {
      return false;
    }
    var types := model.value.types;
    var relationsByType: map<string, set<string>> := map[];
    for i := 0 to |types|
      invariant Indexes(relationsByType, types[..i])
    {
      OneMoreIndexed(relationsByType, types, i);
      relationsByType := relationsByType[types[i].typ := types[i].relations.Keys];
    }
    assert types[..|types|] == types;
    for i := 0 to |tuples|
      invariant forall t :: t in tuples[..i] ==> Supports(model.value, t)
    {
      assert tuples[i] in tuples;
      var cut := CutAt(Render(tuples[i].obj), ':');
      if cut.NotFound? {
        return false;
      }
      if cut.before !in relationsByType || tuples[i].relation !in relationsByType[cut.before] {
        return false;
      }
    }
    return true;
  }

  /** For types with no colon, that is the type and relation of the tuple itself. */
  lemma SupportsIff(m: Model, t: Tuple)
    requires ':' !in t.obj.typ
    ensures Supports(m, t) <==> Defines(m, t.obj.typ, t.relation)
  {
    CutOfRender(t.obj);
  }

  // ---- The retry

  datatype Request = Request(modelID: string, added: seq<Tuple>, removed: Option<seq<Tuple>>)

  datatype Reply = Accepted | Refused(invalidTuple: bool)

  /** The answer to a read of the newest model. */
  datatype Latest = Unreadable | NoModel | Newest(id: string, model: Model)

  predicate MayBeModelTransition(request: Request, reply: Reply) {
    request.modelID != "" && request.added != [] && request.removed.None? && reply == Refused(true)
  }

  /**
   The write is tried again: it only added, pinned to a model, and was refused for
   an invalid tuple; and a newer model exists that defines every relation it adds.
   */
  predicate Retries(request: Request, reply: Reply, latest: Latest) {
    && request.modelID != "" && request.added != [] && request.removed == None && reply == Refused(true)
    && latest.Newest? && latest.id != "" && latest.id != request.modelID
    && forall t :: t in request.added ==> Supports(latest.model, t)
  }

  class TransitionWriter {
    var tuples: set<Tuple>
    var cachedModelID: string
    var attempts: seq<string>

    method Write(request: Request, modelID: string, reply: Reply)
      modifies this
      ensures attempts == old(attempts) + [modelID] && cachedModelID == old(cachedModelID)
      ensures tuples == if reply.Accepted? then Applied(old(tuples), request) else old(tuples)
    {
      attempts := attempts + [modelID];
      if reply.Accepted? {
        tuples := Applied(tuples, request);
      }
    }

    /**
     One write, and at most one more. `first`, `latest` and `second` are OpenFGA's
     answers. A permission that the newest model does not know stays refused, and
     the cached model ID is replaced only if it is still the one that failed.
     */
    method WriteWithModelTransitionRetry(request: Request, first: Reply, latest: Latest, second: Reply) returns (ok: bool)
      modifies this
      ensures attempts == old(attempts) + [request.modelID] + if Retries(request, first, latest) then [latest.id] else []
      ensures ok <==> first.Accepted? || (Retries(request, first, latest) && second.Accepted?)
      ensures ok ==> forall t :: t in tuples <==>
        t in request.added || (t in old(tuples) && !(request.removed.Some? && t in request.removed.value))
      ensures !ok ==> tuples == old(tuples)
      ensures cachedModelID ==
        if Retries(request, first, latest) && old(cachedModelID) == request.modelID then latest.id else old(cachedModelID)
    {
      Write(request, request.modelID, first);
      if first.Accepted? {
        return true;
      }
      if !MayBeModelTransition(request, first) {
        return false;
      }
      if latest.Unreadable? || latest.NoModel? || latest.id == "" || latest.id == request.modelID {
        return false;
      }
      var supported := ModelSupportsTupleWrites(Some(latest.model), request.added);
      if !supported {
        return false;
      }
      if cachedModelID == request.modelID {
        cachedModelID := latest.id;
      }
      Write(request, latest.id, second);
      return second.Accepted?;
    }
  }

  function Applied(tuples: set<Tuple>, request: Request): set<Tuple> {
    tuples - (if request.removed.Some? then AsSet(request.removed.value) else {}) + AsSet(request.added)
  }

  // ---- The permissions valid on a binding's target

  /** Those of the target's type, or of all types when the graph does not have it. */
  function ValidOn(g: R.Graph, on: bool, t: string): set<string>
    requires R.ResourceGraphOf(g, on).Ok?
  {
    if t in HierarchyOf(g, on) then PermissionsOn(HierarchyOf(g, on), t) else EveryPermission(HierarchyOf(g, on))
  }

  /** None without a target or a graph, else the permissions valid on the target. */
  predicate IsValidOn(valid: Option<set<string>>, g: R.Graph, on: bool, selector: Selector) {
    if selector.Unspecified? || !R.ResourceGraphOf(g, on).Ok? then valid.None?
    else valid == Some(ValidOn(g, on, TypeName(selector.group, selector.kind)))
  }

  method GetHierarchicalPermissionsForSelector(prs: seq<R.ProtectedResource>, on: bool, selector: Selector)
    returns (valid: Option<set<string>>, ghost g: R.Graph)
    requires R.SlashlessTypes(prs) && NoSystemTypes(prs)
    ensures R.Describes(g, prs)
    ensures forall h :: R.Describes(h, prs) ==> IsValidOn(valid, h, on, selector)
  {
    var root;
    root, g := R.GetResourceGraph(prs, on);
    forall h | R.Describes(h, prs)
      ensures R.ResourceGraphOf(h, on) == R.ResourceGraphOf(g, on)
      ensures root.Ok? ==> HierarchyOf(h, on) == HierarchyOf(g, on)
    {
      GraphsAgree(g, h, prs, prs);
      HierarchiesAgree(g, h, on);
    }
    if selector.Unspecified? || !root.Ok? {
      return None, g;
    }
    DescribedIsSound(g, prs);
    var hierarchy := CalculateHierarchicalPermissions(root.value, g, on);
    var t := TargetType(selector);
    if t !in hierarchy {
      var all := CollectPermissions(hierarchy);
      return Some(Elements(all)), g;
    }
    return Some(Elements(hierarchy[t])), g;
  }

  /** A reconcile reads its valid permissions from the registrations of `g`. */
  ghost predicate ReadsFrom(cl: Cluster, g: R.Graph) {
    && R.ResourceGraphOf(g, cl.subresourcesOn).Ok?
    && forall t :: cl.valid(t) == ValidOn(g, cl.subresourcesOn, t)
  }

  // ---- What a binding writes fits the model

  /** The object's type of a binding's tuples: Root for a kind, otherwise the target's own type. */
  function WrittenType(selector: Selector): string
    requires !selector.Unspecified?
  {
    if selector.ResourceKind? then RootType else TargetType(selector)
  }

  lemma TupleUserIsHolder(s: Subject)
    requires TupleUser(s).Some?
    ensures Admits(Holders, TupleUser(s).value)
  {
  }

  lemma ValidIsCarried(g: R.Graph, on: bool, selector: Selector, permission: string)
    requires R.ResourceGraphOf(g, on).Ok? && Sound(g) && !selector.Unspecified?
    requires IsModelled(g, WrittenType(selector)) && permission in ValidOn(g, on, TargetType(selector))
    ensures permission in Carried(g, on, WrittenType(selector))
  {
    GraphTypeList(g, on);
    var t := TargetType(selector);
    HierarchyMeans(g, on, t);
    if t in HierarchyOf(g, on) {
      GraphMeaning.CarriedMeans(g, on, t, permission);
    }
  }

  /** A relation that a type carries takes every user a binding can write. */
  lemma CarriedConforms(m: Model, g: R.Graph, on: bool, hash: Hash, permission: string, t: Tuple)
    requires InForce(m, g, on, hash) && IsModelled(g, t.obj.typ)
    requires permission in Carried(g, on, t.obj.typ) && t.relation == hash(permission) && Admits(Holders, t.user)
    ensures Conforms(m, t) && Defines(m, t.obj.typ, t.relation)
  {
    ShapeIsDefined(m, g, on, hash, t.obj.typ) by {
      GraphTypeList(g, on);
    }
    var d := DefOf(m.types, t.obj.typ).value;
    FoundIsThere(m.types, t.obj.typ);
    RelatingMeans(d, ParentsOn(g, t.obj.typ), Hashes(hash, Carried(g, on, t.obj.typ)), t.relation);
    AdmitsAlike(d.related[t.relation], Holders, t.user);
  }

  /** Every tuple that a binding wants conforms to the model built from the registrations the binding read. */
  lemma WritesConform(m: Model, g: R.Graph, cl: Cluster, b: PolicyBinding, t: Tuple)
    requires InForce(m, g, cl.subresourcesOn, cl.hash) && ReadsFrom(cl, g)
    requires Specified(b) && Desired(cl, b).Some? && t in Desired(cl, b).value
    requires cl.subresourcesOn || ValidFor(cl, b) != {}
    requires IsModelled(g, WrittenType(b.selector))
    ensures Conforms(m, t) && Defines(m, t.obj.typ, t.relation)
  {
    WantsIff(cl, b, t);
    TargetMeans(b.selector, t.obj);
    var permission :| RoleGrants(cl, b, permission)
      && Writable(cl.subresourcesOn, cl.valid(TargetType(b.selector)), permission) && t.relation == cl.hash(permission);
    ValidIsCarried(g, cl.subresourcesOn, b.selector, permission);
    var s := SubjectOf(b, t.user);
    TupleUserIsHolder(s);
    CarriedConforms(m, g, cl.subresourcesOn, cl.hash, permission, t);
  }

  /**
   Writer and model agree. The policy reconciler and the model builder list the
   same registrations, each in its own order. Whatever a binding of a kind, or of
   an object whose type the graph has, asks to write is supported by the model,
   merged with whatever was in the store.
   */
  lemma WriterAndModelAgree(prs: seq<R.ProtectedResource>, g: R.Graph, h: R.Graph, current: Model, cl: Cluster, b: PolicyBinding,
                            t: Tuple)
    requires R.Describes(g, InOrder(prs)) && R.Describes(h, prs) && OneSpecPerType(prs)
    requires R.SlashlessTypes(prs) && NoSystemTypes(prs) && (forall p :: cl.hash(p) != ParentRelation)
    requires ReadsFrom(cl, h)
    requires Specified(b) && Desired(cl, b).Some? && t in Desired(cl, b).value && ':' !in t.obj.typ
    requires cl.subresourcesOn || ValidFor(cl, b) != {}
    requires IsModelled(h, WrittenType(b.selector))
    ensures R.ResourceGraphOf(g, cl.subresourcesOn).Ok?
    ensures Supports(Merge(current, ModelOf(g, cl.subresourcesOn, cl.hash)), t)
  {
    SortedIsSame(prs);
    GraphsAgree(h, g, prs, InOrder(prs));
    HierarchiesAgree(g, h, cl.subresourcesOn);
    ModelsAgree(h, g, cl.subresourcesOn, cl.hash);
    DescribedIsSound(h, prs);
    MergedIsInForce(current, h, cl.subresourcesOn, cl.hash);
    WritesConform(Merge(current, ModelOf(h, cl.subresourcesOn, cl.hash)), h, cl, b, t);
    SupportsIff(Merge(current, ModelOf(h, cl.subresourcesOn, cl.hash)), t);
  }

  /** The other writers' tuples conform too: a Project's parent tuples, when Projects declare Organizations as parents. */
  lemma ParentTupleConforms(m: Model, g: R.Graph, on: bool, hash: Hash, ref: OwnerRef, child: Object)
    requires InForce(m, g, on, hash) && AdmittedOwner(ref) && child.typ == ProjectType
    requires InGraph(g, ProjectType) && OrganizationType in DeclaredParents(g, ProjectType)
    ensures Conforms(m, ParentTuple(ref, child))
  {
    GraphTypeList(g, on);
    ModelledType(m, g, on, hash, ProjectType);
    assert forall p :: hash(p) != ParentRelation;
    SameElements(DeclaredParents(g, ProjectType), ParentsOn(g, ProjectType));
    ParentConforms(m, ParentTuple(ref, child), ParentsOn(g, ProjectType), Hashes(hash, Carried(g, on, ProjectType)));
  }

  /** And the members of groups. */
  lemma MemberTupleConforms(m: Model, g: R.Graph, on: bool, hash: Hash, user: Object, group: Object)
    requires InForce(m, g, on, hash) && user.typ == InternalUserType && group.typ == InternalUserGroupType
    ensures Conforms(m, Tuple(Entity(user), MemberRelation, group))
  {
    GroupTypeInForce(m, g, on, hash);
    assert UserGroupType.related[MemberRelation][0] == TypeRef(InternalUserType, "");
    AdmitsAlike(DefOf(m.types, group.typ).value.related[MemberRelation], UserGroupType.related[MemberRelation], Entity(user));
  }

  /** A tuple on an object whose type the graph does not have is never supported, whatever its permission. */
  lemma OutsideGraphIsRefused(m: Model, g: R.Graph, on: bool, hash: Hash, t: Tuple)
    requires InForce(m, g, on, hash) && '/' in t.obj.typ && ':' !in t.obj.typ
    requires !InGraph(g, t.obj.typ) && t.obj.typ !in SystemTypes
    ensures !Supports(m, t)
  {
    ModelDefines(g, on, hash, t.obj.typ);
    SupportsIff(m, t);
  }
}
