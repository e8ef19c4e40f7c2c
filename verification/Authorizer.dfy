/**
 The authorization webhook: which objects a request is checked against, and what
 its answer means once model, bindings and parent tuples are in place.
 */
module Authorizer {
  import opened Names
  import opened Permissions
  import R = ResourceGraph
  import opened Hierarchy
  import opened AuthorizationModel
  import opened ModelMerge
  import opened ModelMeaning
  import opened GraphMeaning
  import opened ModelTransition
  import opened PolicyReconciler
  import BindingConvergence
  import opened Wrappers

  /** Keys of the user's extra data that name the scope of a request. */
  datatype ExtraKey = ParentAPIGroup | ParentKind | ParentName

  datatype Attributes = Attributes(
    userUID: string,
    extra: map<ExtraKey, seq<string>>,
    apiGroup: string,
    resource: string,
    subresource: string,
    verb: string,
    name: string)

  datatype ParentContext = ParentContext(apiGroup: string, kind: string, name: string)

  datatype Decision = Allow | Deny | NoOpinion

  datatype Verdict = Verdict(decision: Decision, error: bool)

  // ---- What a request asks for, in terms of its attributes

  /** The core API group is served under a name of its own. */
  const CoreGroup := "core.miloapis.com"

  /** The permission of a request; the flag says whether the subresource is part of it. */
  function PermissionOf(on: bool, a: Attributes): string {
    (if a.apiGroup == "" then CoreGroup else a.apiGroup) + "/" + a.resource
    + (if on && a.subresource != "" then "/" + a.subresource else "") + "." + a.verb
  }

  /** The attributes that Kubernetes admits in a resource request. */
  predicate WellFormedRequest(a: Attributes) {
    '/' !in a.apiGroup && a.resource != "" && IsPart(a.resource) && IsPart(a.subresource) && a.verb != ""
  }

  /**
   The registration declares what the request asks for. With the flag on, the
   verb is one of the subresource's if the request is for a subresource, and a
   registration that is being deleted declares nothing.
   */
  predicate Declares(on: bool, pr: R.ProtectedResource, a: Attributes) {
    if !on then a.verb in pr.spec.verbs
    else
      && !pr.deleting
      && pr.spec.service == (if a.apiGroup == "" then CoreGroup else a.apiGroup) && pr.spec.plural == a.resource
      && if a.subresource == "" then a.verb in pr.spec.verbs else a.verb in SubresourceVerbs(pr.spec.subresources, a.subresource)
  }

  /** The request names an instance: by its name, unless it is a collection request of the base resource. */
  predicate NamesInstance(on: bool, a: Attributes) {
    && a.name != ""
    && ((on && a.subresource != "") || (a.verb != "list" && a.verb != "create" && a.verb != "watch"))
  }

  /** The request is made in the scope of `parent`. */
  predicate InScope(a: Attributes, parent: ParentContext) {
    && ParentAPIGroup in a.extra && a.extra[ParentAPIGroup] == [parent.apiGroup]
    && ParentKind in a.extra && a.extra[ParentKind] == [parent.kind]
    && ParentName in a.extra && a.extra[ParentName] == [parent.name]
  }

  /**
   An object that may carry a grant for the request: the Root object of its kind,
   the instance that it names, the scope that it is made in, and the Root object
   of the scope's kind.
   */
  ghost predicate IsCandidate(on: bool, spec: ResourceSpec, a: Attributes, o: Object) {
    || o == Object("iam.miloapis.com/Root", TypeName(spec.service, spec.kind))
    || (NamesInstance(on, a) && o == Object(TypeName(spec.service, spec.kind), a.name))
    || exists parent :: InScope(a, parent) && (o == ScopeObject(parent) || o == ScopeRoot(parent))
  }

  function ScopeObject(parent: ParentContext): Object {
    Object(TypeName(parent.apiGroup, parent.kind), parent.name)
  }

  function ScopeRoot(parent: ParentContext): Object {
    Object("iam.miloapis.com/Root", TypeName(parent.apiGroup, parent.kind))
  }

  // ---- The request

  function EffectiveGroup(apiGroup: string): string {
    if apiGroup == "" then CoreGroup else apiGroup
  }

  function RequestedPermission(on: bool, a: Attributes): Permission {
    Permission(EffectiveGroup(a.apiGroup), a.resource, if on then a.subresource else "", a.verb)
  }

  lemma PermissionPrinted(on: bool, a: Attributes)
    ensures Print(RequestedPermission(on, a)) == PermissionOf(on, a)
  {
    var p := RequestedPermission(on, a);
    var path := if p.subresource == "" then p.resource else p.resource + "/" + p.subresource;
    assert PathOf(p) == path == p.resource + (if p.subresource == "" then "" else "/" + p.subresource);
    assert p.group + "/" + path == p.group + "/" + p.resource + (if p.subresource == "" then "" else "/" + p.subresource);
  }

  /**
   With the flag on, the permission of a request says exactly which group,
   resource, subresource and verb it is for, so requests that differ in one of
   them never share a permission.
   */
  lemma RequestedExactly(a: Attributes)
    requires WellFormedRequest(a)
    ensures Parse(PermissionOf(true, a)) ==
      Parsed(Permission(if a.apiGroup == "" then CoreGroup else a.apiGroup, a.resource, a.subresource, a.verb))
  {
    var p := RequestedPermission(true, a);
    assert '/' !in CoreGroup && WellFormed(p);
    PermissionPrinted(true, a);
    PrintedParsesBack(p);
  }

  /** With the flag off, requests that differ in the subresource alone share theirs. */
  lemma SubresourceIgnored(a: Attributes, subresource: string)
    ensures PermissionOf(false, a) == PermissionOf(false, a.(subresource := subresource))
  {
  }

  function ExtractParentContext(a: Attributes): Option<ParentContext> {
    if ParentAPIGroup !in a.extra || ParentKind !in a.extra || ParentName !in a.extra then None
    else if |a.extra[ParentAPIGroup]| == 1 && |a.extra[ParentKind]| == 1 && |a.extra[ParentName]| == 1 then
      Some(ParentContext(a.extra[ParentAPIGroup][0], a.extra[ParentKind][0], a.extra[ParentName][0]))
    else None
  }

  lemma ExtractedIsScope(a: Attributes, parent: ParentContext)
    ensures ExtractParentContext(a) == Some(parent) <==> InScope(a, parent)
  {
  }

  function ParentOf(parent: ParentContext): Object {
    ObjectName(parent.apiGroup, parent.kind, parent.name)
  }

  /** The request's permission is one that the registration declares. */
  predicate Registered(on: bool, pr: R.ProtectedResource, a: Attributes) {
    if !on then a.verb in pr.spec.verbs
    else
      && !pr.deleting
      && Parse(PermissionOf(true, a)).Parsed?
      && IsDefined(pr.spec, Parse(PermissionOf(true, a)).p, on)
  }

  /** For a request that Kubernetes admits. */
  lemma RegisteredIffDeclared(on: bool, pr: R.ProtectedResource, a: Attributes)
    requires WellFormedRequest(a)
    ensures Registered(on, pr, a) <==> Declares(on, pr, a)
  {
    RequestedExactly(a);
  }

  method ValidatePermission(on: bool, cached: Option<R.ProtectedResource>, a: Attributes) returns (registered: bool)
    ensures registered <==> cached.Some? && Registered(on, cached.value, a)
    ensures WellFormedRequest(a) ==> (registered <==> cached.Some? && Declares(on, cached.value, a))
  {
    if WellFormedRequest(a) && cached.Some? {
      RegisteredIffDeclared(on, cached.value, a);
    }
    if cached.None? {
      return false;
    }
    if !on {
      return a.verb in cached.value.spec.verbs;
    }
    PermissionPrinted(on, a);
    var parsed := Parse(Print(RequestedPermission(on, a)));
    if parsed.Malformed? || cached.value.deleting {
      return false;
    }
    registered := Defined(cached.value.spec, parsed.p, on);
  }

  const CollectionVerbs := ["list", "create", "watch"]

  /** The object of a request: the named instance, else the scope, else the kind's Root. */
  function ResourceObject(on: bool, spec: ResourceSpec, a: Attributes): Object {
    var isNamedSubresource := on && a.subresource != "" && a.name != "";
    var isCollection := a.verb in CollectionVerbs || a.name == "";
    if isNamedSubresource || !isCollection then ObjectName(spec.service, spec.kind, a.name)
    else if ExtractParentContext(a).Some? then ParentOf(ExtractParentContext(a).value)
    else KindRoot(spec.service, spec.kind)
  }

  lemma ResourceObjectIs(on: bool, spec: ResourceSpec, a: Attributes)
    ensures IsCandidate(on, spec, a, ResourceObject(on, spec, a))
    ensures NamesInstance(on, a) ==> ResourceObject(on, spec, a) == Object(TypeName(spec.service, spec.kind), a.name)
  {
    assert CollectionVerbs[0] == "list" && CollectionVerbs[1] == "create" && CollectionVerbs[2] == "watch";
    if ExtractParentContext(a).Some? {
      ExtractedIsScope(a, ExtractParentContext(a).value);
    }
  }

  /** One check of the batch: may the user have the relation on the object? */
  datatype CheckItem = CheckItem(user: string, relation: string, obj: string)

  /** The check that a request makes on one object. */
  function CheckOn(hash: Hash, on: bool, a: Attributes, o: Object): CheckItem {
    CheckItem("iam.miloapis.com/InternalUser:" + a.userUID, hash(PermissionOf(on, a)), Render(o))
  }

  method BuildChecks(hash: Hash, on: bool, spec: ResourceSpec, a: Attributes) returns (checks: seq<CheckItem>)
    ensures forall item :: item in checks <==> exists o :: IsCandidate(on, spec, a, o) && CheckOn(hash, on, a, o) == item
  {
    PermissionPrinted(on, a);
    ResourceObjectIs(on, spec, a);
    var user := Render(Requester(a.userUID));
    var relation := hash(Print(RequestedPermission(on, a)));
    var primary := CheckItem(user, relation, Render(ResourceObject(on, spec, a)));
    var root := CheckItem(user, relation, Render(KindRoot(spec.service, spec.kind)));
    assert user == "iam.miloapis.com/InternalUser:" + a.userUID;
    var extra: seq<CheckItem> := [];
    var parent := ExtractParentContext(a);
    if parent.Some? {
      ExtractedIsScope(a, parent.value);
      extra := [CheckItem(user, relation, Render(KindRoot(parent.value.apiGroup, parent.value.kind)))];
      var scopeParent := CheckItem(user, relation, Render(ParentOf(parent.value)));
      if primary != scopeParent {
        extra := extra + [scopeParent];
      }
    }
    checks := [primary, root] + extra;
    ghost var candidates := {ResourceObject(on, spec, a), KindRoot(spec.service, spec.kind)}
      + if parent.Some? then {ScopeObject(parent.value), ScopeRoot(parent.value)} else {};
    CandidatesAre(on, spec, a, candidates);
    assert forall item :: item in checks <==> exists o :: o in candidates && CheckOn(hash, on, a, o) == item;
  }

  lemma CandidatesAre(on: bool, spec: ResourceSpec, a: Attributes, candidates: set<Object>)
    requires candidates == {ResourceObject(on, spec, a), KindRoot(spec.service, spec.kind)}
      + var parent := ExtractParentContext(a);
        if parent.Some? then {ScopeObject(parent.value), ScopeRoot(parent.value)} else {}
    ensures forall o :: IsCandidate(on, spec, a, o) <==> o in candidates
  {
    ResourceObjectIs(on, spec, a);
    forall parent
      ensures ExtractParentContext(a) == Some(parent) <==> InScope(a, parent)
    {
      ExtractedIsScope(a, parent);
    }
  }

  /** OpenFGA answers each check; a failed call answers none. */
  method ExecuteBatchCheck(checks: seq<CheckItem>, failed: bool, answer: CheckItem -> bool) returns (v: Verdict)
    ensures v == if failed then Verdict(NoOpinion, true)
      else if exists item :: item in checks && answer(item) then Verdict(Allow, false) else Verdict(Deny, false)
  {
    if failed {
      return Verdict(NoOpinion, true);
    }
    for i := 0 to |checks|
      invariant forall item :: item in checks[..i] ==> !answer(item)
    {
      if answer(checks[i]) {
        return Verdict(Allow, false);
      }
    }
    return Verdict(Deny, false);
  }

  /**
   One request. `cached` is the registration the index holds for the request's
   group and resource, `namespaceValid` the organization namespace check,
   `failed` and `answer` OpenFGA's reply.
   */
  method Authorize(hash: Hash, on: bool, a: Attributes, namespaceValid: bool, cached: Option<R.ProtectedResource>, failed: bool,
                   answer: CheckItem -> bool)
    returns (v: Verdict)
    ensures v.decision == Allow <==> Allowed(hash, on, a, namespaceValid, cached, failed, answer)
    ensures v.decision == NoOpinion <==> Checkable(on, a, namespaceValid, cached) && failed
    ensures v.error <==>
      || a.userUID == "" || !namespaceValid
      || (!on && !Checkable(on, a, namespaceValid, cached)) || (failed && Checkable(on, a, namespaceValid, cached))
    ensures WellFormedRequest(a) && v.decision == Allow ==> cached.Some? && Declares(on, cached.value, a)
  {
    if a.userUID == "" || !namespaceValid {
      return Verdict(Deny, true);
    }
    var registered := ValidatePermission(on, cached, a);
    if !registered {
      return Verdict(Deny, !on);
    }
    var checks := BuildChecks(hash, on, cached.value.spec, a);
    v := ExecuteBatchCheck(checks, failed, answer);
  }

  predicate Checkable(on: bool, a: Attributes, namespaceValid: bool, cached: Option<R.ProtectedResource>) {
    a.userUID != "" && namespaceValid && cached.Some? && Registered(on, cached.value, a)
  }

  /** A valid request for a registered permission, that one of the candidate objects grants. */
  ghost predicate Allowed(hash: Hash, on: bool, a: Attributes, namespaceValid: bool, cached: Option<R.ProtectedResource>,
                          failed: bool, answer: CheckItem -> bool)
  {
    && Checkable(on, a, namespaceValid, cached) && !failed
    && exists o :: IsCandidate(on, cached.value.spec, a, o) && answer(CheckOn(hash, on, a, o))
  }

  // ---- The cluster behind the webhook

  /** No permission's relation is one of the three that the model uses for itself. */
  ghost predicate PermissionRelations(hash: Hash) {
    forall p :: hash(p) != ParentRelation && hash(p) != MemberRelation && hash(p) != AssigneeRelation
  }

  function RegisteredPermissions(g: R.Graph, on: bool): set<string> {
    set t, p | t in g.specs && p in Enumeration(g.specs[t], on) :: p
  }

  predicate InjectiveOn(hash: Hash, permissions: set<string>) {
    forall p, q :: p in permissions && q in permissions && hash(p) == hash(q) ==> p == q
  }

  /**
   The permission tuples in the store are what the live bindings want on types
   that the model has; OpenFGA refuses the writes of a binding on any other type.
   All other tuples are parents and members.
   */
  ghost predicate Converged(g: R.Graph, cl: Cluster, store: set<Tuple>) {
    forall t: Tuple :: t.relation != ParentRelation && t.relation != MemberRelation ==>
      (t in store <==> BindingConvergence.Wanted(cl, t) && IsModelled(g, t.obj.typ))
  }

  /** OpenFGA has admitted the parent and member tuples in the store. */
  ghost predicate OthersAdmitted(m: Model, store: set<Tuple>) {
    forall t :: t in store && (t.relation == ParentRelation || t.relation == MemberRelation) ==> Conforms(m, t)
  }

  /** Types written by hand have no slash, and no relation of a permission. */
  ghost predicate PermissionsAreGenerated(m: Model, hash: Hash) {
    forall t, p :: '/' !in t && DefOf(m.types, t).Some? ==> hash(p) !in DefOf(m.types, t).value.relations
  }

  /** A model with no hand-written types is one. */
  lemma NothingByHand(g: R.Graph, on: bool, hash: Hash)
    requires R.ResourceGraphOf(g, on).Ok? && Sound(g)
    ensures PermissionsAreGenerated(ModelOf(g, on, hash), hash)
  {
    var types := ModelOf(g, on, hash).types;
    ModelTypesHaveSlash(g, on, hash);
    forall t | DefOf(types, t).Some?
      ensures '/' in t
    {
      FoundIsThere(types, t);
      var i :| 0 <= i < |types| && types[i].typ == t;
      assert types[i] in types;
    }
  }

  /** Everything that the end-to-end statement takes for granted, with the flag on. */
  ghost predicate InPlace(m: Model, g: R.Graph, cl: Cluster, store: set<Tuple>) {
    && cl.subresourcesOn && InForce(m, g, true, cl.hash) && ParentsRegistered(g) && ReadsFrom(cl, g)
    && PermissionRelations(cl.hash) && InjectiveOn(cl.hash, RegisteredPermissions(g, true))
    && PermissionsAreGenerated(m, cl.hash)
    && BindingConvergence.Resolved(cl) && Converged(g, cl, store) && OthersAdmitted(m, store)
  }

  /** What a live binding wants on a type of the model conforms to it. */
  lemma WantedConforms(m: Model, g: R.Graph, cl: Cluster, t: Tuple)
    requires cl.subresourcesOn && InForce(m, g, true, cl.hash) && ReadsFrom(cl, g) && BindingConvergence.Resolved(cl)
    requires BindingConvergence.Wanted(cl, t) && IsModelled(g, t.obj.typ)
    ensures Conforms(m, t)
  {
    var b :| b in cl.bindings && !b.deleting && Specified(b) && t in BindingConvergence.Own(cl, b);
    WrittenOnType(cl, b, t);
    WritesConform(m, g, cl, b, t);
  }

  lemma WrittenOnType(cl: Cluster, b: PolicyBinding, t: Tuple)
    requires Specified(b) && t in BindingConvergence.Own(cl, b)
    ensures t.obj.typ == WrittenType(b.selector)
  {
    BindingConvergence.OwnIsManaged(cl, b, t);
  }

  /** What is in the store conforms to the model. */
  lemma InPlaceConforms(m: Model, g: R.Graph, cl: Cluster, store: set<Tuple>)
    requires InPlace(m, g, cl, store)
    ensures Conforming(m, store)
  {
    forall t | t in store
      ensures Conforms(m, t)
    {
      if t.relation != ParentRelation && t.relation != MemberRelation {
        WantedConforms(m, g, cl, t);
      }
    }
  }

  /** Reconciling every binding once leaves a converged store, if only bindings wrote permission tuples before. */
  lemma ReconciledIsConverged(g: R.Graph, cl: Cluster, start: set<Tuple>, acts: seq<BindingConvergence.Action>)
    requires BindingConvergence.WellFormedBindings(cl) && BindingConvergence.Covered(cl)
    requires BindingConvergence.Completes(cl, start, acts)
    requires forall b :: b in cl.bindings && !b.deleting && Specified(b) ==> IsModelled(g, WrittenType(b.selector))
    requires forall t :: t in start && t.relation != ParentRelation && t.relation != MemberRelation ==>
      BindingConvergence.Mentioned(cl, t)
    ensures Converged(g, cl, BindingConvergence.Exec(cl, BindingConvergence.World(start, map[], {}), acts).tuples)
  {
    BindingConvergence.Converges(cl, start, acts);
    forall t | BindingConvergence.Wanted(cl, t)
      ensures BindingConvergence.Mentioned(cl, t) && IsModelled(g, t.obj.typ)
    {
      var b :| b in cl.bindings && !b.deleting && Specified(b) && t in BindingConvergence.Own(cl, b);
      BindingConvergence.OwnIsManaged(cl, b, t);
    }
  }

  // ---- What a binding gives a requester

  function Requester(uid: string): Object {
    Object(InternalUserType, uid)
  }

  /** The subject is the requester, or a group with the requester as a member. */
  ghost predicate IsSubject(store: set<Tuple>, s: Subject, uid: string) {
    || (s.kind == "User" && s.uid != "" && s.name == uid)
    || (s.kind == "ServiceAccount" && s.uid != "" && s.uid == uid)
    || (exists group :: IsUserOf(s, Userset(group, "member")) && Tuple(Entity(Requester(uid)), "member", group) in store)
  }

  ghost predicate Covers(store: set<Tuple>, b: PolicyBinding, uid: string) {
    exists s :: s in b.subjects && IsSubject(store, s, uid)
  }

  lemma SubjectReaches(store: set<Tuple>, s: Subject, uid: string)
    requires TupleUser(s).Some?
    ensures IsSubject(store, s, uid) <==> Reaches(store, TupleUser(s).value, Requester(uid))
  {
    UserMeans(s, TupleUser(s).value);
    forall group | IsUserOf(s, Userset(group, "member"))
      ensures TupleUser(s).value == Userset(group, "member")
    {
      UserMeans(s, Userset(group, "member"));
    }
  }

  lemma CoveredBy(store: set<Tuple>, b: PolicyBinding, s: Subject, uid: string)
    requires s in b.subjects && TupleUser(s).Some? && Reaches(store, TupleUser(s).value, Requester(uid))
    ensures Covers(store, b, uid)
  {
    SubjectReaches(store, s, uid);
  }

  /** A live binding covers the requester, and grants the permission on `target`, on whose type it is valid. */
  ghost predicate Gives(cl: Cluster, store: set<Tuple>, b: PolicyBinding, uid: string, permission: string, target: Object) {
    && b in cl.bindings && !b.deleting && IsTarget(b.selector, target)
    && Covers(store, b, uid) && RoleGrants(cl, b, permission) && permission in cl.valid(TypeName(b.selector.group, b.selector.kind))
  }

  lemma HeldIsRegistered(g: R.Graph, on: bool, t: string, permission: string)
    requires R.ResourceGraphOf(g, on).Ok? && Sound(g)
    requires t in HierarchyOf(g, on) && permission in PermissionsOn(HierarchyOf(g, on), t)
    ensures permission in RegisteredPermissions(g, on)
  {
    HierarchyMeans(g, on, t);
    BelowIsRegistered(g, on, t, permission);
  }

  lemma BelowIsRegistered(g: R.Graph, on: bool, t: string, permission: string)
    requires RegisteredBelow(g, on, t, permission)
    ensures permission in RegisteredPermissions(g, on)
  {
  }

  lemma ValidIsHeld(g: R.Graph, on: bool, t: string, permission: string) returns (x: string)
    requires R.ResourceGraphOf(g, on).Ok? && permission in ValidOn(g, on, t)
    ensures x in HierarchyOf(g, on) && permission in PermissionsOn(HierarchyOf(g, on), x)
  {
    x :| x in HierarchyOf(g, on) && permission in PermissionsOn(HierarchyOf(g, on), x);
  }

  lemma ValidIsRegistered(g: R.Graph, cl: Cluster, t: string, permission: string)
    requires cl.subresourcesOn && ReadsFrom(cl, g) && Sound(g) && permission in cl.valid(t)
    ensures permission in RegisteredPermissions(g, true)
  {
    var x := ValidIsHeld(g, true, t, permission);
    HeldIsRegistered(g, true, x, permission);
  }

  /** A wanted tuple of `relation` on `target` that reaches the requester. */
  predicate WantedFor(cl: Cluster, store: set<Tuple>, t: Tuple, uid: string, relation: string, target: Object) {
    BindingConvergence.Wanted(cl, t) && t.relation == relation && t.obj == target && Reaches(store, t.user, Requester(uid))
  }

  /** The wanted tuples of a permission are the bindings' grants, and back. */
  lemma WantedGives(g: R.Graph, cl: Cluster, store: set<Tuple>, uid: string, permission: string, target: Object)
    requires cl.subresourcesOn && ReadsFrom(cl, g) && Sound(g) && BindingConvergence.Resolved(cl)
    requires InjectiveOn(cl.hash, RegisteredPermissions(g, true)) && permission in RegisteredPermissions(g, true)
    ensures (exists t :: WantedFor(cl, store, t, uid, cl.hash(permission), target))
      <==> (exists b :: Gives(cl, store, b, uid, permission, target))
  {
    if t :| WantedFor(cl, store, t, uid, cl.hash(permission), target) {
      var b :| b in cl.bindings && !b.deleting && Specified(b) && t in BindingConvergence.Own(cl, b);
      WantedIsGiven(g, cl, store, b, t, uid, permission);
    }
    if b :| Gives(cl, store, b, uid, permission, target) {
      var t := GivenIsWanted(cl, store, b, uid, permission, target);
      assert WantedFor(cl, store, t, uid, cl.hash(permission), target);
    }
  }

  lemma WantedIsGiven(g: R.Graph, cl: Cluster, store: set<Tuple>, b: PolicyBinding, t: Tuple, uid: string, permission: string)
    requires cl.subresourcesOn && ReadsFrom(cl, g) && Sound(g) && BindingConvergence.Resolved(cl)
    requires InjectiveOn(cl.hash, RegisteredPermissions(g, true)) && permission in RegisteredPermissions(g, true)
    requires b in cl.bindings && !b.deleting && Specified(b) && t in BindingConvergence.Own(cl, b)
    requires t.relation == cl.hash(permission) && Reaches(store, t.user, Requester(uid))
    ensures Gives(cl, store, b, uid, permission, t.obj)
  {
    WantsIff(cl, b, t);
    var q :| RoleGrants(cl, b, q) && Writable(true, cl.valid(TargetType(b.selector)), q) && t.relation == cl.hash(q);
    ValidIsRegistered(g, cl, TargetType(b.selector), q);
    assert q == permission;
    var s := SubjectOf(b, t.user);
    CoveredBy(store, b, s, uid);
  }

  lemma GivenIsWanted(cl: Cluster, store: set<Tuple>, b: PolicyBinding, uid: string, permission: string, target: Object)
    returns (t: Tuple)
    requires cl.subresourcesOn && BindingConvergence.Resolved(cl) && Gives(cl, store, b, uid, permission, target)
    ensures BindingConvergence.Wanted(cl, t) && t.relation == cl.hash(permission) && t.obj == target
    ensures Reaches(store, t.user, Requester(uid))
  {
    var s :| s in b.subjects && IsSubject(store, s, uid);
    assert TupleUser(s).Some?;
    SubjectReaches(store, s, uid);
    t := Tuple(TupleUser(s).value, cl.hash(permission), target);
    UserMeans(s, t.user);
    WantsIff(cl, b, t);
    assert t in BindingConvergence.Own(cl, b);
  }
}
