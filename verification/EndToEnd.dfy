/**
 Writer, model and webhook together: which requests are allowed, in terms of the
 bindings and the parent tuples alone.
 */
module EndToEnd {
  import opened Names
  import opened Permissions
  import R = ResourceGraph
  import opened Hierarchy
  import opened AuthorizationModel
  import opened ModelMeaning
  import opened GraphMeaning
  import opened PolicyReconciler
  import opened Authorizer
  import opened Wrappers

  /** The type is in the model, and has a relation for the permission. */
  ghost predicate Carries(g: R.Graph, t: string, permission: string) {
    R.ResourceGraphOf(g, true).Ok? && IsModelled(g, t) && permission in Carried(g, true, t)
  }

  /** Some live binding gives the requester the permission on `obj` or on an ancestor of it. */
  ghost predicate GivenAtOrAbove(cl: Cluster, store: set<Tuple>, uid: string, permission: string, obj: Object) {
    exists b, target :: AtOrAbove(store, obj, target) && Gives(cl, store, b, uid, permission, target)
  }

  /** OpenFGA refuses a check on a type that the graph does not have. */
  lemma UnmodelledRefused(m: Model, g: R.Graph, on: bool, hash: Hash, store: set<Tuple>, user: Object, permission: string,
                          obj: Object, fuel: nat)
    requires InForce(m, g, on, hash) && PermissionRelations(hash) && PermissionsAreGenerated(m, hash) && !IsModelled(g, obj.typ)
    ensures !Check(m, store, user, hash(permission), obj, fuel)
  {
    ModelDefines(g, on, hash, obj.typ);
    assert hash(permission) != MemberRelation && hash(permission) != AssigneeRelation;
  }

  lemma CarriedIsRegistered(g: R.Graph, on: bool, t: string, permission: string)
    requires R.ResourceGraphOf(g, on).Ok? && Sound(g) && IsModelled(g, t) && permission in Carried(g, on, t)
    ensures permission in RegisteredPermissions(g, on)
  {
    if t == RootType {
      var x :| x in HierarchyOf(g, on) && permission in PermissionsOn(HierarchyOf(g, on), x);
      HeldIsRegistered(g, on, x, permission);
    } else {
      GraphMeaning.CarriedMeans(g, on, t, permission);
      BelowIsRegistered(g, on, t, permission);
    }
  }

  lemma RelationIsCarried(g: R.Graph, on: bool, hash: Hash, t: string, permission: string)
    requires R.ResourceGraphOf(g, on).Ok? && Sound(g) && IsModelled(g, t)
    requires InjectiveOn(hash, RegisteredPermissions(g, on)) && permission in RegisteredPermissions(g, on)
    ensures hash(permission) in Hashes(hash, Carried(g, on, t)) <==> permission in Carried(g, on, t)
  {
    if hash(permission) in Hashes(hash, Carried(g, on, t)) {
      var q :| q in Carried(g, on, t) && hash(q) == hash(permission);
      CarriedIsRegistered(g, on, t, q);
    }
  }

  /** A permission tuple on one object stands for a binding's grant there. */
  lemma GrantedIffGiven(m: Model, g: R.Graph, cl: Cluster, store: set<Tuple>, uid: string, permission: string, target: Object)
    requires InPlace(m, g, cl, store) && permission in RegisteredPermissions(g, true) && IsModelled(g, target.typ)
    ensures GrantedOn(store, Requester(uid), cl.hash(permission), target) <==>
      exists b :: Gives(cl, store, b, uid, permission, target)
  {
    WantedGives(g, cl, store, uid, permission, target);
    assert cl.hash(permission) != ParentRelation && cl.hash(permission) != MemberRelation;
    if GrantedOn(store, Requester(uid), cl.hash(permission), target) {
      var t :| t in store && t.relation == cl.hash(permission) && t.obj == target && Reaches(store, t.user, Requester(uid));
      assert WantedFor(cl, store, t, uid, cl.hash(permission), target);
    }
    if t :| WantedFor(cl, store, t, uid, cl.hash(permission), target) {
      assert t in store;
    }
  }

  lemma AboveIsModelled(m: Model, g: R.Graph, cl: Cluster, store: set<Tuple>, obj: Object, above: Object)
    requires InForce(m, g, true, cl.hash) && ParentsRegistered(g) && Conforming(m, store)
    requires IsModelled(g, obj.typ) && AtOrAbove(store, obj, above)
    ensures IsModelled(g, above.typ)
  {
    ModelRealisesShape(m, g, true, cl.hash);
    ShapeHasModelled(g, true, cl.hash, obj.typ);
    ClimbStaysInShape(m, ShapeOf(g, true, cl.hash), store, obj, above);
    ShapeHasModelled(g, true, cl.hash, above.typ);
  }

  lemma GrantedAboveIffGiven(m: Model, g: R.Graph, cl: Cluster, store: set<Tuple>, uid: string, permission: string, obj: Object)
    requires InPlace(m, g, cl, store) && permission in RegisteredPermissions(g, true) && IsModelled(g, obj.typ)
    ensures GrantedAtOrAbove(store, Requester(uid), cl.hash(permission), obj) <==>
      GivenAtOrAbove(cl, store, uid, permission, obj)
  {
    InPlaceConforms(m, g, cl, store);
    forall target | AtOrAbove(store, obj, target)
      ensures GrantedOn(store, Requester(uid), cl.hash(permission), target) <==>
        exists b :: Gives(cl, store, b, uid, permission, target)
    {
      AboveIsModelled(m, g, cl, store, obj, target);
      GrantedIffGiven(m, g, cl, store, uid, permission, target);
    }
  }

  /** One check of the webhook. */
  lemma CheckIff(m: Model, g: R.Graph, cl: Cluster, store: set<Tuple>, uid: string, permission: string, obj: Object, fuel: nat)
    requires InPlace(m, g, cl, store) && permission in RegisteredPermissions(g, true)
    requires fuel >= |g.specs| + 3
    ensures Check(m, store, Requester(uid), cl.hash(permission), obj, fuel) <==>
      Carries(g, obj.typ, permission) && GivenAtOrAbove(cl, store, uid, permission, obj)
  {
    if IsModelled(g, obj.typ) {
      InPlaceConforms(m, g, cl, store);
      EvaluationIsReachability(m, g, true, cl.hash, store, Requester(uid), permission, obj, fuel);
      RelationIsCarried(g, true, cl.hash, obj.typ, permission);
      GrantedAboveIffGiven(m, g, cl, store, uid, permission, obj);
    } else {
      UnmodelledRefused(m, g, true, cl.hash, store, Requester(uid), permission, obj, fuel);
    }
  }

  // ---- The decision

  /** The object that OpenFGA reads in a name: the type is the part before the first colon. */
  function ObjectOf(name: string): Object {
    match CutAt(name, ':')
    case Cut(typ, id) => Object(typ, id)
    case NotFound => Object(name, "")
  }

  /** What OpenFGA reads in the name of an object: the same object, unless its type has a colon. */
  function AsRead(o: Object): Object {
    ObjectOf(Render(o))
  }

  lemma ReadsBack(o: Object)
    requires ':' !in o.typ
    ensures AsRead(o) == o
  {
    CutOfRender(o);
  }

  /** OpenFGA answers as its evaluation of the stored model and tuples does. */
  ghost predicate Answers(answer: CheckItem -> bool, m: Model, store: set<Tuple>, fuel: nat) {
    forall item :: answer(item) <==> Check(m, store, ObjectOf(item.user), item.relation, ObjectOf(item.obj), fuel)
  }

  lemma UserReadsBack(hash: Hash, a: Attributes, o: Object)
    ensures ObjectOf(CheckOn(hash, true, a, o).user) == Requester(a.userUID)
  {
    assert ':' !in InternalUserType;
    assert Render(Requester(a.userUID)) == "iam.miloapis.com/InternalUser:" + a.userUID;
    ReadsBack(Requester(a.userUID));
  }

  /** The cached registration is the one the graph was built from. */
  predicate IsRegistration(g: R.Graph, pr: R.ProtectedResource) {
    R.TypeOf(pr.spec) in g.specs && g.specs[R.TypeOf(pr.spec)] == pr.spec && WellFormedSpec(pr.spec)
  }

  lemma RequestIsRegistered(g: R.Graph, pr: R.ProtectedResource, a: Attributes)
    requires IsRegistration(g, pr) && Registered(true, pr, a)
    ensures PermissionOf(true, a) in RegisteredPermissions(g, true)
  {
    DefinedIffEnumerated(pr.spec, PermissionOf(true, a), true);
  }

  /** Why a request is allowed: a candidate object whose type carries the permission, and a binding on it or above it. */
  ghost predicate Granted(g: R.Graph, cl: Cluster, store: set<Tuple>, spec: ResourceSpec, a: Attributes) {
    exists o :: IsCandidate(true, spec, a, o)
      && Carries(g, AsRead(o).typ, PermissionOf(true, a)) && GivenAtOrAbove(cl, store, a.userUID, PermissionOf(true, a), AsRead(o))
  }

  /**
   End to end, with the flag on. The webhook allows a valid request for a
   registered permission exactly when a live binding covers the requester, its
   Role holds the permission, the permission is valid on the binding's target
   type, and the target is at or above one of the candidate objects, whose own
   type carries the permission.
   */
  lemma AllowedIffGranted(m: Model, g: R.Graph, cl: Cluster, store: set<Tuple>, a: Attributes, namespaceValid: bool,
                          pr: R.ProtectedResource, answer: CheckItem -> bool, fuel: nat)
    requires InPlace(m, g, cl, store) && IsRegistration(g, pr)
    requires Answers(answer, m, store, fuel) && fuel >= |g.specs| + 3
    ensures Allowed(cl.hash, true, a, namespaceValid, Some(pr), false, answer) <==>
      Checkable(true, a, namespaceValid, Some(pr)) && Granted(g, cl, store, pr.spec, a)
  {
    if Checkable(true, a, namespaceValid, Some(pr)) {
      RequestIsRegistered(g, pr, a);
      forall o | IsCandidate(true, pr.spec, a, o)
        ensures answer(CheckOn(cl.hash, true, a, o)) <==>
          Carries(g, AsRead(o).typ, PermissionOf(true, a)) && GivenAtOrAbove(cl, store, a.userUID, PermissionOf(true, a), AsRead(o))
      {
        UserReadsBack(cl.hash, a, o);
        CheckIff(m, g, cl, store, a.userUID, PermissionOf(true, a), AsRead(o), fuel);
      }
    }
  }

  /** The same, without asking what the type of the candidate carries. */
  ghost predicate GrantedSomewhere(cl: Cluster, store: set<Tuple>, spec: ResourceSpec, a: Attributes) {
    exists o :: IsCandidate(true, spec, a, o) && GivenAtOrAbove(cl, store, a.userUID, PermissionOf(true, a), AsRead(o))
  }

  /** The type of the request's scope, if it names one, carries the permission. */
  ghost predicate ScopeCarries(g: R.Graph, a: Attributes) {
    forall parent :: InScope(a, parent) ==> Carries(g, AsRead(ScopeObject(parent)).typ, PermissionOf(true, a))
  }

  /**
   When the scope's type carries the permission, the types of the other
   candidates need not be asked for: those of a registered type in the graph,
   and Root, carry it anyway.
   */
  lemma AllowedIffGrantedSomewhere(m: Model, g: R.Graph, cl: Cluster, store: set<Tuple>, a: Attributes, namespaceValid: bool,
                                   pr: R.ProtectedResource, answer: CheckItem -> bool, fuel: nat)
    requires InPlace(m, g, cl, store) && IsRegistration(g, pr)
    requires InGraph(g, R.TypeOf(pr.spec)) && ':' !in R.TypeOf(pr.spec)
    requires Answers(answer, m, store, fuel) && fuel >= |g.specs| + 3
    requires ScopeCarries(g, a)
    ensures Allowed(cl.hash, true, a, namespaceValid, Some(pr), false, answer) <==>
      Checkable(true, a, namespaceValid, Some(pr)) && GrantedSomewhere(cl, store, pr.spec, a)
  {
    AllowedIffGranted(m, g, cl, store, a, namespaceValid, pr, answer, fuel);
    if Checkable(true, a, namespaceValid, Some(pr)) {
      forall o | IsCandidate(true, pr.spec, a, o)
        ensures Carries(g, AsRead(o).typ, PermissionOf(true, a))
      {
        CandidateCarries(g, pr, a, o);
      }
    }
  }

  lemma OwnTypeCarries(g: R.Graph, pr: R.ProtectedResource, a: Attributes)
    requires R.ResourceGraphOf(g, true).Ok? && Sound(g) && IsRegistration(g, pr) && InGraph(g, R.TypeOf(pr.spec))
    requires Registered(true, pr, a)
    ensures Carries(g, R.TypeOf(pr.spec), PermissionOf(true, a)) && Carries(g, RootType, PermissionOf(true, a))
  {
    var t := R.TypeOf(pr.spec);
    DefinedIffEnumerated(pr.spec, PermissionOf(true, a), true);
    DescendsSelf(g, t);
    assert RegisteredBelow(g, true, t, PermissionOf(true, a));
    GraphMeaning.CarriedMeans(g, true, t, PermissionOf(true, a));
  }

  lemma CandidateTypes(spec: ResourceSpec, a: Attributes, o: Object)
    requires IsCandidate(true, spec, a, o) && ':' !in R.TypeOf(spec)
    ensures AsRead(o).typ == R.TypeOf(spec) || AsRead(o).typ == RootType
      || (exists parent :: InScope(a, parent) && o == ScopeObject(parent))
  {
    if ':' !in o.typ {
      ReadsBack(o);
    }
    assert ':' !in RootType;
  }

  lemma CandidateCarries(g: R.Graph, pr: R.ProtectedResource, a: Attributes, o: Object)
    requires R.ResourceGraphOf(g, true).Ok? && Sound(g) && IsRegistration(g, pr)
    requires InGraph(g, R.TypeOf(pr.spec)) && ':' !in R.TypeOf(pr.spec)
    requires Registered(true, pr, a) && ScopeCarries(g, a) && IsCandidate(true, pr.spec, a, o)
    ensures Carries(g, AsRead(o).typ, PermissionOf(true, a))
  {
    OwnTypeCarries(g, pr, a);
    CandidateTypes(pr.spec, a, o);
  }
}
