/**
 A binding above the scope of a request need not count. The request lists `O`s in
 the scope of a `P`, whose owner is an `O` on which a binding lets the requester
 list `O`s. The check on the `P` fails at once, because its type has no relation
 for the permission, and none of the other checks reaches the binding.
 */
module ScopeCounterexample {
  import opened Names
  import opened Permissions
  import opened Sorting
  import R = ResourceGraph
  import opened Hierarchy
  import opened AuthorizationModel
  import opened ModelMeaning
  import opened GraphMeaning
  import opened ModelTransition
  import opened Roles
  import opened PolicyReconciler
  import BindingConvergence
  import opened Authorizer
  import opened EndToEnd
  import opened Wrappers

  const OType := "m/O"
  const PType := "m/P"
  const ListO := "m/os.list"

  const OSpec := ResourceSpec("m", "O", "os", ["list"], [], [])
  const PSpec := ResourceSpec("m", "P", "ps", [], [], [ParentRef("m", "O")])

  const World := R.Graph(map[OType := OSpec, PType := PSpec], map[OType := [PType]], [OType])

  lemma WorldIs()
    ensures World.specs.Keys == {OType, PType} && World.specs[OType] == OSpec && World.specs[PType] == PSpec
    ensures R.Kids(World, OType) == [PType] && (forall t :: t != OType ==> R.Kids(World, t) == [])
    ensures World.roots == [OType] && OType != PType && OType != RootType && PType != RootType
    ensures DeclaredParents(World, OType) == [] && DeclaredParents(World, PType) == [OType]
    ensures R.TypeOf(OSpec) == OType && TypeName("m", "P") == PType
  {
    assert |OType| != |RootType|;
    assert OType[2] != PType[2];
    assert TypeName("m", "O") == OType && TypeName("m", "P") == PType;
    assert PSpec.parents[..0] == [] && R.ParentTypes([]) == [];
    assert R.ParentTypes(PSpec.parents) == [] + [OType];
  }

  lemma TwoParts(t: string, kind: string)
    requires '/' !in kind && t == "m" + "/" + kind
    ensures |Split(t, '/')| == 2
  {
    CutOf("m", kind, '/');
  }

  lemma LeafBuilds()
    ensures R.GraphNode(World, true, PType, {OType}).Ok?
  {
    WorldIs();
    TwoParts(PType, "P");
    assert R.GraphNodes(World, true, R.Kids(World, PType), {OType} + {PType}) == R.Ok([]);
  }

  lemma OneBuilds(t: string, path: set<string>)
    requires R.GraphNode(World, true, t, path).Ok?
    ensures R.GraphNodes(World, true, [t], path).Ok?
  {
    assert [t][..0] == [];
    assert R.GraphNodes(World, true, [t][..0], path) == R.Ok([]);
  }

  lemma KidsBuild()
    ensures R.Kids(World, OType) == [PType] && R.GraphNodes(World, true, R.Kids(World, OType), {OType}).Ok?
  {
    WorldIs();
    LeafBuilds();
    OneBuilds(PType, {OType});
  }

  lemma RootBuilds()
    ensures R.GraphNode(World, true, OType, {}).Ok?
  {
    KidsBuild();
    TwoParts(OType, "O");
    assert {} + {OType} == {OType} && OType in World.specs;
  }

  lemma TreesBuild()
    ensures R.ResourceGraphOf(World, true).Ok?
  {
    RootBuilds();
    OneBuilds(OType, {});
    assert World.roots == [OType];
  }

  lemma ShortTypesAreNotSystem()
    ensures OType !in SystemTypes && PType !in SystemTypes
  {
  }

  lemma WorldHasTwo(t: string)
    requires t in World.specs
    ensures t == OType || t == PType
  {
    WorldIs();
  }

  lemma WorldIsNamed()
    ensures R.WellNamed(World) && World.specs.Keys !! SystemTypes
  {
    TwoParts(OType, "O");
    TwoParts(PType, "P");
    forall t | t in World.specs
      ensures |Split(t, '/')| == 2 && t !in SystemTypes
    {
      WorldHasTwo(t);
      ShortTypesAreNotSystem();
    }
  }

  lemma WorldIsTyped()
    ensures R.WellTyped(World) && (forall t :: t in World.roots ==> t in World.specs)
    ensures forall t, p :: t in World.specs && p in DeclaredParents(World, t) && p != t ==> t in R.Kids(World, p)
  {
    WorldIs();
    assert forall t :: t in World.specs ==> t == OType || t == PType;
    assert PType in R.Kids(World, OType);
  }

  lemma WorldIsSound()
    ensures Sound(World)
  {
    WorldIsNamed();
    WorldIsTyped();
  }

  lemma BothInGraph()
    ensures InGraph(World, OType) && InGraph(World, PType)
  {
    WorldIs();
    DescendsSelf(World, OType);
    DescendsSelf(World, PType);
    DescendsVia(World, OType, PType);
    assert OType in World.roots && PType in R.Kids(World, OType);
  }

  lemma WorldParents()
    ensures ParentsRegistered(World)
  {
    BothInGraph();
    forall t, p | t in World.specs && p in DeclaredParents(World, t)
      ensures p != t && InGraph(World, p)
    {
      WorldHasTwo(t);
      ParentsInWorld(t, p);
    }
  }

  lemma ParentsInWorld(t: string, p: string)
    requires (t == OType || t == PType) && p in DeclaredParents(World, t)
    ensures t == PType && p == OType && p != t
  {
    WorldIs();
  }

  lemma OnlyListO()
    ensures Enumeration(OSpec, true) == [ListO] && Enumeration(PSpec, true) == []
    ensures RegisteredPermissions(World, true) == {ListO}
  {
    WorldIs();
    assert Print(Permission("m", "os", "", "list")) == ListO;
    assert Enumeration(OSpec, true) == [ListO];
    assert Enumeration(PSpec, true) == [];
    assert World.specs[OType] == OSpec && ListO in Enumeration(World.specs[OType], true);
  }

  lemma PCarriesNothing()
    ensures !Carries(World, PType, ListO) && Carries(World, OType, ListO)
    ensures ListO in ValidOn(World, true, OType)
  {
    WorldIs();
    TreesBuild();
    WorldIsSound();
    BothInGraph();
    OnlyListO();
    GraphMeaning.CarriedMeans(World, true, PType, ListO);
    GraphMeaning.CarriedMeans(World, true, OType, ListO);
    DescendsSelf(World, OType);
    assert RegisteredBelow(World, true, OType, ListO);
    if RegisteredBelow(World, true, PType, ListO) {
      var x :| x in World.specs && R.Descends(World, PType, x) && ListO in Enumeration(World.specs[x], true);
      DescendsVia(World, PType, x);
      assert false;
    }
    GraphTypes(World, true, OType);
  }

  // ---- The cluster

  const Key := RoleKey("n", "r")

  const Binding := PolicyBinding("n", "b", false, ResourceRef("m", "O", "o"), [Subject("User", "u", "u")], Key)

  function OneHash(): Hash {
    p => "h"
  }

  function Valid(): string -> set<string> {
    TreesBuild();
    t => ValidOn(World, true, t)
  }

  function TheCluster(): (cl: Cluster)
    ensures R.ResourceGraphOf(World, true).Ok?
  {
    TreesBuild();
    Cluster(true, OneHash(), [Binding], map[Key := BoundRole(false, [ListO], [])], Valid())
  }

  function TheModel(): (m: Model)
    ensures R.ResourceGraphOf(World, true).Ok? && m == ModelOf(World, true, OneHash())
  {
    TreesBuild();
    ModelOf(World, true, OneHash())
  }

  const O := Object(OType, "o")
  const P := Object(PType, "p")
  const Grant := Tuple(Entity(Object(InternalUserType, "u")), "h", O)
  const Owner := Tuple(Entity(O), ParentRelation, P)
  const Store := {Grant, Owner}

  lemma BindingIs()
    ensures Specified(Binding) && TargetType(Binding.selector) == OType && TargetObject(Binding.selector) == Some(O)
    ensures FetchRole(TheCluster(), Binding) == Some(BoundRole(false, [ListO], []))
    ensures Resolve(Binding.subjects) && Desired(TheCluster(), Binding).Some?
  {
  }

  lemma BindingCovers()
    ensures forall user :: CoversUser(Binding, user) <==> user == Grant.user
  {
    assert Binding.subjects[0] in Binding.subjects && IsUserOf(Binding.subjects[0], Grant.user);
  }

  lemma BindingGrants()
    ensures forall q :: RoleGrants(TheCluster(), Binding, q) <==> q == ListO
    ensures Writable(true, TheCluster().valid(OType), ListO)
  {
    BindingIs();
    PCarriesNothing();
    assert TheCluster().valid(OType) == ValidOn(World, true, OType);
  }

  lemma BindingWants(t: Tuple)
    ensures t in BindingConvergence.Own(TheCluster(), Binding) <==> t == Grant
  {
    BindingIs();
    BindingCovers();
    BindingGrants();
    WantsIff(TheCluster(), Binding, t);
  }

  lemma OnlyGrantWanted(t: Tuple)
    ensures BindingConvergence.Wanted(TheCluster(), t) <==> t == Grant
  {
    BindingIs();
    BindingWants(t);
    assert Binding in TheCluster().bindings && forall b :: b in TheCluster().bindings ==> b == Binding;
  }

  lemma ModelIsInForce()
    ensures InForce(TheModel(), World, true, OneHash())
  {
    WorldIsSound();
    assert |ParentRelation| != 1;
  }

  lemma HashIsNotParent()
    ensures PermissionRelations(OneHash())
  {
  }

  lemma POwnedByO()
    ensures ParentsOn(World, PType) == [OType]
  {
    WorldIs();
    assert SortStrings([OType]) == [OType];
  }

  lemma OwnerConforms()
    ensures Conforms(TheModel(), Owner)
  {
    var m := TheModel();
    ModelIsInForce();
    BothInGraph();
    ModelledType(m, World, true, OneHash(), PType);
    POwnedByO();
    HashIsNotParent();
    assert forall p :: OneHash()(p) != ParentRelation;
    ParentConforms(m, Owner, [OType], Hashes(OneHash(), Carried(World, true, PType)));
  }

  // ---- The request

  const Extra := map[ParentAPIGroup := ["m"], ParentKind := ["P"], ParentName := ["p"]]

  const Scope := ParentContext("m", "P", "p")

  const ListInP := Attributes("u", Extra, "m", "os", "", "list", "")

  const Registration := R.ProtectedResource("os", false, OSpec)

  lemma StoreIsConverged()
    ensures Converged(World, TheCluster(), Store) && BindingConvergence.Resolved(TheCluster())
  {
    HashIsNotParent();
    BindingIs();
    BothInGraph();
    assert OneHash()(ListO) == Grant.relation && Grant.obj.typ == OType;
    forall t: Tuple | t.relation != ParentRelation && t.relation != MemberRelation
      ensures t in Store <==> BindingConvergence.Wanted(TheCluster(), t) && IsModelled(World, t.obj.typ)
    {
      OnlyGrantWanted(t);
    }
  }

  lemma HashIsInjective()
    ensures InjectiveOn(OneHash(), RegisteredPermissions(World, true))
  {
  }

  lemma OwnerIsAdmitted()
    ensures OthersAdmitted(TheModel(), Store)
  {
    OwnerConforms();
    HashIsNotParent();
    assert OneHash()(ListO) == Grant.relation;
  }

  lemma ClusterReadsWorld()
    ensures ReadsFrom(TheCluster(), World) && TheCluster().subresourcesOn && TheCluster().hash == OneHash()
  {
  }

  lemma EverythingInPlace()
    ensures InPlace(TheModel(), World, TheCluster(), Store)
  {
    ModelIsInForce();
    WorldParents();
    ClusterReadsWorld();
    HashIsNotParent();
    HashIsInjective();
    StoreIsConverged();
    OwnerIsAdmitted();
    WorldIsSound();
    NothingByHand(World, true, OneHash());
  }

  lemma RequestIsForListO()
    ensures PermissionOf(true, ListInP) == ListO && IsRegistration(World, Registration)
  {
    WorldIs();
    assert OSpec.verbs[0] in OSpec.verbs && forall verb :: verb in OSpec.verbs ==> verb == "list";
  }

  lemma RequestIsRegisteredThere()
    ensures Registered(true, Registration, ListInP)
  {
    RequestIsForListO();
    OnlyListO();
    DefinedIffEnumerated(OSpec, ListO, true);
  }

  lemma ScopeOfRequest()
    ensures ScopeObject(Scope) == P && forall parent :: InScope(ListInP, parent) <==> parent == Scope
  {
  }

  lemma CandidatesAre()
    ensures forall o :: IsCandidate(true, OSpec, ListInP, o) <==> o in {P, KindRoot("m", "O"), KindRoot("m", "P")}
  {
    ScopeOfRequest();
    assert InScope(ListInP, Scope);
  }

  lemma CandidatesReadBack(o: Object)
    requires IsCandidate(true, OSpec, ListInP, o)
    ensures AsRead(o) == o
  {
    CandidatesAre();
    assert ':' !in PType && ':' !in RootType;
    ReadsBack(o);
  }

  lemma NothingAboveRoots(o: Object, above: Object)
    requires AtOrAbove(Store, o, above) && o.typ == RootType
    ensures above == o
  {
    if above != o {
      var parent := FirstClimb(Store, o, above);
      WorldIs();
      assert false;
    }
  }

  lemma NotGiven(o: Object)
    requires o.typ == RootType
    ensures !GivenAtOrAbove(TheCluster(), Store, "u", ListO, o)
  {
    BindingIs();
    WorldIs();
    forall b, target | AtOrAbove(Store, o, target)
      ensures !Gives(TheCluster(), Store, b, "u", ListO, target)
    {
      NothingAboveRoots(o, target);
    }
  }

  lemma GivenAboveScope()
    ensures GivenAtOrAbove(TheCluster(), Store, "u", ListO, P)
  {
    BindingIs();
    BindingGrants();
    AtSelf(Store, O);
    ClimbOn(Store, P, O, O);
    assert Binding.subjects[0] in Binding.subjects && IsSubject(Store, Binding.subjects[0], "u");
    assert Gives(TheCluster(), Store, Binding, "u", ListO, O);
  }

  lemma RequestIsGrantedSomewhere()
    ensures GrantedSomewhere(TheCluster(), Store, OSpec, ListInP)
  {
    RequestIsForListO();
    CandidatesAre();
    GivenAboveScope();
    assert IsCandidate(true, OSpec, ListInP, P);
    CandidatesReadBack(P);
  }

  lemma RequestIsNotGranted()
    ensures !EndToEnd.Granted(World, TheCluster(), Store, OSpec, ListInP)
  {
    RequestIsForListO();
    CandidatesAre();
    forall o | IsCandidate(true, OSpec, ListInP, o)
      ensures !(Carries(World, AsRead(o).typ, ListO) && GivenAtOrAbove(TheCluster(), Store, "u", ListO, AsRead(o)))
    {
      CandidatesReadBack(o);
      if o == P {
        PCarriesNothing();
      } else {
        NotGiven(o);
      }
    }
  }

  /**
   Everything is in place, a live binding gives the requester the permission on
   the owner of the request's scope, and the request is denied.
   */
  lemma GrantAboveScopeIsLost(answer: CheckItem -> bool)
    requires Answers(answer, TheModel(), Store, 5)
    ensures InPlace(TheModel(), World, TheCluster(), Store) && IsRegistration(World, Registration)
    ensures Checkable(true, ListInP, true, Some(Registration)) && GrantedSomewhere(TheCluster(), Store, OSpec, ListInP)
    ensures !Allowed(OneHash(), true, ListInP, true, Some(Registration), false, answer)
  {
    EverythingInPlace();
    RequestIsForListO();
    RequestIsRegisteredThere();
    RequestIsGrantedSomewhere();
    RequestIsNotGranted();
    TwoSpecs();
    AllowedIffGranted(TheModel(), World, TheCluster(), Store, ListInP, true, Registration, answer, 5);
  }

  lemma TwoSpecs()
    ensures |World.specs| == 2
  {
  }
}
