/**
 Siblings are found by the kind and the name of their subjects, tuples by the
 OpenFGA user. A User and a ServiceAccount can share the user and still not be
 siblings; then one binding's deletion takes the other's tuple away for good.
 */
module SharedUserCounterexample {
  import opened Names
  import opened Roles
  import opened PolicyReconciler
  import opened BindingConvergence
  import opened Wrappers

  const Key := RoleKey("n", "r")

  const Target0 := ResourceRef("g", "K", "o")

  /** A user named `x`, whose binding is being deleted. */
  const Leaving := PolicyBinding("n", "a", true, Target0, [Subject("User", "x", "1")], Key)

  /** A service account with the UID `x`, whose binding stays. */
  const Staying := PolicyBinding("n", "b", false, Target0, [Subject("ServiceAccount", "s", "x")], Key)

  function Everything(): string -> set<string> {
    t => {}
  }

  function Plain(): string -> string {
    p => p
  }

  const Both := Cluster(false, Plain(), [Leaving, Staying], map[Key := BoundRole(false, ["p"], [])], Everything())

  const Shared := Tuple(Entity(Object(InternalUserType, "x")), "p", ObjectName("g", "K", "o"))

  lemma UsersAre()
    ensures TupleUser(Leaving.subjects[0]) == TupleUser(Staying.subjects[0]) == Some(Shared.user)
    ensures forall u :: (CoversUser(Leaving, u) <==> u == Shared.user) && (CoversUser(Staying, u) <==> u == Shared.user)
    ensures Resolve(Leaving.subjects) && Resolve(Staying.subjects)
    ensures !SharesSubject(Leaving, Staying) && !SharesSubject(Staying, Leaving)
  {
    forall b, u | b == Leaving || b == Staying
      ensures CoversUser(b, u) <==> TupleUser(b.subjects[0]) == Some(u)
    {
      CoversMeans(b, u);
      assert b.subjects[0] in b.subjects;
    }
  }

  lemma OwnAre()
    ensures Own(Both, Leaving) == {} && Own(Both, Staying) == {Shared}
  {
  }

  /** Neither binding counts the other as a sibling. */
  lemma NoSiblings(b: PolicyBinding)
    requires b == Leaving || b == Staying
    ensures SiblingsOwn(Both, b) == {}
  {
    UsersAre();
    assert Both.bindings[..1] == [Leaving] && [Leaving][..0] == [];
    assert SameBinding(b, b) && !IsSibling(b, b);
    assert SiblingsWant(Both, b, [Leaving], Target(b), ValidFor(Both, b)) == [];
  }

  lemma BothResolve()
    ensures Resolved(Both)
  {
    UsersAre();
    assert Key in Both.roles && Key.namespace != "";
    assert forall b :: b in Both.bindings ==> b == Leaving || b == Staying;
  }

  lemma BothAreNamedApart()
    ensures DistinctBindings(Both) && SlashlessNames(Both)
  {
    assert forall b :: b in Both.bindings ==> b == Leaving || b == Staying;
    assert Leaving.name[0] != Staying.name[0];
  }

  /**
   Whatever the store holds at first, a run can complete both bindings and end
   without the shared tuple, which the live one still wants.
   */
  lemma WantedTupleIsLost(start: set<Tuple>) returns (acts: seq<Action>)
    ensures WellFormedBindings(Both) && Completes(Both, start, acts)
    ensures Wanted(Both, Shared) && Shared !in Exec(Both, World(start, map[], {}), acts).tuples
    ensures !Covered(Both)
  {
    BothResolve();
    BothAreNamedApart();
    OwnAre();
    NoSiblings(Leaving);
    UsersAre();
    assert Both.bindings[0] == Leaving && Both.bindings[1] == Staying;
    acts := UncoveredIsLost(Both, start, Leaving, Staying, Shared);
  }
}
