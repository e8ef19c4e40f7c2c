/**
 A run in which a clear takes access from a live object. A Project is deleted
 and its name reused while the cache still shows the first Project, deleting
 and drained; the finalizer then clears by name what a binding has granted on
 the second.
 */
module HoldCounterexample {
  import opened Names
  import opened Hold
  import opened HoldProtocol
  import opened HoldSafety

  const C := Config(o => 0, t => if t == OrganizationType then [ProjectType] else [])
  const P := Object(ProjectType, "p")
  const Grant := Tuple(Entity(Object(InternalUserType, "alice")), "get", P)
  const First := Resource(0, false, {Foreign("other")}, [])
  const FirstDeleting := Resource(0, true, {Foreign("other")}, [])
  const Second := Resource(1, false, {}, [])
  const SecondHeld := Resource(1, false, {Ours}, [])

  const Empty := World(map[], map[], {}, map[], map[], map[], 0)

  const ReusedHist := [Gone, Here(First), Here(FirstDeleting), Gone, Here(Second)]

  /** The name has passed on, and the cache is behind. */
  ghost predicate Reused(s: World) {
    && s.hist == map[P := ReusedHist] && s.seen == map[P := 2]
    && s.tuples == {} && s.locks == map[] && s.procs == map[]
  }

  /** The binding has granted on the second Project. */
  ghost predicate GrantedOnSecond(s: World) {
    && s.hist == map[P := ReusedHist + [Here(SecondHeld)]] && s.seen == map[P := 2]
    && s.tuples == {Grant} && s.locks == map[] && s.procs == map[]
  }

  const Bind := Binding(P, 1, {Grant}, {}, BindWait)
  const Clear := Finalize(P, 2, FirstDeleting, Collect([OnObject], {}))

  const Cut := DeleteBatch(1, {Grant}, {Grant})

  /** One more action, at the end of a run. */
  lemma Then(acts: seq<Action>, w: World, a: Action) returns (more: seq<Action>, w': World)
    requires Runs(C, Empty, acts) && w == Exec(C, Empty, acts) && Enabled(C, w, a)
    ensures w' == After(C, w, a) && Runs(C, Empty, more) && w' == Exec(C, Empty, more)
  {
    RunsThen(C, Empty, acts, a);
    more, w' := acts + [a], After(C, w, a);
  }

  lemma FirstIsStored() returns (acts: seq<Action>, w: World)
    ensures Runs(C, Empty, acts) && w == Exec(C, Empty, acts)
    ensures w.hist == map[P := ReusedHist[..3]] && w.seen == map[]
    ensures w.tuples == {} && w.locks == map[] && w.procs == map[] && w.nextUid == 1
  {
    acts, w := Then([], Empty, Create(P, {Foreign("other")}, []));
    assert w.hist[P] == [Gone, Here(First)];
    acts, w := Then(acts, w, Delete(P));
    assert w.hist[P] == ReusedHist[..3];
  }

  /** The cache has followed the first Project's life up to version `n`. */
  ghost predicate Followed(w: World, n: nat) {
    && w.hist == map[P := ReusedHist[..3]] && w.seen == map[P := n]
    && w.tuples == {} && w.locks == map[] && w.procs == map[] && w.nextUid == 1
  }

  lemma FirstIsLive() returns (acts: seq<Action>, w: World)
    ensures Runs(C, Empty, acts) && w == Exec(C, Empty, acts) && Followed(w, 1)
  {
    acts, w := FirstIsStored();
    acts, w := Then(acts, w, Observe(P));
  }

  lemma FirstIsDeleting() returns (acts: seq<Action>, w: World)
    ensures Runs(C, Empty, acts) && w == Exec(C, Empty, acts) && Followed(w, 2)
  {
    acts, w := FirstIsLive();
    acts, w := Then(acts, w, Observe(P));
  }

  lemma FirstIsGone() returns (acts: seq<Action>, w: World)
    ensures Runs(C, Empty, acts) && w == Exec(C, Empty, acts)
    ensures w.hist == map[P := ReusedHist[..4]] && w.seen == map[P := 2]
    ensures w.tuples == {} && w.locks == map[] && w.procs == map[] && w.nextUid == 1
  {
    acts, w := FirstIsDeleting();
    acts, w := Then(acts, w, Edit(P, {}, []));
    assert w.hist[P] == ReusedHist[..4];
  }

  lemma NameIsReused() returns (acts: seq<Action>, w: World)
    ensures Runs(C, Empty, acts) && w == Exec(C, Empty, acts) && Reused(w)
  {
    acts, w := FirstIsGone();
    acts, w := Then(acts, w, Create(P, {}, []));
    assert w.hist[P] == ReusedHist;
  }

  lemma BindingTakesLock() returns (acts: seq<Action>, w: World)
    ensures Runs(C, Empty, acts) && w == Exec(C, Empty, acts)
    ensures w.hist == map[P := ReusedHist] && w.seen == map[P := 2] && w.tuples == {}
    ensures w.procs == map[0 := Bind.(bind := Guard)] && w.locks == map[0 := 0]
  {
    acts, w := NameIsReused();
    acts, w := Then(acts, w, StartBinding(0, P, 1, {Grant}, {}));
    assert w.procs == map[0 := Bind];
    acts, w := Then(acts, w, Acquire(0));
    assert w.procs == map[0 := Bind.(bind := Guard)] && w.locks == map[0 := 0];
  }

  lemma BindingReadsSecond() returns (acts: seq<Action>, w: World)
    ensures Runs(C, Empty, acts) && w == Exec(C, Empty, acts)
    ensures w.hist == map[P := ReusedHist] && w.seen == map[P := 2] && w.tuples == {}
    ensures w.procs == map[0 := Bind.(bind := AddToTarget(4))] && w.locks == map[0 := 0]
  {
    acts, w := BindingTakesLock();
    acts, w := Then(acts, w, Step(0, true));
    assert w.procs == map[0 := Bind.(bind := AddToTarget(4))];
  }

  lemma SecondIsHeld() returns (acts: seq<Action>, w: World)
    ensures Runs(C, Empty, acts) && w == Exec(C, Empty, acts)
    ensures w.hist == map[P := ReusedHist + [Here(SecondHeld)]] && w.seen == map[P := 2] && w.tuples == {}
    ensures w.procs == map[0 := Bind.(bind := Write(2))] && w.locks == map[0 := 0]
  {
    acts, w := BindingReadsSecond();
    acts, w := Then(acts, w, Step(0, true));
    assert WithOurs(Second).finalizers == {Ours};
    assert w.procs == map[0 := Bind.(bind := Write(2))];
    assert w.hist[P] == ReusedHist + [Here(SecondHeld)];
  }

  lemma SecondIsGranted() returns (acts: seq<Action>, w: World)
    ensures Runs(C, Empty, acts) && w == Exec(C, Empty, acts) && GrantedOnSecond(w)
  {
    acts, w := SecondIsHeld();
    acts, w := Then(acts, w, Step(0, true));
    assert w.tuples == {Grant} && w.procs == map[] && w.locks == map[];
  }

  lemma StaleFinalizerStarts() returns (acts: seq<Action>, w: World)
    ensures Runs(C, Empty, acts) && w == Exec(C, Empty, acts)
    ensures w.hist == map[P := ReusedHist + [Here(SecondHeld)]] && w.tuples == {Grant}
    ensures w.procs == map[1 := Clear]
  {
    acts, w := SecondIsGranted();
    assert Queries(C, P) == [OnObject];
    acts, w := Then(acts, w, StartReconcile(1, P));
    assert w.procs == map[1 := Clear];
  }

  lemma StaleFinalizerReads() returns (acts: seq<Action>, w: World)
    ensures Runs(C, Empty, acts) && w == Exec(C, Empty, acts)
    ensures w.hist == map[P := ReusedHist + [Here(SecondHeld)]] && w.tuples == {Grant}
    ensures w.procs == map[1 := Clear.(final := Collect([], {Grant}))]
  {
    acts, w := StaleFinalizerStarts();
    assert {} + Found(w.tuples, OnObject, P) == {Grant} && [OnObject][1..] == [];
    acts, w := Then(acts, w, Step(1, true));
  }

  lemma StaleFinalizerFinds() returns (acts: seq<Action>, w: World)
    ensures Runs(C, Empty, acts) && w == Exec(C, Empty, acts)
    ensures w.hist == map[P := ReusedHist + [Here(SecondHeld)]] && w.tuples == {Grant}
    ensures w.procs == map[1 := Clear.(final := DeleteFound({Grant}))]
  {
    acts, w := StaleFinalizerReads();
    acts, w := Then(acts, w, Step(1, true));
  }

  /**
   The drain promise fails in a run that keeps every rule of the environment: a
   finalizer with a stale read deletes a tuple that names a live Project.
   */
  lemma AStaleClearCutsAccess() returns (acts: seq<Action>)
    ensures Started(Empty) && ChildrenDeclared(C) && Runs(C, Empty, acts)
    ensures Enabled(C, Exec(C, Empty, acts), Cut) && CutsAccess(Exec(C, Empty, acts), Cut, Grant, P)
  {
    var w;
    acts, w := StaleFinalizerFinds();
    assert Grant in Cut.gone && Grant in w.tuples;
  }

  // ---- The other end of a parent tuple

  const O := Object(OrganizationType, "o")
  const Owner := OwnerRef(ResourceManagerGroup, GroupVersion, OrganizationKind, "o", 0)
  const Link := Tuple(Entity(O), ParentRelation, P)

  const Leaving := Resource(0, true, {Ours}, [])
  const Owned := Resource(1, false, {Ours}, [Owner])

  /** A drained Organization, being deleted, and a live Project that it owns. */
  const Linked := World(map[O := [Here(Leaving)], P := [Here(Owned)]], map[], {Link}, map[Link := Checked(1, 0)], map[], map[], 2)

  const CutLink := DeleteBatch(1, {Link}, {Link})

  lemma LinkedIsStarted()
    ensures Started(Linked) && O != P && Queries(C, O) == [OnObject, AsUserOf(ProjectType)]
  {
    assert OrganizationType != ProjectType by {
      assert |OrganizationType| != |ProjectType|;
    }
  }

  /** The finalizer has still to make `queries`, and has `found` so far; nothing else has changed. */
  ghost predicate Collecting(w: World, queries: seq<Query>, found: set<Tuple>) {
    && w.hist == Linked.hist && w.tuples == {Link}
    && w.procs == map[1 := Finalize(O, 0, Leaving, Collect(queries, found))]
  }

  lemma FreshFinalizerStarts() returns (acts: seq<Action>)
    ensures Runs(C, Linked, acts) && Collecting(Exec(C, Linked, acts), [OnObject, AsUserOf(ProjectType)], {})
  {
    LinkedIsStarted();
    RunsThen(C, Linked, [], StartReconcile(1, O));
    acts := [] + [StartReconcile(1, O)];
  }

  lemma CollectStep(w: World, queries: seq<Query>, found: set<Tuple>)
    requires Collecting(w, queries, found) && queries != []
    ensures Enabled(C, w, Step(1, true))
    ensures Collecting(After(C, w, Step(1, true)), queries[1..], found + Found({Link}, queries[0], O))
  {
  }

  lemma FreshFinalizerCollects() returns (acts: seq<Action>)
    ensures Runs(C, Linked, acts) && Collecting(Exec(C, Linked, acts), [], {Link})
  {
    acts := FreshFinalizerStarts();
    var both := [OnObject, AsUserOf(ProjectType)];
    LinkedIsStarted();
    CollectStep(Exec(C, Linked, acts), both, {});
    RunsThen(C, Linked, acts, Step(1, true));
    acts := acts + [Step(1, true)];
    assert both[1..] == [AsUserOf(ProjectType)] && both[1..][1..] == [];
    assert {} + Found({Link}, OnObject, O) == {} && {} + Found({Link}, AsUserOf(ProjectType), O) == {Link};
    CollectStep(Exec(C, Linked, acts), both[1..], {});
    RunsThen(C, Linked, acts, Step(1, true));
    acts := acts + [Step(1, true)];
  }

  lemma FreshFinalizerFinds() returns (acts: seq<Action>)
    ensures Runs(C, Linked, acts)
    ensures var w := Exec(C, Linked, acts);
      && w.hist == Linked.hist && w.tuples == {Link}
      && w.procs == map[1 := Finalize(O, 0, Leaving, DeleteFound({Link}))]
  {
    acts := FreshFinalizerCollects();
    RunsThen(C, Linked, acts, Step(1, true));
    acts := acts + [Step(1, true)];
  }

  /** A finalizer with a fresh read of a drained Organization deletes the parent tuple that names a live Project. */
  lemma AFreshClearCutsParentTuple() returns (acts: seq<Action>)
    ensures Started(Linked) && ChildrenDeclared(C) && Runs(C, Linked, acts)
    ensures Enabled(C, Exec(C, Linked, acts), CutLink) && ReadHolds(Exec(C, Linked, acts), 1)
    ensures CutsAccess(Exec(C, Linked, acts), CutLink, Link, P)
  {
    LinkedIsStarted();
    acts := FreshFinalizerFinds();
  }
}
