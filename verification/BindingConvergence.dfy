/**
 PolicyBindings reconciled at once. A reconcile reads the tuples of its subjects
 one subject at a time, and then writes; nothing makes the reads and the write
 atomic. Whatever the interleaving, the store converges on what the live
 bindings want.
 */
module BindingConvergence {
  import opened Names
  import opened PolicyReconciler
  import opened Wrappers

  type Pid = nat

  /** A ReconcilePolicy of a live binding, or a DeletePolicy of a deleting one, with what it has read so far. */
  datatype Job = Job(b: PolicyBinding, read: nat, existing: set<Tuple>)

  datatype World = World(tuples: set<Tuple>, jobs: map<Pid, Job>, done: set<PolicyBinding>)

  datatype Action = Start(pid: Pid, b: PolicyBinding) | Read(pid: Pid) | Write(pid: Pid) | Fail(pid: Pid)

  /** What the binding itself wants: nothing, once it is being deleted. */
  function Own(cl: Cluster, b: PolicyBinding): set<Tuple>
    requires Specified(b)
  {
    if b.deleting || Desired(cl, b).None? then {} else AsSet(Desired(cl, b).value)
  }

  function SiblingsOwn(cl: Cluster, b: PolicyBinding): set<Tuple>
    requires Specified(b)
  {
    AsSet(SiblingsWant(cl, b, cl.bindings, Target(b), ValidFor(cl, b)))
  }

  /** What a binding writes after it has read `existing`. */
  function Written(cl: Cluster, b: PolicyBinding, tuples: set<Tuple>, existing: set<Tuple>): set<Tuple>
    requires Specified(b)
  {
    tuples - (existing - Own(cl, b) - SiblingsOwn(cl, b)) + (Own(cl, b) - existing)
  }

  /**
   When the reads are not interleaved with other writes, this write leaves what
   one ReconcilePolicy or DeletePolicy call leaves.
   */
  lemma WrittenAlone(cl: Cluster, b: PolicyBinding, tuples: set<Tuple>, t: Tuple)
    requires Specified(b)
    ensures var existing := set u | u in tuples && Manages(b, u);
      t in Written(cl, b, tuples, existing) <==>
        if Manages(b, t) then t in Own(cl, b) || (t in tuples && t in SiblingsOwn(cl, b)) else t in tuples
  {
    if t in Own(cl, b) {
      DesiredIsManaged(cl, b);
    }
  }

  function ReadNext(j: Job, tuples: set<Tuple>): set<Tuple>
    requires j.read < |j.b.subjects| && Specified(j.b)
  {
    set t | t in tuples && t.obj == Target(j.b) && TupleUser(j.b.subjects[j.read]) == Some(t.user)
  }

  predicate Enabled(cl: Cluster, w: World, a: Action) {
    match a
    case Start(pid, b) => pid !in w.jobs && b in cl.bindings && Specified(b)
    case Read(pid) => pid in w.jobs && Specified(w.jobs[pid].b) && w.jobs[pid].read < |w.jobs[pid].b.subjects|
    case Write(pid) => pid in w.jobs && Specified(w.jobs[pid].b) && w.jobs[pid].read == |w.jobs[pid].b.subjects|
    case Fail(pid) => pid in w.jobs
  }

  function After(cl: Cluster, w: World, a: Action): World
    requires Enabled(cl, w, a)
  {
    match a
    case Start(pid, b) => w.(jobs := w.jobs[pid := Job(b, 0, {})])
    case Read(pid) =>
      var j := w.jobs[pid];
      w.(jobs := w.jobs[pid := j.(read := j.read + 1, existing := j.existing + ReadNext(j, w.tuples))])
    case Write(pid) =>
      var j := w.jobs[pid];
      World(Written(cl, j.b, w.tuples, j.existing), w.jobs - {pid}, w.done + {j.b})
    case Fail(pid) => w.(jobs := w.jobs - {pid})
  }

  predicate Runs(cl: Cluster, w: World, acts: seq<Action>)
    decreases acts
  {
    acts == [] || (Enabled(cl, w, acts[0]) && Runs(cl, After(cl, w, acts[0]), acts[1..]))
  }

  function Exec(cl: Cluster, w: World, acts: seq<Action>): World
    requires Runs(cl, w, acts)
    decreases acts
  {
    if acts == [] then w else Exec(cl, After(cl, w, acts[0]), acts[1..])
  }

  // ---- Assumptions on the bindings

  /** Targets and subjects resolve, and so do the Roles of live bindings. A deleting binding's own Role is never read. */
  predicate Resolved(cl: Cluster) {
    forall b :: b in cl.bindings ==> Specified(b) && Resolve(b.subjects) && (b.deleting || Desired(cl, b).Some?)
  }

  predicate DistinctBindings(cl: Cluster) {
    forall b, other :: b in cl.bindings && other in cl.bindings && SameBinding(b, other) ==> b == other
  }

  /** Subjects that share an OpenFGA user are one kind and name. */
  predicate OneNamePerUser(cl: Cluster) {
    forall b, other, s, r | b in cl.bindings && other in cl.bindings && s in b.subjects && r in other.subjects ::
      TupleUser(s) == TupleUser(r) ==> s.kind == r.kind && s.name == r.name
  }

  /** No object's name has a slash, so no object shares its tuples with a kind. */
  predicate SlashlessNames(cl: Cluster) {
    forall b :: b in cl.bindings && b.selector.ResourceRef? ==> '/' !in b.selector.name
  }

  predicate WellFormedBindings(cl: Cluster) {
    Resolved(cl) && DistinctBindings(cl) && SlashlessNames(cl)
  }

  /** What a live binding wants of another's subjects and target, that other or one of its siblings wants too. */
  ghost predicate Covered(cl: Cluster) {
    forall b, other, t :: b in cl.bindings && other in cl.bindings && Specified(b) && Specified(other) ==>
      !other.deleting && t in Own(cl, other) && Manages(b, t) ==> t in Own(cl, b) || t in SiblingsOwn(cl, b)
  }

  // ---- What the live bindings want together

  predicate Wanted(cl: Cluster, t: Tuple) {
    exists b :: b in cl.bindings && !b.deleting && Specified(b) && t in Own(cl, b)
  }

  predicate Mentioned(cl: Cluster, t: Tuple) {
    exists b :: b in cl.bindings && Manages(b, t)
  }

  lemma SameTargetSameType(cl: Cluster, b: PolicyBinding, other: PolicyBinding)
    requires SlashlessNames(cl) && b in cl.bindings && other in cl.bindings && Specified(b) && Specified(other)
    requires TargetObject(b.selector) == TargetObject(other.selector)
    ensures TargetType(b.selector) == TargetType(other.selector)
  {
  }

  /** A sibling wants of the shared target what that binding wants itself. */
  lemma SiblingWantsIff(cl: Cluster, b: PolicyBinding, t: Tuple)
    requires WellFormedBindings(cl) && b in cl.bindings
    ensures t in SiblingsOwn(cl, b) <==> exists other :: other in cl.bindings && IsSibling(b, other) && t in Own(cl, other)
  {
    SiblingsWantIff(cl, b, cl.bindings, Target(b), ValidFor(cl, b), t);
    forall other | other in cl.bindings && IsSibling(b, other)
      ensures Specified(other) && (t in Own(cl, other) <==> t.obj == Target(b) && WantsOf(cl, other, ValidFor(cl, b), t))
    {
      SameTargetSameType(cl, b, other);
      WantsIff(cl, other, t);
      TargetMeans(other.selector, t.obj);
    }
  }

  lemma OwnIsManaged(cl: Cluster, b: PolicyBinding, t: Tuple)
    requires Specified(b) && t in Own(cl, b)
    ensures Manages(b, t)
  {
    DesiredIsManaged(cl, b);
  }

  /** A wanted tuple that a binding manages is its own or a sibling's. */
  lemma WantedByOwnOrSibling(cl: Cluster, b: PolicyBinding, t: Tuple)
    requires WellFormedBindings(cl) && Covered(cl) && b in cl.bindings && Manages(b, t)
    ensures Wanted(cl, t) <==> t in Own(cl, b) || t in SiblingsOwn(cl, b)
  {
    SiblingWantsIff(cl, b, t);
  }

  /** Subjects of one kind and name for each OpenFGA user make siblings of all bindings that share a tuple. */
  lemma OneNameIsCovered(cl: Cluster)
    requires WellFormedBindings(cl) && OneNamePerUser(cl)
    ensures Covered(cl)
  {
    forall b, other, t | b in cl.bindings && other in cl.bindings && !other.deleting && t in Own(cl, other) && Manages(b, t)
      && t !in Own(cl, b)
      ensures t in SiblingsOwn(cl, b)
    {
      OwnIsManaged(cl, other, t);
      SharedUserIsSibling(cl, b, other, t);
      SiblingWantsIff(cl, b, t);
    }
  }

  lemma SharedUserIsSibling(cl: Cluster, b: PolicyBinding, other: PolicyBinding, t: Tuple)
    requires DistinctBindings(cl) && OneNamePerUser(cl) && b in cl.bindings && other in cl.bindings && !other.deleting
    requires Manages(b, t) && Manages(other, t) && b != other
    ensures IsSibling(b, other)
  {
    var s := SubjectOf(b, t.user);
    var r := SubjectOf(other, t.user);
    TargetMeans(b.selector, t.obj);
    TargetMeans(other.selector, t.obj);
    assert TupleUser(s) == TupleUser(r);
    assert s.kind == r.kind && s.name == r.name;
  }

  // ---- The invariant

  predicate HasRead(j: Job, user: User)
    requires j.read <= |j.b.subjects|
  {
    exists s :: s in j.b.subjects[..j.read] && TupleUser(s) == Some(user)
  }

  /** What a job has read is still true of the wanted tuples, and covers the unwanted ones. */
  ghost predicate JobOk(cl: Cluster, w: World, j: Job) {
    && j.b in cl.bindings && Specified(j.b) && j.read <= |j.b.subjects|
    && (forall t :: t in j.existing ==> Manages(j.b, t))
    && (forall t :: t in j.existing && Wanted(cl, t) ==> t in w.tuples)
    && (forall t :: t in w.tuples && !Wanted(cl, t) && TargetObject(j.b.selector) == Some(t.obj) && HasRead(j, t.user)
          ==> t in j.existing)
  }

  /** A binding that has been reconciled stays reconciled. */
  ghost predicate DoneOk(cl: Cluster, w: World, b: PolicyBinding) {
    && b in cl.bindings && Specified(b)
    && (forall t :: t in Own(cl, b) ==> t in w.tuples)
    && (forall t :: t in w.tuples && Manages(b, t) ==> Wanted(cl, t))
  }

  ghost predicate Inv(cl: Cluster, start: set<Tuple>, w: World) {
    && (forall pid :: pid in w.jobs ==> JobOk(cl, w, w.jobs[pid]))
    && (forall b :: b in w.done ==> DoneOk(cl, w, b))
    && (forall t :: !Mentioned(cl, t) ==> (t in w.tuples <==> t in start))
  }

  /** Wanted tuples are never taken away, unwanted ones never added, and unmentioned ones never touched. */
  ghost predicate Converging(cl: Cluster, w: World, w': World) {
    && (forall t :: t in w.tuples && Wanted(cl, t) ==> t in w'.tuples)
    && (forall t :: t in w'.tuples && !Wanted(cl, t) ==> t in w.tuples)
    && (forall t :: !Mentioned(cl, t) ==> (t in w'.tuples <==> t in w.tuples))
  }

  lemma WritesConverge(cl: Cluster, w: World, pid: Pid)
    requires WellFormedBindings(cl) && Covered(cl) && Enabled(cl, w, Write(pid)) && JobOk(cl, w, w.jobs[pid])
    ensures Converging(cl, w, After(cl, w, Write(pid))) && DoneOk(cl, After(cl, w, Write(pid)), w.jobs[pid].b)
  {
    var j, w' := w.jobs[pid], After(cl, w, Write(pid));
    var b := j.b;
    assert b.subjects[..j.read] == b.subjects;
    forall t
      ensures t in Own(cl, b) ==> Manages(b, t) && Wanted(cl, t)
      ensures t in j.existing && Wanted(cl, t) ==> t in Own(cl, b) || t in SiblingsOwn(cl, b)
      ensures Manages(b, t) && t in SiblingsOwn(cl, b) ==> Wanted(cl, t)
    {
      if t in Own(cl, b) {
        OwnIsManaged(cl, b, t);
      }
      if Manages(b, t) {
        WantedByOwnOrSibling(cl, b, t);
      }
    }
    forall t | t in w'.tuples && Manages(b, t)
      ensures Wanted(cl, t)
    {
      CoversMeans(b, t.user);
      TargetMeans(b.selector, t.obj);
      assert HasRead(j, t.user);
      WantedByOwnOrSibling(cl, b, t);
    }
  }

  lemma ReadKeepsJob(cl: Cluster, w: World, pid: Pid)
    requires Enabled(cl, w, Read(pid)) && JobOk(cl, w, w.jobs[pid])
    ensures JobOk(cl, w, After(cl, w, Read(pid)).jobs[pid])
  {
    var j := w.jobs[pid];
    forall t | t in ReadNext(j, w.tuples)
      ensures Manages(j.b, t)
    {
      CoversMeans(j.b, t.user);
      TargetMeans(j.b.selector, t.obj);
    }
  }

  lemma OthersStay(cl: Cluster, w: World, w': World, j: Job, b: PolicyBinding)
    requires Converging(cl, w, w')
    ensures JobOk(cl, w, j) ==> JobOk(cl, w', j)
    ensures DoneOk(cl, w, b) ==> DoneOk(cl, w', b)
  {
  }

  lemma StepConverges(cl: Cluster, w: World, a: Action)
    requires WellFormedBindings(cl) && Covered(cl) && Enabled(cl, w, a) && (a.Write? ==> JobOk(cl, w, w.jobs[a.pid]))
    ensures Converging(cl, w, After(cl, w, a))
  {
    if a.Write? {
      WritesConverge(cl, w, a.pid);
    }
  }

  lemma InvStep(cl: Cluster, start: set<Tuple>, w: World, a: Action)
    requires WellFormedBindings(cl) && Covered(cl) && Inv(cl, start, w) && Enabled(cl, w, a)
    ensures Inv(cl, start, After(cl, w, a))
  {
    var w' := After(cl, w, a);
    StepConverges(cl, w, a);
    forall pid | pid in w'.jobs
      ensures JobOk(cl, w', w'.jobs[pid])
    {
      if a.Read? && a.pid == pid {
        ReadKeepsJob(cl, w, pid);
      } else if pid in w.jobs && w'.jobs[pid] == w.jobs[pid] {
        OthersStay(cl, w, w', w.jobs[pid], w.jobs[pid].b);
      }
    }
    forall b | b in w'.done
      ensures DoneOk(cl, w', b)
    {
      if b in w.done {
        OthersStay(cl, w, w', Job(b, 0, {}), b);
      } else {
        WritesConverge(cl, w, a.pid);
      }
    }
  }

  lemma {:induction false} RunKeepsInv(cl: Cluster, start: set<Tuple>, w: World, acts: seq<Action>)
    requires WellFormedBindings(cl) && Covered(cl) && Inv(cl, start, w) && Runs(cl, w, acts)
    ensures Inv(cl, start, Exec(cl, w, acts))
    decreases acts
  {
    if acts != [] {
      InvStep(cl, start, w, acts[0]);
      RunKeepsInv(cl, start, After(cl, w, acts[0]), acts[1..]);
    }
  }

  /** A run in which every binding completes one ReconcilePolicy, or one DeletePolicy if it is being deleted. */
  predicate Completes(cl: Cluster, start: set<Tuple>, acts: seq<Action>) {
    Runs(cl, World(start, map[], {}), acts) && forall b :: b in cl.bindings ==> b in Exec(cl, World(start, map[], {}), acts).done
  }

  /** The mentioned users' tuples are exactly what the live bindings want; all others are as they were. */
  ghost predicate HasConverged(cl: Cluster, start: set<Tuple>, tuples: set<Tuple>) {
    forall t :: t in tuples <==> if Mentioned(cl, t) then Wanted(cl, t) else t in start
  }

  ghost predicate AlwaysConverges(cl: Cluster) {
    forall start, acts :: Completes(cl, start, acts) ==>
      HasConverged(cl, start, Exec(cl, World(start, map[], {}), acts).tuples)
  }

  /** In a covered cluster every complete run converges, whatever the store held before. */
  lemma Converges(cl: Cluster, start: set<Tuple>, acts: seq<Action>)
    requires WellFormedBindings(cl) && Covered(cl) && Completes(cl, start, acts)
    ensures HasConverged(cl, start, Exec(cl, World(start, map[], {}), acts).tuples)
  {
    var w := World(start, map[], {});
    RunKeepsInv(cl, start, w, acts);
    var w' := Exec(cl, w, acts);
    forall t | Mentioned(cl, t)
      ensures t in w'.tuples <==> Wanted(cl, t)
    {
      var b :| b in cl.bindings && Manages(b, t);
      assert DoneOk(cl, w', b);
      if Wanted(cl, t) {
        var other :| other in cl.bindings && !other.deleting && Specified(other) && t in Own(cl, other);
        assert DoneOk(cl, w', other);
      }
    }
  }

  // ---- Runs of one reconcile at a time

  lemma {:induction false} RunsCompose(cl: Cluster, w: World, first: seq<Action>, second: seq<Action>)
    requires Runs(cl, w, first) && Runs(cl, Exec(cl, w, first), second)
    ensures Runs(cl, w, first + second) && Exec(cl, w, first + second) == Exec(cl, Exec(cl, w, first), second)
    decreases first
  {
    if first == [] {
      assert first + second == second;
    } else {
      assert (first + second)[1..] == first[1..] + second;
      RunsCompose(cl, After(cl, w, first[0]), first[1..], second);
    }
  }

  /** One enabled action before a run. */
  lemma RunsFrom(cl: Cluster, w: World, a: Action, rest: seq<Action>)
    requires Enabled(cl, w, a) && Runs(cl, After(cl, w, a), rest)
    ensures Runs(cl, w, [a] + rest) && Exec(cl, w, [a] + rest) == Exec(cl, After(cl, w, a), rest)
  {
    assert ([a] + rest)[1..] == rest;
  }

  function ManagedIn(b: PolicyBinding, tuples: set<Tuple>): set<Tuple> {
    set t | t in tuples && Manages(b, t)
  }

  /** The reads that a lone job still has to make, and its write. */
  lemma {:induction false} ReadsThenWrites(cl: Cluster, w: World, j: Job) returns (acts: seq<Action>, w': World)
    requires w.jobs == map[0 := j] && Specified(j.b) && j.read <= |j.b.subjects|
    requires forall t :: t in j.existing <==> t in w.tuples && TargetObject(j.b.selector) == Some(t.obj) && HasRead(j, t.user)
    ensures Runs(cl, w, acts) && w' == Exec(cl, w, acts)
    ensures w' == World(Written(cl, j.b, w.tuples, ManagedIn(j.b, w.tuples)), map[], w.done + {j.b})
    decreases |j.b.subjects| - j.read
  {
    if j.read == |j.b.subjects| {
      assert j.b.subjects[..j.read] == j.b.subjects;
      forall t: Tuple
        ensures Manages(j.b, t) <==> TargetObject(j.b.selector) == Some(t.obj) && HasRead(j, t.user)
      {
        CoversMeans(j.b, t.user);
        TargetMeans(j.b.selector, t.obj);
      }
      assert j.existing == ManagedIn(j.b, w.tuples);
      RunsFrom(cl, w, Write(0), []);
      acts, w' := [Write(0)] + [], After(cl, w, Write(0));
      assert w'.jobs == map[];
    } else {
      var next := After(cl, w, Read(0));
      OneMoreRead(j, w.tuples);
      var rest;
      rest, w' := ReadsThenWrites(cl, next, next.jobs[0]);
      RunsFrom(cl, w, Read(0), rest);
      acts := [Read(0)] + rest;
    }
  }

  lemma OneMoreRead(j: Job, tuples: set<Tuple>)
    requires Specified(j.b) && j.read < |j.b.subjects|
    requires forall t :: t in j.existing <==> t in tuples && TargetObject(j.b.selector) == Some(t.obj) && HasRead(j, t.user)
    ensures var k := j.(read := j.read + 1, existing := j.existing + ReadNext(j, tuples));
      forall t :: t in k.existing <==> t in tuples && TargetObject(k.b.selector) == Some(t.obj) && HasRead(k, t.user)
  {
    assert j.b.subjects[..j.read + 1] == j.b.subjects[..j.read] + [j.b.subjects[j.read]];
  }

  /** One reconcile on its own, from start to write. */
  lemma OneReconcile(cl: Cluster, w: World, b: PolicyBinding) returns (acts: seq<Action>, w': World)
    requires b in cl.bindings && Specified(b) && w.jobs == map[]
    ensures Runs(cl, w, acts) && w' == Exec(cl, w, acts)
    ensures w' == World(Written(cl, b, w.tuples, ManagedIn(b, w.tuples)), map[], w.done + {b})
  {
    var started := After(cl, w, Start(0, b));
    var rest;
    rest, w' := ReadsThenWrites(cl, started, Job(b, 0, {}));
    RunsFrom(cl, w, Start(0, b), rest);
    acts := [Start(0, b)] + rest;
  }

  /** One reconcile of each of the first `n` bindings, one after the other. */
  lemma {:induction false} ReconcileEach(cl: Cluster, start: set<Tuple>, n: nat) returns (acts: seq<Action>, w: World)
    requires Resolved(cl) && n <= |cl.bindings|
    ensures Runs(cl, World(start, map[], {}), acts) && w == Exec(cl, World(start, map[], {}), acts)
    ensures w.jobs == map[] && forall b :: b in cl.bindings[..n] ==> b in w.done
  {
    if n == 0 {
      acts, w := [], World(start, map[], {});
    } else {
      var before, mid := ReconcileEach(cl, start, n - 1);
      var last;
      last, w := OneReconcile(cl, mid, cl.bindings[n - 1]);
      RunsCompose(cl, World(start, map[], {}), before, last);
      acts := before + last;
      assert cl.bindings[..n] == cl.bindings[..n - 1] + [cl.bindings[n - 1]];
    }
  }

  /** Two more lone reconciles: what `other` wants and neither `b` nor a sibling of it does is gone in the end. */
  lemma UncoveredIsLost(cl: Cluster, start: set<Tuple>, b: PolicyBinding, other: PolicyBinding, t: Tuple)
    returns (acts: seq<Action>)
    requires Resolved(cl) && b in cl.bindings && other in cl.bindings && !other.deleting
    requires t in Own(cl, other) && Manages(b, t) && t !in Own(cl, b) && t !in SiblingsOwn(cl, b)
    ensures Completes(cl, start, acts) && Mentioned(cl, t) && Wanted(cl, t)
    ensures t !in Exec(cl, World(start, map[], {}), acts).tuples
  {
    var w0 := World(start, map[], {});
    var each, w1 := ReconcileEach(cl, start, |cl.bindings|);
    assert cl.bindings[..|cl.bindings|] == cl.bindings;
    var wanter, w2 := OneReconcile(cl, w1, other);
    RunsCompose(cl, w0, each, wanter);
    var remover, w3 := OneReconcile(cl, w2, b);
    RunsCompose(cl, w0, each + wanter, remover);
    acts := each + wanter + remover;
    assert t in w2.tuples && t in ManagedIn(b, w2.tuples);
  }

  /**
   Exactly the covered clusters converge: in every complete run, whatever the
   interleaving and the store it starts from, the tuples of the mentioned users
   end as exactly what the live bindings want, and no other tuple is touched.
   */
  lemma ConvergesIffCovered(cl: Cluster)
    requires WellFormedBindings(cl)
    ensures AlwaysConverges(cl) <==> Covered(cl)
  {
    if Covered(cl) {
      forall start, acts | Completes(cl, start, acts)
        ensures HasConverged(cl, start, Exec(cl, World(start, map[], {}), acts).tuples)
      {
        Converges(cl, start, acts);
      }
    } else {
      var b, other, t :| b in cl.bindings && other in cl.bindings && Specified(b) && Specified(other)
        && !other.deleting && t in Own(cl, other) && Manages(b, t) && !(t in Own(cl, b) || t in SiblingsOwn(cl, b));
      var acts := UncoveredIsLost(cl, {}, b, other, t);
      assert !HasConverged(cl, {}, Exec(cl, World({}, map[], {}), acts).tuples);
    }
  }
}
