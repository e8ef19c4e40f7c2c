/**
 What every run of the hold protocol keeps: no tuple outlives the Project or
 Organization it names, access lasts through Milo's drain, and the lock pool
 never deadlocks.
 */
module HoldSafety {
  import opened Names
  import opened Hold
  import opened HoldProtocol

  /** The object under `k` exists under `uid` and carries our finalizer. */
  predicate Kept(s: World, k: Object, uid: nat) {
    Cur(s, k).Here? && Cur(s, k).res.uid == uid && Ours in Cur(s, k).res.finalizers
  }

  function CheckedUid(ch: Checked, t: Tuple, k: Object): nat {
    if t.obj == k then ch.obj else ch.user
  }

  /** Every tuple names only objects that exist, under the UID its writer checked, held by our finalizer. */
  ghost predicate TuplesSafe(s: World) {
    forall t, k :: t in s.tuples && HeldObject(k) && NamesKey(t, k) ==>
      t in s.checked && Kept(s, k, CheckedUid(s.checked[t], t, k))
  }

  // ---- The invariant

  ghost predicate SeenOk(s: World) {
    forall k :: Seen(s, k) <= Last(s, k)
  }

  ghost predicate UidsBelow(s: World) {
    forall k, i :: 0 <= i <= Last(s, k) && Hist(s, k)[i].Here? ==> Hist(s, k)[i].res.uid < s.nextUid
  }

  /** `b` may follow `a` in the life of one object. */
  predicate Follows(a: Resource, b: Resource) {
    a.uid == b.uid && a.deleting ==> b.deleting && b.finalizers <= a.finalizers
  }

  /** A deletion, once started, is never undone, and only takes finalizers off. */
  ghost predicate DeletionsLast(s: World) {
    forall k, i, j :: 0 <= i <= j <= Last(s, k) && Hist(s, k)[i].Here? && Hist(s, k)[j].Here? ==>
      Follows(Hist(s, k)[i].res, Hist(s, k)[j].res)
  }

  ghost predicate HistoryOk(s: World) {
    SeenOk(s) && UidsBelow(s) && DeletionsLast(s)
  }

  predicate LiveAndHeld(v: Version) {
    v.Here? && !v.res.deleting && Ours in v.res.finalizers
  }

  /** What the cache can still show as live and held is live or deleting, and held, now. */
  ghost predicate SeenLive(s: World) {
    forall k, j | Seen(s, k) <= j <= Last(s, k) && LiveAndHeld(Hist(s, k)[j]) :: Kept(s, k, Hist(s, k)[j].res.uid)
  }

  ghost predicate LocksHaveHolders(c: Config, s: World) {
    forall l :: l in s.locks ==>
      s.locks[l] in s.procs && Locked(s.procs[s.locks[l]]) && c.hash(LockObject(s.procs[s.locks[l]])) == l
  }

  ghost predicate HoldersHaveLocks(c: Config, s: World) {
    forall pid :: pid in s.procs && Locked(s.procs[pid]) ==>
      var l := c.hash(LockObject(s.procs[pid])); l in s.locks && s.locks[l] == pid
  }

  ghost predicate OneWorker(s: World) {
    forall p, q :: p in s.procs && q in s.procs && p != q && !s.procs[p].Binding? ==> !WorksOn(s.procs[q], s.procs[p].key)
  }

  ghost predicate LocksOk(c: Config, s: World) {
    LocksHaveHolders(c, s) && HoldersHaveLocks(c, s) && OneWorker(s)
  }

  /** The only tuples with a held object as user are a Project's parent tuples. */
  ghost predicate ParentsShaped(s: World) {
    forall t :: t in s.tuples && t.user.Entity? && HeldObject(t.user.obj) ==>
      t.relation == ParentRelation && t.user.obj.typ == OrganizationType && t.obj.typ == ProjectType
  }

  ghost predicate ReadOk(s: World, k: Object, rv: nat, read: Resource) {
    HeldObject(k) && rv <= Seen(s, k) && rv <= Last(s, k) && Hist(s, k)[rv] == Here(read)
  }

  /** A live read at version `at` that lacked our finalizer. */
  ghost predicate ReadNotYet(s: World, k: Object, at: nat, uid: nat) {
    at <= Last(s, k) && Hist(s, k)[at].Here? && HoldOf(Hist(s, k)[at].res, uid) == NotYet
  }

  ghost predicate NothingNames(s: World, k: Object) {
    forall t :: t in s.tuples ==> !NamesKey(t, k)
  }

  /** Every tuple that names `k` is found by one of the reads still to come. */
  ghost predicate LeftToFind(s: World, k: Object, queries: seq<Query>) {
    forall t :: t in s.tuples && NamesKey(t, k) ==> exists q :: q in queries && Finds(q, k, t)
  }

  /** The owner a step of syncParent works on. */
  function RefOf(step: SyncStep): set<OwnerRef> {
    match step
    case ReadParents => {}
    case DropStale(_) => {}
    case NextOwner(_) => {}
    case _ => {step.ref}
  }

  ghost predicate ProcOk(s: World, p: Proc) {
    match p
    case Binding(target, uid, added, removed, step) =>
      && HeldObject(target)
      && (forall t :: t in added ==> t.obj == target && !(t.user.Entity? && HeldObject(t.user.obj)))
      && (step.AddToTarget? ==> ReadNotYet(s, target, step.at, uid))
      && (step.Write? && added != {} ==> Kept(s, target, uid))
    case Ensure(k, rv, read) =>
      ReadOk(s, k, rv, read) && !read.deleting
    case Sync(k, rv, read, todo, step) =>
      && ReadOk(s, k, rv, read) && k.typ == ProjectType && Kept(s, k, read.uid)
      && (forall ref :: ref in todo ==> ParentObject(ref).typ == OrganizationType)
      && (forall ref :: ref in RefOf(step) ==> ParentObject(ref).typ == OrganizationType)
      && (step.AddToOwner? ==> ReadNotYet(s, ParentObject(step.ref), step.at, step.ref.uid))
      && (step.Apply? && step.h == Held ==> Kept(s, ParentObject(step.ref), step.ref.uid))
    case Finalize(k, rv, read, step) =>
      && ReadOk(s, k, rv, read) && read.deleting && Drained(read)
      && (step.Collect? ==> forall t :: t in step.found ==> NamesKey(t, k))
      && (step.DeleteFound? ==> forall t :: t in step.left ==> NamesKey(t, k))
      && (step.Check? ==> LeftToFind(s, k, step.queries))
      && (step.Release? ==> NothingNames(s, k))
  }

  ghost predicate ProcsOk(s: World) {
    forall pid :: pid in s.procs ==> ProcOk(s, s.procs[pid])
  }

  ghost predicate Inv(c: Config, s: World) {
    && HistoryOk(s) && SeenLive(s)
    && LocksOk(c, s)
    && TuplesSafe(s) && ParentsShaped(s) && ProcsOk(s)
  }

  // ---- How one step changes the stored objects

  /** The step is the finalizer's release of `k`. */
  predicate Releases(s: World, a: Action, k: Object) {
    && a.Step? && a.pid in s.procs && s.procs[a.pid].Finalize? && s.procs[a.pid].final.Release?
    && s.procs[a.pid].key == k && s.procs[a.pid].rv == Last(s, k)
  }

  /** What a step may append to the history of a name: a new object, or a version that follows. */
  predicate MayAppend(s: World, k: Object, v: Version, nextUid: nat) {
    v.Here? ==>
      || (Cur(s, k) == Gone && v.res.uid == s.nextUid < nextUid)
      || (Cur(s, k).Here? && Cur(s, k).res.uid == v.res.uid && Follows(Cur(s, k).res, v.res))
  }

  /** What an action appends to the API server's histories. */
  function Growths(c: Config, s: World, a: Action): Growth
    requires Enabled(c, s, a)
  {
    if a.Step? then EffectOf(c, s, a).growth else GrowthOf(s, a)
  }

  lemma GrowthAllowed(c: Config, s: World, a: Action)
    requires Enabled(c, s, a) && (a.Step? ==> ProcOk(s, s.procs[a.pid]))
    ensures Growths(c, s, a).Grew? ==> MayAppend(s, Growths(c, s, a).key, Growths(c, s, a).v, After(c, s, a).nextUid)
    ensures forall uid | Growths(c, s, a).Grew? && !Releases(s, a, Growths(c, s, a).key) && Kept(s, Growths(c, s, a).key, uid) ::
      Growths(c, s, a).v.Here? && Ours in Growths(c, s, a).v.res.finalizers && Growths(c, s, a).v.res.uid == uid
  {
  }

  /** One step's effect on the history of any name. */
  lemma HistGrows(c: Config, s: World, a: Action, k: Object)
    requires Enabled(c, s, a)
    ensures var g := Growths(c, s, a);
      Hist(After(c, s, a), k) == if g.Grew? && g.key == k then Hist(s, k) + [g.v] else Hist(s, k)
  {
  }

  lemma SeenStep(c: Config, s: World, a: Action, k: Object)
    requires Enabled(c, s, a) && SeenOk(s)
    ensures Seen(s, k) <= Seen(After(c, s, a), k) <= Last(After(c, s, a), k)
  {
  }

  lemma HistoryStep(c: Config, s: World, a: Action)
    requires Enabled(c, s, a) && HistoryOk(s) && (a.Step? ==> ProcOk(s, s.procs[a.pid]))
    ensures HistoryOk(After(c, s, a))
  {
    var s' := After(c, s, a);
    GrowthAllowed(c, s, a);
    forall k
      ensures Seen(s', k) <= Last(s', k)
      ensures forall i :: 0 <= i <= Last(s', k) && Hist(s', k)[i].Here? ==> Hist(s', k)[i].res.uid < s'.nextUid
      ensures forall i, j :: 0 <= i <= j <= Last(s', k) && Hist(s', k)[i].Here? && Hist(s', k)[j].Here? ==>
        Follows(Hist(s', k)[i].res, Hist(s', k)[j].res)
    {
      HistGrows(c, s, a, k);
      SeenStep(c, s, a, k);
    }
  }

  /** Nothing but its finalizer's release takes our finalizer off an object, or the object away. */
  lemma KeptStays(c: Config, s: World, a: Action, k: Object, uid: nat)
    requires Enabled(c, s, a) && (a.Step? ==> ProcOk(s, s.procs[a.pid]))
    requires !Releases(s, a, k) && Kept(s, k, uid)
    ensures Kept(After(c, s, a), k, uid)
  {
    HistGrows(c, s, a, k);
    GrowthAllowed(c, s, a);
  }

  lemma ReadStays(c: Config, s: World, a: Action, k: Object, rv: nat, read: Resource)
    requires Enabled(c, s, a) && SeenOk(s) && ReadOk(s, k, rv, read)
    ensures ReadOk(After(c, s, a), k, rv, read)
  {
  }

  lemma SeenLiveStep(c: Config, s: World, a: Action)
    requires Enabled(c, s, a) && SeenOk(s) && SeenLive(s) && (a.Step? ==> ProcOk(s, s.procs[a.pid]))
    ensures SeenLive(After(c, s, a))
  {
    var s' := After(c, s, a);
    forall k, j | Seen(s', k) <= j <= Last(s', k) && LiveAndHeld(Hist(s', k)[j])
      ensures Kept(s', k, Hist(s', k)[j].res.uid)
    {
      HistGrows(c, s, a, k);
      SeenStep(c, s, a, k);
      if j != Last(s', k) || Hist(s', k) == Hist(s, k) {
        assert Hist(s', k)[j] == Hist(s, k)[j];
        if Releases(s, a, k) {
          // The released version is the newest, and the cache has reached it, so j is that version.
          assert false;
        } else {
          KeptStays(c, s, a, k, Hist(s, k)[j].res.uid);
        }
      }
    }
  }

  // ---- Locks and workers

  /** A step of a reconcile keeps its lock until it gives the lock up, and never changes its key. */
  ghost predicate KeepsLock(p: Proc, next: Outcome) {
    match next
    case End => true
    case Continue(q) =>
      && q.Binding? == p.Binding? && (!p.Binding? ==> q.key == p.key)
      && Locked(q) == Locked(p) && (Locked(p) ==> LockObject(q) == LockObject(p))
    case Unlocked(q) =>
      q.Binding? == p.Binding? && (!p.Binding? ==> q.key == p.key) && !Locked(q) && !Waiting(q) && Locked(p)
  }

  lemma StepKeepsLock(s: World, p: Proc, ok: bool)
    requires !Waiting(p)
    ensures KeepsLock(p, StepOf(s, p, ok).next)
  {
  }

  lemma PerformLocks(c: Config, s: World, pid: Pid, e: Effect)
    requires LocksOk(c, s)
    requires pid in s.procs && KeepsLock(s.procs[pid], e.next)
    ensures LocksOk(c, Perform(s, pid, e))
  {
  }

  lemma AcquireLocks(c: Config, s: World, pid: Pid)
    requires Enabled(c, s, Acquire(pid)) && LocksOk(c, s)
    ensures LocksOk(c, After(c, s, Acquire(pid)))
  {
  }

  lemma StartLocks(c: Config, s: World, a: Action)
    requires Enabled(c, s, a) && (a.StartBinding? || a.StartReconcile?) && LocksOk(c, s)
    ensures LocksOk(c, After(c, s, a))
  {
    var p := After(c, s, a).procs[a.pid];
    assert !Locked(p) && (!p.Binding? ==> p.key == a.key);
    assert After(c, s, a).procs == s.procs[a.pid := p];
  }

  lemma LocksStep(c: Config, s: World, a: Action)
    requires Enabled(c, s, a) && LocksOk(c, s)
    ensures LocksOk(c, After(c, s, a))
  {
    match a
    case Step(pid, ok) =>
      StepKeepsLock(s, s.procs[pid], ok);
      PerformLocks(c, s, pid, EffectOf(c, s, a));
    case DeleteBatch(pid, _, _) => PerformLocks(c, s, pid, EffectOf(c, s, a));
    case Abort(pid) => PerformLocks(c, s, pid, EffectOf(c, s, a));
    case Acquire(pid) => AcquireLocks(c, s, pid);
    case StartBinding(_, _, _, _, _) => StartLocks(c, s, a);
    case StartReconcile(_, _) => StartLocks(c, s, a);
    case _ =>
  }

  /** Two reconciles inside the lock of one object are one reconcile. */
  lemma LockExcludes(c: Config, s: World, p: Pid, q: Pid)
    requires HoldersHaveLocks(c, s) && p in s.procs && q in s.procs
    requires Locked(s.procs[p]) && Locked(s.procs[q]) && LockObject(s.procs[p]) == LockObject(s.procs[q])
    ensures p == q
  {
  }

  // ---- Tuples

  function Changes(c: Config, s: World, a: Action): Change
    requires Enabled(c, s, a)
  {
    match a
    case OtherWrite(added, removed) => Change(removed, added, Checked(0, 0))
    case Step(_, _) => EffectOf(c, s, a).change
    case DeleteBatch(_, _, _) => EffectOf(c, s, a).change
    case _ => NoChange
  }

  lemma TuplesChange(c: Config, s: World, a: Action)
    requires Enabled(c, s, a)
    ensures After(c, s, a).tuples == TuplesAfter(s.tuples, Changes(c, s, a))
    ensures After(c, s, a).checked == CheckedAfter(s.checked, Changes(c, s, a))
  {
  }

  predicate Adds(ch: Change, t: Tuple) {
    ch.Change? && t in ch.added
  }

  /** A step that adds a tuple naming a held object runs inside that object's lock, or is that Project's own worker. */
  lemma AddsUnderLock(c: Config, s: World, a: Action, t: Tuple, k: Object)
    requires Enabled(c, s, a) && (a.Step? ==> ProcOk(s, s.procs[a.pid]))
    requires Adds(Changes(c, s, a), t) && HeldObject(k) && NamesKey(t, k)
    ensures a.Step?
    ensures var p := s.procs[a.pid]; (Locked(p) && LockObject(p) == k && !p.Finalize?) || (WorksOn(p, k) && p.Sync?)
    ensures Kept(s, k, CheckedUid(Changes(c, s, a).ch, t, k))
    ensures t.user == Entity(k) ==> t.relation == ParentRelation && k.typ == OrganizationType && t.obj.typ == ProjectType
  {
  }

  lemma TuplesStep(c: Config, s: World, a: Action)
    requires Enabled(c, s, a) && (a.Step? ==> ProcOk(s, s.procs[a.pid]))
    requires TuplesSafe(s)
    ensures TuplesSafe(After(c, s, a))
  {
    var s', ch := After(c, s, a), Changes(c, s, a);
    TuplesChange(c, s, a);
    forall t, k | t in s'.tuples && HeldObject(k) && NamesKey(t, k)
      ensures t in s'.checked && Kept(s', k, CheckedUid(s'.checked[t], t, k))
    {
      if Adds(ch, t) {
        AddsUnderLock(c, s, a, t, k);
        assert !Releases(s, a, k);
        KeptStays(c, s, a, k, CheckedUid(ch.ch, t, k));
      } else {
        assert t in s.tuples && s'.checked[t] == s.checked[t];
        KeptStays(c, s, a, k, CheckedUid(s.checked[t], t, k));
      }
    }
  }

  lemma ParentsShapedStep(c: Config, s: World, a: Action)
    requires Enabled(c, s, a) && (a.Step? ==> ProcOk(s, s.procs[a.pid]))
    requires ParentsShaped(s)
    ensures ParentsShaped(After(c, s, a))
  {
  }

  // ---- The reconciles' own facts

  /** No reconcile but `pid` can add a tuple naming `k`, nor release `k`, while `pid` finalizes `k` under its lock. */
  lemma OthersLeaveAlone(c: Config, s: World, a: Action, pid: Pid, k: Object)
    requires Enabled(c, s, a) && (a.Step? ==> ProcOk(s, s.procs[a.pid]))
    requires HoldersHaveLocks(c, s) && OneWorker(s)
    requires pid in s.procs && WorksOn(s.procs[pid], k) && s.procs[pid].Finalize? && Locked(s.procs[pid]) && HeldObject(k)
    requires a.Step? ==> a.pid != pid
    ensures forall t :: t in After(c, s, a).tuples && NamesKey(t, k) ==> t in s.tuples
  {
  }

  lemma NotYetStays(c: Config, s: World, a: Action, k: Object, at: nat, uid: nat)
    requires Enabled(c, s, a) && ReadNotYet(s, k, at, uid)
    ensures ReadNotYet(After(c, s, a), k, at, uid)
  {
  }

  lemma OtherProcStep(c: Config, s: World, a: Action, pid: Pid)
    requires Enabled(c, s, a) && SeenOk(s) && ProcsOk(s) && HoldersHaveLocks(c, s) && OneWorker(s)
    requires pid in s.procs
    requires a.Step? ==> a.pid != pid
    ensures ProcOk(After(c, s, a), s.procs[pid])
  {
    var p, s' := s.procs[pid], After(c, s, a);
    assert ProcOk(s, p);
    match p
    case Binding(target, uid, added, _, step) =>
      if step.AddToTarget? {
        NotYetStays(c, s, a, target, step.at, uid);
      }
      if step.Write? && added != {} {
        if Releases(s, a, target) {
          LockExcludes(c, s, pid, a.pid);
        }
        KeptStays(c, s, a, target, uid);
      }
    case Ensure(k, rv, read) => ReadStays(c, s, a, k, rv, read);
    case Sync(k, rv, read, _, step) =>
      ReadStays(c, s, a, k, rv, read);
      assert !Releases(s, a, k);
      KeptStays(c, s, a, k, read.uid);
      if step.AddToOwner? {
        NotYetStays(c, s, a, ParentObject(step.ref), step.at, step.ref.uid);
      }
      if step.Apply? && step.h == Held {
        if Releases(s, a, ParentObject(step.ref)) {
          LockExcludes(c, s, pid, a.pid);
        }
        KeptStays(c, s, a, ParentObject(step.ref), step.ref.uid);
      }
    case Finalize(k, rv, read, step) =>
      ReadStays(c, s, a, k, rv, read);
      if step.Check? || step.Release? {
        OthersLeaveAlone(c, s, a, pid, k);
      }
  }

  /** The reads that a finalizer makes find every tuple naming its object, when the child types are declared. */
  lemma QueriesFindAll(c: Config, s: World, k: Object)
    requires ChildrenDeclared(c) && ParentsShaped(s) && HeldObject(k)
    ensures LeftToFind(s, k, Queries(c, k))
  {
    forall t | t in s.tuples && NamesKey(t, k)
      ensures exists q :: q in Queries(c, k) && Finds(q, k, t)
    {
      if t.obj == k {
        assert Queries(c, k)[0] == OnObject && Finds(OnObject, k, t);
      } else {
        var children := c.children(k.typ);
        var i :| 0 <= i < |children| && children[i] == ProjectType;
        assert Queries(c, k)[i + 1] == AsUserOf(ProjectType) && Finds(AsUserOf(ProjectType), k, t);
      }
    }
  }

  /** A read that finds nothing leaves the rest to the reads still to come. */
  lemma NothingFound(s: World, k: Object, queries: seq<Query>)
    requires queries != [] && LeftToFind(s, k, queries) && Found(s.tuples, queries[0], k) == {}
    ensures LeftToFind(s, k, queries[1..])
  {
    var q, rest := queries[0], queries[1..];
    var found := Found(s.tuples, q, k);
    assert forall t :: t in s.tuples && Finds(q, k, t) ==> t in found;
    assert forall r :: r in queries ==> r == q || r in rest;
    forall t | t in s.tuples && NamesKey(t, k)
      ensures exists r :: r in rest && Finds(r, k, t)
    {
      var r :| r in queries && Finds(r, k, t);
    }
  }

  lemma FinalizeOwn(s: World, p: Proc)
    requires p.Finalize? && !Waiting(p) && ProcOk(s, p)
    requires p.final.DeleteFound? ==> p.final.left == {}
    ensures var next := FinalizeStep(s, p).next; next.End? || ProcOk(s, next.p)
  {
    if p.final.Check? && p.final.queries != [] && Found(s.tuples, p.final.queries[0], p.key) == {} {
      NothingFound(s, p.key, p.final.queries);
    }
  }

  /** Adding our finalizer to what was read as live and lacking it holds the object. */
  lemma HoldKeeps(s: World, s': World, k: Object, at: nat, uid: nat)
    requires ReadNotYet(s, k, at, uid) && HoldGrowth(s, k, at).Grew?
    requires Hist(s', k) == Hist(s, k) + [HoldGrowth(s, k, at).v]
    ensures Kept(s', k, uid)
  {
  }

  lemma SyncOwn(s: World, s': World, p: Proc, ok: bool)
    requires p.Sync? && !Waiting(p) && ProcOk(s, p)
    requires var g := SyncStepOf(s, p, ok).growth; forall k ::
      Hist(s', k) == if g.Grew? && g.key == k then Hist(s, k) + [g.v] else Hist(s, k)
    requires ReadOk(s', p.key, p.rv, p.read) && Kept(s', p.key, p.read.uid)
    ensures var next := SyncStepOf(s, p, ok).next; next.End? || ProcOk(s', next.p)
  {
    match p.sync
    case ReadOwner(_, ref) => assert Hist(s', ParentObject(ref)) == Hist(s, ParentObject(ref));
    case AddToOwner(_, ref, at) =>
      if HoldGrowth(s, ParentObject(ref), at).Grew? {
        HoldKeeps(s, s', ParentObject(ref), at, ref.uid);
      }
    case _ =>
  }

  lemma BindingOwn(s: World, s': World, p: Proc, ok: bool)
    requires p.Binding? && !Waiting(p) && ProcOk(s, p)
    requires var g := BindingStep(s, p, ok).growth;
      Hist(s', p.target) == if g.Grew? && g.key == p.target then Hist(s, p.target) + [g.v] else Hist(s, p.target)
    ensures var next := BindingStep(s, p, ok).next; next.End? || ProcOk(s', next.p)
  {
  }

  lemma ProcOkSame(s: World, s': World, p: Proc)
    requires s'.hist == s.hist && s'.seen == s.seen && s'.tuples == s.tuples && ProcOk(s, p)
    ensures ProcOk(s', p)
  {
  }

  lemma SyncOwnStep(c: Config, s: World, a: Action)
    requires Enabled(c, s, a) && a.Step? && ProcOk(s, s.procs[a.pid]) && SeenOk(s) && s.procs[a.pid].Sync?
    ensures var next := SyncStepOf(s, s.procs[a.pid], a.ok).next; next.End? || ProcOk(After(c, s, a), next.p)
  {
    var p := s.procs[a.pid];
    forall o {
      HistGrows(c, s, a, o);
    }
    ReadStays(c, s, a, p.key, p.rv, p.read);
    KeptStays(c, s, a, p.key, p.read.uid);
    SyncOwn(s, After(c, s, a), p, a.ok);
  }

  lemma BindingOwnStep(c: Config, s: World, a: Action)
    requires Enabled(c, s, a) && a.Step? && ProcOk(s, s.procs[a.pid]) && s.procs[a.pid].Binding?
    ensures var next := BindingStep(s, s.procs[a.pid], a.ok).next; next.End? || ProcOk(After(c, s, a), next.p)
  {
    HistGrows(c, s, a, s.procs[a.pid].target);
    BindingOwn(s, After(c, s, a), s.procs[a.pid], a.ok);
  }

  lemma FinalizeOwnStep(c: Config, s: World, a: Action)
    requires Enabled(c, s, a) && a.Step? && ProcOk(s, s.procs[a.pid]) && s.procs[a.pid].Finalize?
    ensures var next := FinalizeStep(s, s.procs[a.pid]).next; next.End? || ProcOk(After(c, s, a), next.p)
  {
    FinalizeOwn(s, s.procs[a.pid]);
    if FinalizeStep(s, s.procs[a.pid]).next.Continue? {
      ProcOkSame(s, After(c, s, a), FinalizeStep(s, s.procs[a.pid]).next.p);
    }
  }

  lemma OwnStep(c: Config, s: World, a: Action)
    requires Enabled(c, s, a) && a.Step? && ProcOk(s, s.procs[a.pid]) && SeenOk(s)
    ensures a.pid in After(c, s, a).procs ==> ProcOk(After(c, s, a), After(c, s, a).procs[a.pid])
  {
    var p := s.procs[a.pid];
    match p
    case Binding(_, _, _, _, _) => BindingOwnStep(c, s, a);
    case Ensure(_, _, _) =>
    case Sync(_, _, _, _, _) => SyncOwnStep(c, s, a);
    case Finalize(_, _, _, _) => FinalizeOwnStep(c, s, a);
  }

  lemma OpensOk(c: Config, s: World, k: Object)
    requires SeenOk(s) && SeenLive(s) && HeldObject(k) && Opened(c, s, k).Open?
    ensures ProcOk(s, Opened(c, s, k).proc)
  {
    var p := Opened(c, s, k).proc;
    if p.Sync? {
      forall ref | ref in p.todo
        ensures ParentObject(ref).typ == OrganizationType
      {
        InSelect(p.read.owners, Synchronised(p.read.owners), ref);
      }
    }
  }

  lemma AcquireOk(c: Config, s: World, a: Action)
    requires ChildrenDeclared(c) && Enabled(c, s, a) && a.Acquire? && SeenOk(s) && ProcsOk(s)
    requires HoldersHaveLocks(c, s) && OneWorker(s) && ParentsShaped(s)
    ensures ProcOk(After(c, s, a), After(c, s, a).procs[a.pid])
  {
    OtherProcStep(c, s, a, a.pid);
    if s.procs[a.pid].Finalize? {
      QueriesFindAll(c, s, s.procs[a.pid].key);
    }
  }

  lemma ProcsStep(c: Config, s: World, a: Action)
    requires ChildrenDeclared(c) && Enabled(c, s, a) && SeenOk(s) && SeenLive(s) && ProcsOk(s)
    requires HoldersHaveLocks(c, s) && OneWorker(s) && ParentsShaped(s)
    ensures ProcsOk(After(c, s, a))
  {
    var s' := After(c, s, a);
    forall pid | pid in s'.procs
      ensures ProcOk(s', s'.procs[pid])
    {
      match a
      case StartReconcile(_, _) => if a.pid == pid { OpensOk(c, s, a.key); ProcOkSame(s, s', s'.procs[pid]); } else { OtherProcStep(c, s, a, pid); }
      case StartBinding(_, _, _, _, _) => if a.pid != pid { OtherProcStep(c, s, a, pid); }
      case Step(_, _) => if a.pid == pid { OwnStep(c, s, a); } else { OtherProcStep(c, s, a, pid); }
      case Acquire(_) => if a.pid == pid { AcquireOk(c, s, a); } else { OtherProcStep(c, s, a, pid); }
      case _ => OtherProcStep(c, s, a, pid);
    }
  }

  /** Every step of every actor keeps the invariant. */
  lemma InvStep(c: Config, s: World, a: Action)
    requires ChildrenDeclared(c) && Inv(c, s) && Enabled(c, s, a)
    ensures Inv(c, After(c, s, a))
  {
    HistoryStep(c, s, a);
    SeenLiveStep(c, s, a);
    LocksStep(c, s, a);
    TuplesStep(c, s, a);
    ParentsShapedStep(c, s, a);
    ProcsStep(c, s, a);
  }

  // ---- Safety over whole runs

  /** A leader starts with no reconcile in flight, a synced cache, and tuples that name only held objects. */
  ghost predicate Started(s: World) {
    && s.procs == map[] && s.locks == map[]
    && (forall k :: Seen(s, k) == Last(s, k))
    && UidsBelow(s) && DeletionsLast(s) && TuplesSafe(s) && ParentsShaped(s)
  }

  lemma {:induction false} RunKeepsInv(c: Config, s: World, acts: seq<Action>)
    requires ChildrenDeclared(c) && Inv(c, s) && Runs(c, s, acts)
    ensures Inv(c, Exec(c, s, acts))
    decreases acts
  {
    if acts != [] {
      InvStep(c, s, acts[0]);
      RunKeepsInv(c, After(c, s, acts[0]), acts[1..]);
    }
  }

  lemma ReachedKeepsInv(c: Config, s: World, acts: seq<Action>)
    requires ChildrenDeclared(c) && Started(s) && Runs(c, s, acts)
    ensures Inv(c, Exec(c, s, acts))
  {
    assert Inv(c, s);
    RunKeepsInv(c, s, acts);
  }

  /**
   In every state of every run, each tuple that names a Project or an
   Organization, as the object or as a parent, names one that exists under the
   UID its writer checked, and that our finalizer holds.
   */
  lemma NoTupleOutlivesItsObject(c: Config, s: World, acts: seq<Action>)
    requires ChildrenDeclared(c) && Started(s) && Runs(c, s, acts)
    ensures TuplesSafe(Exec(c, s, acts))
  {
    ReachedKeepsInv(c, s, acts);
  }

  // ---- What the guards let through

  /** The object of that UID is stored, and nobody has deleted it. */
  predicate LiveUnder(v: Version, uid: nat) {
    v.Here? && v.res.uid == uid && !v.res.deleting
  }

  /** The object of that UID is stored, and being deleted. */
  predicate DyingUnder(v: Version, uid: nat) {
    v.Here? && v.res.uid == uid && v.res.deleting
  }

  /** It is live, and our finalizer is on it. */
  predicate HeldLive(v: Version, uid: nat) {
    LiveUnder(v, uid) && Ours in v.res.finalizers
  }

  /** A binding's guard passes exactly a target that is live under the binding's UID. */
  lemma GuardAdmits(s: World, p: Proc, ok: bool)
    requires p.Binding? && p.bind.Guard? && p.added != {}
    ensures var e := BindingStep(s, p, ok);
      && e.growth == Same && e.change == NoChange
      && e.next == if !LiveUnder(Cur(s, p.target), p.uid) then End
                   else Continue(p.(bind := if Ours in Cur(s, p.target).res.finalizers then Write(2)
                                            else AddToTarget(Last(s, p.target))))
  {
  }

  /** An Update that adds our finalizer goes through exactly if the target has not changed since the guard read it. */
  lemma UpdateAdmits(s: World, p: Proc, ok: bool)
    requires p.Binding? && p.bind.AddToTarget? && ProcOk(s, p)
    ensures var e := BindingStep(s, p, ok);
      && e.change == NoChange
      && e.next == (if p.bind.at == Last(s, p.target) then Continue(p.(bind := Write(2))) else End)
      && (e.next.Continue? ==>
            LiveUnder(Cur(s, p.target), p.uid) && e.growth == Grew(p.target, Here(WithOurs(Cur(s, p.target).res))))
  {
  }

  /** What a Project's reconcile makes of one owner, by its live read. */
  lemma OwnerAdmits(s: World, p: Proc, ok: bool)
    requires p.Sync? && p.sync.ReadOwner?
    ensures var ref, existing := p.sync.ref, p.sync.existing;
      var owner := Cur(s, ParentObject(ref));
      SyncStepOf(s, p, ok) == Effect(Same, NoChange,
        if LiveUnder(owner, ref.uid) then
          Continue(p.(sync := if Ours in owner.res.finalizers then Apply(existing, ref, Held)
                              else AddToOwner(existing, ref, Last(s, ParentObject(ref)))))
        else if DyingUnder(owner, ref.uid) then Unlocked(p.(sync := NextOwner(existing)))
        else Continue(p.(sync := Apply(existing, ref, if owner.Here? then Replaced else Missing))))
  {
  }

  lemma OwnerUpdateAdmits(s: World, p: Proc, ok: bool)
    requires p.Sync? && p.sync.AddToOwner? && ProcOk(s, p)
    ensures var ref := p.sync.ref;
      var e := SyncStepOf(s, p, ok);
      && e.change == NoChange
      && e.next == (if p.sync.at == Last(s, ParentObject(ref)) then Continue(p.(sync := Apply(p.sync.existing, ref, Held))) else End)
      && (e.next.Continue? ==> LiveUnder(Cur(s, ParentObject(ref)), ref.uid))
      && (e.next.Continue? ==> e.growth == Grew(ParentObject(ref), Here(WithOurs(Cur(s, ParentObject(ref)).res))))
  {
  }

  /** The reconcile goes from the checks on an object to the write that they allow. */
  predicate EntersWrite(p: Proc, q: Proc) {
    || (p.Binding? && q.Binding? && p.added != {} && !p.bind.Write? && q.bind.Write?)
    || (p.Sync? && q.Sync? && !p.sync.Apply? && q.sync.Apply? && q.sync.h == Held)
  }

  /**
   In every run, a reconcile comes to a write that adds tuples only when the
   object it has locked is at that moment live, under the UID checked, and carries
   our finalizer.
   */
  lemma WritesAreAdmitted(c: Config, s: World, acts: seq<Action>, pid: Pid, ok: bool)
    requires ChildrenDeclared(c) && Started(s) && Runs(c, s, acts) && Enabled(c, Exec(c, s, acts), Step(pid, ok))
    requires pid in After(c, Exec(c, s, acts), Step(pid, ok)).procs
    requires EntersWrite(Exec(c, s, acts).procs[pid], After(c, Exec(c, s, acts), Step(pid, ok)).procs[pid])
    ensures var p, after := Exec(c, s, acts).procs[pid], After(c, Exec(c, s, acts), Step(pid, ok));
      Locked(p) && HeldLive(Cur(after, LockObject(p)), if p.Binding? then p.uid else p.sync.ref.uid)
  {
    ReachedKeepsInv(c, s, acts);
    WriteIsAdmitted(c, Exec(c, s, acts), pid, ok);
  }

  lemma WriteIsAdmitted(c: Config, s: World, pid: Pid, ok: bool)
    requires Enabled(c, s, Step(pid, ok)) && ProcOk(s, s.procs[pid])
    requires pid in After(c, s, Step(pid, ok)).procs
    requires EntersWrite(s.procs[pid], After(c, s, Step(pid, ok)).procs[pid])
    ensures var p, after := s.procs[pid], After(c, s, Step(pid, ok));
      Locked(p) && HeldLive(Cur(after, LockObject(p)), if p.Binding? then p.uid else p.sync.ref.uid)
  {
    var p := s.procs[pid];
    if p.Binding? {
      BindingWriteIsAdmitted(s, p, ok);
    } else {
      ParentWriteIsAdmitted(s, p, ok);
    }
    HistGrows(c, s, Step(pid, ok), LockObject(p));
  }

  /** The version of `k` once `g` has been appended. */
  function CurAfter(s: World, g: Growth, k: Object): Version {
    if g.Grew? && g.key == k then g.v else Cur(s, k)
  }

  lemma BindingWriteIsAdmitted(s: World, p: Proc, ok: bool)
    requires p.Binding? && !Waiting(p) && ProcOk(s, p)
    requires !BindingStep(s, p, ok).next.End? && EntersWrite(p, BindingStep(s, p, ok).next.p)
    ensures HeldLive(CurAfter(s, BindingStep(s, p, ok).growth, p.target), p.uid)
  {
    if p.bind.Guard? {
      GuardAdmits(s, p, ok);
    } else {
      UpdateAdmits(s, p, ok);
    }
  }

  lemma ParentWriteIsAdmitted(s: World, p: Proc, ok: bool)
    requires p.Sync? && !Waiting(p) && ProcOk(s, p)
    requires !SyncStepOf(s, p, ok).next.End? && EntersWrite(p, SyncStepOf(s, p, ok).next.p)
    ensures Locked(p) && HeldLive(CurAfter(s, SyncStepOf(s, p, ok).growth, ParentObject(p.sync.ref)), p.sync.ref.uid)
  {
    if p.sync.ReadOwner? {
      OwnerAdmits(s, p, ok);
    } else {
      OwnerUpdateAdmits(s, p, ok);
    }
  }

  // ---- Access through the drain

  /** The object is live, or Milo is still draining it. */
  predicate InUse(v: Version) {
    v.Here? && (!v.res.deleting || MiloProject in v.res.finalizers || MiloOrganization in v.res.finalizers)
  }

  /** The clear deletes `t`, which names `k`, an object that still needs it. */
  predicate CutsAccess(s: World, a: Action, t: Tuple, k: Object) {
    && a.DeleteBatch? && a.pid in s.procs && s.procs[a.pid].Finalize? && t in a.gone && t in s.tuples
    && HeldObject(k) && NamesKey(t, k) && InUse(Cur(s, k))
  }

  /** The name has passed to another object since the finalizer's cached read. */
  predicate NamePassedOn(s: World, p: Proc)
    requires p.Finalize?
  {
    Cur(s, p.key).Here? && Cur(s, p.key).res.uid != p.read.uid
  }

  /** `t` is the parent tuple between a Project and an Organization, one of them `k` and the other `key`. */
  predicate LinksParent(t: Tuple, k: Object, key: Object) {
    && t.relation == ParentRelation
    && ((t == Tuple(Entity(key), ParentRelation, k) && key.typ == OrganizationType && k.typ == ProjectType)
        || (t == Tuple(Entity(k), ParentRelation, key) && k.typ == OrganizationType && key.typ == ProjectType))
  }

  /** What a clear deletes names its own key; a tuple that names another held object too is a parent tuple. */
  lemma ClearedNames(c: Config, s: World, a: Action, t: Tuple, k: Object)
    requires Inv(c, s) && a.DeleteBatch? && Enabled(c, s, a) && t in a.gone && t in s.tuples
    requires HeldObject(k) && NamesKey(t, k)
    ensures var key := s.procs[a.pid].key; HeldObject(key) && NamesKey(t, key) && (k != key ==> LinksParent(t, k, key))
  {
    assert ProcOk(s, s.procs[a.pid]);
  }

  /** An object under the UID that was read is deleting and drained, however stale the read. */
  lemma ReadIsNotInUse(c: Config, s: World, pid: Pid)
    requires Inv(c, s) && pid in s.procs && s.procs[pid].Finalize?
    ensures InUse(Cur(s, s.procs[pid].key)) ==> NamePassedOn(s, s.procs[pid])
  {
    assert ProcOk(s, s.procs[pid]);
  }

  /**
   The exact cases in which a clear takes a tuple that names an object in use, in
   any run and for every held object: another object has taken the name of the
   finalizer's own object since its cached read, or the tuple is a parent tuple
   and the object in use is at its other end.
   */
  lemma ClearCutsAccessIff(c: Config, s: World, acts: seq<Action>, a: Action, t: Tuple, k: Object)
    requires ChildrenDeclared(c) && Started(s) && Runs(c, s, acts)
    requires a.DeleteBatch? && Enabled(c, Exec(c, s, acts), a)
    ensures var now := Exec(c, s, acts);
      var p := now.procs[a.pid];
      CutsAccess(now, a, t, k) <==>
        && t in a.gone && t in now.tuples && InUse(Cur(now, k))
        && ((k == p.key && NamePassedOn(now, p)) || LinksParent(t, k, p.key))
  {
    ReachedKeepsInv(c, s, acts);
    ClearCutsAccessAt(c, Exec(c, s, acts), a, t, k);
  }

  lemma ClearCutsAccessAt(c: Config, now: World, a: Action, t: Tuple, k: Object)
    requires Inv(c, now) && a.DeleteBatch? && Enabled(c, now, a)
    ensures var p := now.procs[a.pid];
      CutsAccess(now, a, t, k) <==>
        && t in a.gone && t in now.tuples && InUse(Cur(now, k))
        && ((k == p.key && NamePassedOn(now, p)) || LinksParent(t, k, p.key))
  {
    var key := now.procs[a.pid].key;
    if t in a.gone && t in now.tuples {
      assert ProcOk(now, now.procs[a.pid]);
      ClearedNames(c, now, a, t, key);
      if HeldObject(k) && NamesKey(t, k) {
        ClearedNames(c, now, a, t, k);
      }
      ReadIsNotInUse(c, now, a.pid);
    }
  }

  /** The finalizer's object is still stored, under the UID it read, with our finalizer on. */
  predicate ReadHolds(s: World, pid: Pid) {
    pid in s.procs && s.procs[pid].Finalize? && Kept(s, s.procs[pid].key, s.procs[pid].read.uid)
  }

  /** `pid` keeps running through all of `acts`. */
  predicate StaysIn(c: Config, s: World, acts: seq<Action>, pid: Pid)
    requires Runs(c, s, acts)
    decreases acts
  {
    pid in s.procs && (acts == [] || StaysIn(c, After(c, s, acts[0]), acts[1..], pid))
  }

  lemma StillFinalizes(c: Config, s: World, a: Action, pid: Pid)
    requires Enabled(c, s, a) && pid in s.procs && s.procs[pid].Finalize? && pid in After(c, s, a).procs
    ensures var p, q := s.procs[pid], After(c, s, a).procs[pid]; q.Finalize? && q.key == p.key && q.read == p.read
    ensures !(Releases(s, a, s.procs[pid].key) && a.pid == pid)
  {
  }

  lemma ReadHoldsStep(c: Config, s: World, a: Action, pid: Pid)
    requires Enabled(c, s, a) && (a.Step? ==> ProcOk(s, s.procs[a.pid])) && OneWorker(s) && ReadHolds(s, pid)
    requires pid in After(c, s, a).procs
    ensures ReadHolds(After(c, s, a), pid)
  {
    var p := s.procs[pid];
    StillFinalizes(c, s, a, pid);
    KeptStays(c, s, a, p.key, p.read.uid);
  }

  /**
   A finalizer that starts while the object it read still carries our finalizer
   under that UID takes, until it ends, nothing from an object in use but parent
   tuples that join the two.
   */
  lemma {:induction false} FreshClearCutsOnlyParents(c: Config, s: World, acts: seq<Action>, pid: Pid, a: Action, t: Tuple, k: Object)
    requires ChildrenDeclared(c) && Inv(c, s) && Runs(c, s, acts) && StaysIn(c, s, acts, pid) && ReadHolds(s, pid)
    requires a.DeleteBatch? && a.pid == pid && Enabled(c, Exec(c, s, acts), a)
    requires CutsAccess(Exec(c, s, acts), a, t, k)
    ensures LinksParent(t, k, Exec(c, s, acts).procs[pid].key)
    decreases acts
  {
    if acts == [] {
      ClearCutsAccessAt(c, s, a, t, k);
    } else {
      InvStep(c, s, acts[0]);
      ReadHoldsStep(c, s, acts[0], pid);
      FreshClearCutsOnlyParents(c, After(c, s, acts[0]), acts[1..], pid, a, t, k);
    }
  }

  // ---- Lock progress

  lemma {:induction false} RunKeepsLocks(c: Config, s: World, acts: seq<Action>)
    requires LocksOk(c, s) && Runs(c, s, acts)
    ensures LocksOk(c, Exec(c, s, acts))
    decreases acts
  {
    if acts != [] {
      LocksStep(c, s, acts[0]);
      RunKeepsLocks(c, After(c, s, acts[0]), acts[1..]);
    }
  }

  /** In every reachable state, no reconcile waits for a lock while it holds one, and none holds two, whatever the hash. */
  lemma NoReconcileHoldsTwoLocks(c: Config, s: World, acts: seq<Action>, l: nat, m: nat)
    requires s.procs == map[] && s.locks == map[] && Runs(c, s, acts)
    requires var s' := Exec(c, s, acts); l in s'.locks && m in s'.locks && s'.locks[l] == s'.locks[m]
    ensures l == m
    ensures var s' := Exec(c, s, acts); s'.locks[l] in s'.procs && !Waiting(s'.procs[s'.locks[l]])
  {
    RunKeepsLocks(c, s, acts);
  }

  /** How many of its own steps a lock's holder takes, at most, until it gives the lock up. */
  function StepsToUnlock(p: Proc): nat
    requires Locked(p)
  {
    match p
    case Binding(_, _, _, _, step) => (match step case Guard => 5 case AddToTarget(_) => 4 case Write(tries) => 1 + tries)
    case Sync(_, _, _, _, step) => (match step case ReadOwner(_, _) => 3 case AddToOwner(_, _, _) => 2 case _ => 1)
    case Finalize(_, _, _, step) => (match step case Check(queries) => 2 + |queries| case _ => 1)
  }

  lemma HolderStep(s: World, p: Proc)
    requires Locked(p)
    ensures var next := StepOf(s, p, true).next;
      next.Continue? ==> Locked(next.p) && LockObject(next.p) == LockObject(p) && StepsToUnlock(next.p) < StepsToUnlock(p)
    ensures !Waiting(p) && !(p.Finalize? && p.final.DeleteFound?)
  {
  }

  function OwnSteps(pid: Pid, n: nat): seq<Action>
    decreases n
  {
    if n == 0 then [] else [Step(pid, true)] + OwnSteps(pid, n - 1)
  }

  /** `pid` waits for a lock that another reconcile holds. */
  predicate WaitsFor(c: Config, s: World, pid: Pid) {
    pid in s.procs && Waiting(s.procs[pid]) && c.hash(LockObject(s.procs[pid])) in s.locks
  }

  /** `pid` waits for a lock that nobody holds. */
  predicate CanTake(c: Config, s: World, pid: Pid) {
    pid in s.procs && Waiting(s.procs[pid]) && c.hash(LockObject(s.procs[pid])) !in s.locks
  }

  function HolderOf(c: Config, s: World, pid: Pid): Pid
    requires WaitsFor(c, s, pid)
  {
    s.locks[c.hash(LockObject(s.procs[pid]))]
  }

  ghost predicate HolderRuns(c: Config, s: World, pid: Pid) {
    WaitsFor(c, s, pid) && HolderOf(c, s, pid) in s.procs && Locked(s.procs[HolderOf(c, s, pid)])
  }

  lemma HolderMoves(c: Config, s: World, pid: Pid)
    requires LocksOk(c, s) && WaitsFor(c, s, pid)
    ensures HolderRuns(c, s, pid) && StepsToUnlock(s.procs[HolderOf(c, s, pid)]) >= 1
    ensures var a := Step(HolderOf(c, s, pid), true); Enabled(c, s, a) && LocksOk(c, After(c, s, a))
  {
    var holder := HolderOf(c, s, pid);
    HolderStep(s, s.procs[holder]);
    LocksStep(c, s, Step(holder, true));
  }

  /** The holder's next step brings it nearer to the unlock, or unlocks. */
  lemma HolderAdvances(c: Config, s: World, pid: Pid)
    requires LocksOk(c, s) && HolderRuns(c, s, pid) && Enabled(c, s, Step(HolderOf(c, s, pid), true))
    ensures var after := After(c, s, Step(HolderOf(c, s, pid), true));
      || CanTake(c, after, pid)
      || (HolderRuns(c, after, pid) && HolderOf(c, after, pid) == HolderOf(c, s, pid)
          && StepsToUnlock(after.procs[HolderOf(c, s, pid)]) < StepsToUnlock(s.procs[HolderOf(c, s, pid)]))
  {
    HolderStep(s, s.procs[HolderOf(c, s, pid)]);
  }

  /** After `n` steps of the holder's own, `pid` can take its lock. */
  predicate Unlocks(c: Config, s: World, holder: Pid, n: nat, pid: Pid) {
    Runs(c, s, OwnSteps(holder, n)) && CanTake(c, Exec(c, s, OwnSteps(holder, n)), pid)
  }

  lemma UnlocksNow(c: Config, s: World, holder: Pid, pid: Pid)
    requires CanTake(c, s, pid)
    ensures Unlocks(c, s, holder, 0, pid)
  {
  }

  lemma UnlocksLater(c: Config, s: World, holder: Pid, n: nat, pid: Pid)
    requires Enabled(c, s, Step(holder, true)) && Unlocks(c, After(c, s, Step(holder, true)), holder, n, pid)
    ensures Unlocks(c, s, holder, n + 1, pid)
  {
    assert OwnSteps(holder, n + 1)[1..] == OwnSteps(holder, n);
  }

  lemma HolderTurn(c: Config, s: World, pid: Pid) returns (holder: Pid, s': World)
    requires LocksOk(c, s) && HolderRuns(c, s, pid)
    ensures holder == HolderOf(c, s, pid) && Enabled(c, s, Step(holder, true)) && s' == After(c, s, Step(holder, true))
    ensures LocksOk(c, s') && StepsToUnlock(s.procs[holder]) >= 1
    ensures CanTake(c, s', pid)
      || (HolderRuns(c, s', pid) && HolderOf(c, s', pid) == holder && StepsToUnlock(s'.procs[holder]) < StepsToUnlock(s.procs[holder]))
  {
    HolderMoves(c, s, pid);
    HolderAdvances(c, s, pid);
    holder, s' := HolderOf(c, s, pid), After(c, s, Step(HolderOf(c, s, pid), true));
  }

  lemma {:induction false} HolderUnlocks(c: Config, s: World, pid: Pid, most: nat) returns (n: nat)
    requires LocksOk(c, s) && HolderRuns(c, s, pid) && StepsToUnlock(s.procs[HolderOf(c, s, pid)]) <= most
    ensures n <= most && Unlocks(c, s, HolderOf(c, s, pid), n, pid)
    decreases most
  {
    var holder, s' := HolderTurn(c, s, pid);
    var m: nat := 0;
    if CanTake(c, s', pid) {
      UnlocksNow(c, s', holder, pid);
    } else {
      m := HolderUnlocks(c, s', pid, most - 1);
    }
    UnlocksLater(c, s, holder, m, pid);
    n := m + 1;
  }

  /**
   No deadlock: in every reachable state, a waiting reconcile can take its lock
   once the lock's holder has made at most `StepsToUnlock` steps of its own,
   and nothing can stop the holder from making them.
   */
  lemma WaiterGetsItsLock(c: Config, s: World, pid: Pid) returns (n: nat)
    requires LocksOk(c, s) && WaitsFor(c, s, pid)
    ensures HolderRuns(c, s, pid)
    ensures n <= StepsToUnlock(s.procs[HolderOf(c, s, pid)]) && Runs(c, s, OwnSteps(HolderOf(c, s, pid), n))
    ensures Enabled(c, Exec(c, s, OwnSteps(HolderOf(c, s, pid), n)), Acquire(pid))
  {
    HolderMoves(c, s, pid);
    n := HolderUnlocks(c, s, pid, StepsToUnlock(s.procs[HolderOf(c, s, pid)]));
  }
}
