/**
 A finalizer can always finish. From every reachable state in which an object is
 being deleted, drained, and held by our finalizer, the cache can catch up and
 one finalizer can take its steps until our finalizer is off the object; at most
 two reconciles that stand in its way have to give up first.
 */
module HoldProgress {
  import opened Names
  import opened Hold
  import opened HoldProtocol
  import opened HoldSafety

  /** The object is being deleted, Milo has drained it, and our finalizer holds it. */
  predicate Due(s: World, k: Object) {
    && Cur(s, k).Here? && Cur(s, k).res.deleting && Ours in Cur(s, k).res.finalizers
    && MiloProject !in Cur(s, k).res.finalizers && MiloOrganization !in Cur(s, k).res.finalizers
  }

  /** Our finalizer, and no other, has left `r`; the object is gone if it was the last. */
  predicate Released(s: World, k: Object, r: Resource) {
    Cur(s, k) == if r.finalizers == {Ours} then Gone else Here(r.(finalizers := r.finalizers - {Ours}))
  }

  /** No object has changed, and no tuple but of those that name `k`. */
  ghost predicate Clearing(s: World, w: World, k: Object) {
    && w.hist == s.hist && w.tuples <= s.tuples
    && forall t :: t in s.tuples && !NamesKey(t, k) ==> t in w.tuples
  }

  /** Catching up the cache, a step of the finalizer of `k`, or a reconcile in its way giving up. */
  predicate Finishing(a: Action, k: Object, pid: Pid) {
    match a
    case Observe(o) => o == k
    case StartReconcile(p, o) => p == pid && o == k
    case Acquire(p) => p == pid
    case Step(p, _) => p == pid
    case DeleteBatch(p, _, _) => p == pid
    case Abort(p) => p != pid
    case _ => false
  }

  /** A run of finishing actions from `s` to `w`, in which at most `n` reconciles give up. */
  ghost predicate Finishes(c: Config, s: World, acts: seq<Action>, w: World, k: Object, pid: Pid, n: nat) {
    && Runs(c, s, acts) && w == Exec(c, s, acts)
    && (forall a :: a in acts ==> Finishing(a, k, pid))
    && GiveUps(acts) <= n
  }

  function GiveUps(acts: seq<Action>): nat {
    if acts == [] then 0 else (if acts[0].Abort? then 1 else 0) + GiveUps(acts[1..])
  }

  lemma {:induction false} GiveUpsOfConcat(xs: seq<Action>, ys: seq<Action>)
    ensures GiveUps(xs + ys) == GiveUps(xs) + GiveUps(ys)
  {
    if xs == [] {
      assert xs + ys == ys;
    } else {
      assert (xs + ys)[1..] == xs[1..] + ys;
      GiveUpsOfConcat(xs[1..], ys);
    }
  }

  lemma FinishesOn(c: Config, s: World, xs: seq<Action>, v: World, ys: seq<Action>, w: World, k: Object, pid: Pid, m: nat, n: nat)
    requires Finishes(c, s, xs, v, k, pid, m) && Finishes(c, v, ys, w, k, pid, n)
    ensures Finishes(c, s, xs + ys, w, k, pid, m + n)
  {
    RunsCompose(c, s, xs, ys);
    GiveUpsOfConcat(xs, ys);
  }

  lemma FinishesOne(c: Config, s: World, a: Action, k: Object, pid: Pid)
    requires Enabled(c, s, a) && Finishing(a, k, pid)
    ensures Finishes(c, s, [a], After(c, s, a), k, pid, if a.Abort? then 1 else 0)
  {
    assert [a][1..] == [];
    assert GiveUps([]) == 0;
  }

  /** No object but `k` has changed. */
  ghost predicate OthersStay(s: World, w: World, k: Object) {
    forall o :: o != k ==> Cur(w, o) == Cur(s, o)
  }

  // ---- Nothing in the way

  /** No reconcile is at work on `k`, and nobody holds its lock. */
  ghost predicate Free(c: Config, s: World, k: Object) {
    (forall p :: p in s.procs ==> !WorksOn(s.procs[p], k)) && c.hash(k) !in s.locks
  }

  ghost predicate Waits(c: Config, s: World, k: Object, pid: Pid) {
    Inv(c, s) && HeldObject(k) && Due(s, k) && pid !in s.procs
  }

  lemma GivesUp(c: Config, s: World, k: Object, pid: Pid, other: Pid)
    requires ChildrenDeclared(c) && Waits(c, s, k, pid) && other in s.procs
    ensures var w := After(c, s, Abort(other));
      && Waits(c, w, k, pid) && w.procs == s.procs - {other}
      && (forall l :: l in w.locks <==> l in s.locks && s.locks[l] != other) && Clearing(s, w, k)
    ensures Finishes(c, s, [Abort(other)], After(c, s, Abort(other)), k, pid, 1)
  {
    InvStep(c, s, Abort(other));
    FinishesOne(c, s, Abort(other), k, pid);
  }

  lemma WorkerGivesUp(c: Config, s: World, k: Object, pid: Pid) returns (acts: seq<Action>, w: World)
    requires ChildrenDeclared(c) && Waits(c, s, k, pid)
    ensures Finishes(c, s, acts, w, k, pid, 1) && Waits(c, w, k, pid) && Clearing(s, w, k)
    ensures forall p :: p in w.procs ==> !WorksOn(w.procs[p], k)
  {
    acts, w := [], s;
    if other :| other in s.procs && WorksOn(s.procs[other], k) {
      GivesUp(c, s, k, pid, other);
      acts, w := [Abort(other)], After(c, s, Abort(other));
    }
  }

  lemma WayIsCleared(c: Config, s: World, k: Object, pid: Pid) returns (acts: seq<Action>, w: World)
    requires ChildrenDeclared(c) && Waits(c, s, k, pid)
    ensures Finishes(c, s, acts, w, k, pid, 2) && Waits(c, w, k, pid) && Free(c, w, k) && Clearing(s, w, k)
  {
    acts, w := WorkerGivesUp(c, s, k, pid);
    if c.hash(k) in w.locks {
      var holder, v := w.locks[c.hash(k)], w;
      GivesUp(c, v, k, pid, holder);
      FinishesOn(c, s, acts, v, [Abort(holder)], After(c, v, Abort(holder)), k, pid, 1, 1);
      acts, w := acts + [Abort(holder)], After(c, v, Abort(holder));
    }
  }

  /** The cache catches up. */
  lemma {:induction false} CacheCatchesUp(c: Config, s: World, k: Object, pid: Pid) returns (acts: seq<Action>, w: World)
    requires ChildrenDeclared(c) && Waits(c, s, k, pid) && Free(c, s, k)
    ensures Finishes(c, s, acts, w, k, pid, 0) && Waits(c, w, k, pid) && Free(c, w, k) && Seen(w, k) == Last(w, k)
    ensures Clearing(s, w, k)
    decreases Last(s, k) - Seen(s, k)
  {
    if Seen(s, k) == Last(s, k) {
      acts, w := [], s;
    } else {
      var next := After(c, s, Observe(k));
      InvStep(c, s, Observe(k));
      FinishesOne(c, s, Observe(k), k, pid);
      var rest;
      rest, w := CacheCatchesUp(c, next, k, pid);
      FinishesOn(c, s, [Observe(k)], next, rest, w, k, pid, 0, 0);
      acts := [Observe(k)] + rest;
    }
  }

  // ---- The finalizer's own steps

  /** The finalizer of `k` is at `step`, on the newest version, and the lock of `k` is free or its own. */
  ghost predicate At(c: Config, s: World, k: Object, pid: Pid, step: FinalStep) {
    && HeldObject(k) && Due(s, k) && pid in s.procs && s.procs[pid] == Finalize(k, Last(s, k), Cur(s, k).res, step)
    && (step.Check? || step.Release? || c.hash(k) !in s.locks)
  }

  lemma Starts(c: Config, s: World, k: Object, pid: Pid)
    requires Waits(c, s, k, pid) && Free(c, s, k) && Seen(s, k) == Last(s, k)
    ensures var w := After(c, s, StartReconcile(pid, k));
      At(c, w, k, pid, Collect(Queries(c, k), {})) && w.tuples == s.tuples && w.hist == s.hist
    ensures Finishes(c, s, [StartReconcile(pid, k)], After(c, s, StartReconcile(pid, k)), k, pid, 0)
  {
    FinishesOne(c, s, StartReconcile(pid, k), k, pid);
  }

  /** One step that goes on, and changes neither object nor tuples. */
  lemma Advances(c: Config, s: World, k: Object, pid: Pid, step: FinalStep, next: FinalStep)
    requires At(c, s, k, pid, step) && !step.FinalWait? && !step.Release? && (step.DeleteFound? ==> step.left == {})
    requires FinalizeStep(s, s.procs[pid]) == GoOn(s.procs[pid].(final := next)) && (next.Release? ==> step.Check?)
    ensures At(c, After(c, s, Step(pid, true)), k, pid, next)
    ensures After(c, s, Step(pid, true)).tuples == s.tuples && After(c, s, Step(pid, true)).hist == s.hist
    ensures Finishes(c, s, [Step(pid, true)], After(c, s, Step(pid, true)), k, pid, 0)
  {
    FinishesOne(c, s, Step(pid, true), k, pid);
  }

  /** Every tuple that names `k` has been found, or is found by a read still to come. */
  ghost predicate FoundOrToFind(s: World, k: Object, queries: seq<Query>, found: set<Tuple>) {
    forall t :: t in s.tuples && NamesKey(t, k) ==> t in found || exists q :: q in queries && Finds(q, k, t)
  }

  lemma {:induction false} Collects(c: Config, s: World, k: Object, pid: Pid, queries: seq<Query>, found: set<Tuple>)
    returns (acts: seq<Action>, w: World, left: set<Tuple>)
    requires At(c, s, k, pid, Collect(queries, found)) && FoundOrToFind(s, k, queries, found)
    requires forall t :: t in found ==> NamesKey(t, k)
    ensures Finishes(c, s, acts, w, k, pid, 0) && At(c, w, k, pid, DeleteFound(left)) && w.tuples == s.tuples && w.hist == s.hist
    ensures forall t :: t in left ==> NamesKey(t, k)
    ensures forall t :: t in w.tuples && NamesKey(t, k) ==> t in left
    decreases |queries|
  {
    var next := After(c, s, Step(pid, true));
    if queries == [] {
      Advances(c, s, k, pid, Collect(queries, found), DeleteFound(found));
      acts, w, left := [Step(pid, true)], next, found;
    } else {
      var more := found + Found(s.tuples, queries[0], k);
      Advances(c, s, k, pid, Collect(queries, found), Collect(queries[1..], more));
      OneMoreQuery(s, k, queries, found);
      var rest;
      rest, w, left := Collects(c, next, k, pid, queries[1..], more);
      FinishesOn(c, s, [Step(pid, true)], next, rest, w, k, pid, 0, 0);
      acts := [Step(pid, true)] + rest;
    }
  }

  lemma OneMoreQuery(s: World, k: Object, queries: seq<Query>, found: set<Tuple>)
    requires queries != [] && FoundOrToFind(s, k, queries, found)
    ensures FoundOrToFind(s, k, queries[1..], found + Found(s.tuples, queries[0], k))
  {
    assert forall q :: q in queries <==> q == queries[0] || q in queries[1..];
  }

  /** One write deletes all that was found. */
  lemma Deletes(c: Config, s: World, k: Object, pid: Pid, left: set<Tuple>)
    requires At(c, s, k, pid, DeleteFound(left)) && forall t :: t in s.tuples && NamesKey(t, k) ==> t in left
    requires forall t :: t in left ==> NamesKey(t, k)
    ensures var a := DeleteBatch(pid, left, left);
      Finishes(c, s, [a], After(c, s, a), k, pid, 0) && At(c, After(c, s, a), k, pid, DeleteFound({}))
      && NothingNames(After(c, s, a), k) && Clearing(s, After(c, s, a), k)
  {
    assert left - left == {};
    FinishesOne(c, s, DeleteBatch(pid, left, left), k, pid);
  }

  lemma TakesLock(c: Config, s: World, k: Object, pid: Pid)
    requires At(c, s, k, pid, FinalWait)
    ensures var w := After(c, s, Acquire(pid));
      At(c, w, k, pid, Check(Queries(c, k))) && w.tuples == s.tuples && w.hist == s.hist
    ensures Finishes(c, s, [Acquire(pid)], After(c, s, Acquire(pid)), k, pid, 0)
  {
    FinishesOne(c, s, Acquire(pid), k, pid);
  }

  /** With nothing left to find, every read under the lock passes. */
  lemma {:induction false} Checks(c: Config, s: World, k: Object, pid: Pid, queries: seq<Query>) returns (acts: seq<Action>, w: World)
    requires At(c, s, k, pid, Check(queries)) && NothingNames(s, k)
    ensures Finishes(c, s, acts, w, k, pid, 0) && At(c, w, k, pid, Release) && w.tuples == s.tuples && w.hist == s.hist
    decreases |queries|
  {
    var next := After(c, s, Step(pid, true));
    if queries == [] {
      Advances(c, s, k, pid, Check(queries), Release);
      acts, w := [Step(pid, true)], next;
    } else {
      assert Found(s.tuples, queries[0], k) == {};
      Advances(c, s, k, pid, Check(queries), Check(queries[1..]));
      var rest;
      rest, w := Checks(c, next, k, pid, queries[1..]);
      FinishesOn(c, s, [Step(pid, true)], next, rest, w, k, pid, 0, 0);
      acts := [Step(pid, true)] + rest;
    }
  }

  lemma Releasing(c: Config, s: World, k: Object, pid: Pid)
    requires At(c, s, k, pid, Release)
    ensures var w := After(c, s, Step(pid, true));
      && Finishes(c, s, [Step(pid, true)], w, k, pid, 0)
      && Released(w, k, Cur(s, k).res) && w.tuples == s.tuples && OthersStay(s, w, k)
  {
    FinishesOne(c, s, Step(pid, true), k, pid);
  }

  // ---- All of them

  /** From the clear's first read to its last delete. */
  lemma Clears(c: Config, s: World, k: Object, pid: Pid) returns (acts: seq<Action>, w: World)
    requires ChildrenDeclared(c) && Waits(c, s, k, pid) && Free(c, s, k) && Seen(s, k) == Last(s, k)
    ensures Finishes(c, s, acts, w, k, pid, 0) && At(c, w, k, pid, DeleteFound({})) && NothingNames(w, k) && Clearing(s, w, k)
  {
    var v := After(c, s, StartReconcile(pid, k));
    Starts(c, s, k, pid);
    QueriesFindAll(c, s, k);
    var collect, u, left := Collects(c, v, k, pid, Queries(c, k), {});
    FinishesOn(c, s, [StartReconcile(pid, k)], v, collect, u, k, pid, 0, 0);
    Deletes(c, u, k, pid, left);
    w := After(c, u, DeleteBatch(pid, left, left));
    FinishesOn(c, s, [StartReconcile(pid, k)] + collect, u, [DeleteBatch(pid, left, left)], w, k, pid, 0, 0);
    acts := [StartReconcile(pid, k)] + collect + [DeleteBatch(pid, left, left)];
  }

  /** The lock taken, with nothing left that names the object. */
  lemma LocksAndChecks(c: Config, s: World, k: Object, pid: Pid) returns (acts: seq<Action>, w: World)
    requires At(c, s, k, pid, DeleteFound({})) && NothingNames(s, k)
    ensures Finishes(c, s, acts, w, k, pid, 0) && At(c, w, k, pid, Release) && w.tuples == s.tuples && w.hist == s.hist
  {
    Advances(c, s, k, pid, DeleteFound({}), FinalWait);
    var waiting := After(c, s, Step(pid, true));
    TakesLock(c, waiting, k, pid);
    var locked := After(c, waiting, Acquire(pid));
    FinishesOn(c, s, [Step(pid, true)], waiting, [Acquire(pid)], locked, k, pid, 0, 0);
    var check;
    check, w := Checks(c, locked, k, pid, Queries(c, k));
    FinishesOn(c, s, [Step(pid, true)] + [Acquire(pid)], locked, check, w, k, pid, 0, 0);
    acts := [Step(pid, true)] + [Acquire(pid)] + check;
  }

  /** From the wait for the lock to the release. */
  lemma ChecksAndReleases(c: Config, s: World, k: Object, pid: Pid) returns (acts: seq<Action>, w: World)
    requires At(c, s, k, pid, DeleteFound({})) && NothingNames(s, k)
    ensures Finishes(c, s, acts, w, k, pid, 0)
    ensures Released(w, k, Cur(s, k).res) && w.tuples == s.tuples && OthersStay(s, w, k)
  {
    var check, checked := LocksAndChecks(c, s, k, pid);
    Releasing(c, checked, k, pid);
    w := After(c, checked, Step(pid, true));
    FinishesOn(c, s, check, checked, [Step(pid, true)], w, k, pid, 0, 0);
    acts := check + [Step(pid, true)];
    SameHist(s, checked);
  }

  lemma SameHist(s: World, w: World)
    requires w.hist == s.hist
    ensures forall o :: Cur(w, o) == Cur(s, o)
  {
  }

  /** Everything but the release. */
  lemma WaysAndClears(c: Config, s: World, k: Object, pid: Pid) returns (acts: seq<Action>, w: World)
    requires ChildrenDeclared(c) && Waits(c, s, k, pid)
    ensures Finishes(c, s, acts, w, k, pid, 2) && At(c, w, k, pid, DeleteFound({})) && NothingNames(w, k) && Clearing(s, w, k)
  {
    var clear, s1 := WayIsCleared(c, s, k, pid);
    var observe, s2 := CacheCatchesUp(c, s1, k, pid);
    FinishesOn(c, s, clear, s1, observe, s2, k, pid, 2, 0);
    var delete;
    delete, w := Clears(c, s2, k, pid);
    FinishesOn(c, s, clear + observe, s2, delete, w, k, pid, 2, 0);
    acts := clear + observe + delete;
  }

  lemma ReleasesDue(c: Config, s: World, k: Object, pid: Pid) returns (acts: seq<Action>, w: World)
    requires ChildrenDeclared(c) && Waits(c, s, k, pid)
    ensures Finishes(c, s, acts, w, k, pid, 2) && Released(w, k, Cur(s, k).res) && OthersStay(s, w, k)
    ensures forall t :: t in w.tuples <==> t in s.tuples && !NamesKey(t, k)
  {
    var clear, cleared := WaysAndClears(c, s, k, pid);
    SameHist(s, cleared);
    var release;
    release, w := ChecksAndReleases(c, cleared, k, pid);
    FinishesOn(c, s, clear, cleared, release, w, k, pid, 2, 0);
    acts := clear + release;
  }

  /**
   The hold always ends. Whatever is in flight in a reachable state, an object
   that is due is released by some run in which the cache catches up, a new
   finalizer takes its steps, at most two reconciles give up, and nobody else moves.
   Our finalizer alone is off the object, the tuples that name it are gone, and
   every other object and tuple is as it was.
   */
  lemma FinalizerCanFinish(c: Config, s: World, before: seq<Action>, k: Object, pid: Pid) returns (acts: seq<Action>, w: World)
    requires ChildrenDeclared(c) && Started(s) && Runs(c, s, before)
    requires HeldObject(k) && Due(Exec(c, s, before), k) && pid !in Exec(c, s, before).procs
    ensures Finishes(c, Exec(c, s, before), acts, w, k, pid, 2) && Released(w, k, Cur(Exec(c, s, before), k).res)
    ensures OthersStay(Exec(c, s, before), w, k)
    ensures forall t :: t in w.tuples <==> t in Exec(c, s, before).tuples && !NamesKey(t, k)
  {
    ReachedKeepsInv(c, s, before);
    acts, w := ReleasesDue(c, Exec(c, s, before), k, pid);
  }
}
