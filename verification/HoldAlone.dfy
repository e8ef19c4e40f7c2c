/**
 A reconcile that runs with no other beside it. The steps of the protocol, one
 after the other, then come to what the controllers' methods are proved to do: a
 binding writes its tuples exactly if its target is live, a live object gets our
 finalizer, and a Project gets the parent tuples of `ParentSync`.
 */
module HoldAlone {
  import opened Names
  import opened Hold
  import opened HoldProtocol
  import opened HoldSafety
  import ParentSync

  /** What the API server stores. */
  function Stored(s: World): map<Object, Resource> {
    map o | o in s.hist && Cur(s, o).Here? :: Cur(s, o).res
  }

  lemma StoredMeans(s: World, o: Object)
    ensures o in Stored(s) <==> Cur(s, o).Here?
    ensures o in Stored(s) ==> Stored(s)[o] == Cur(s, o).res
  {
  }

  /** `pid` is the only reconcile, it is `p`, and it holds the lock of `lock`, if any. */
  predicate Alone(c: Config, s: World, pid: Pid, p: Proc) {
    s.procs == map[pid := p] && s.locks == if Locked(p) then map[c.hash(LockObject(p)) := pid] else map[]
  }

  /** A run of `pid`'s own actions, from `s` to `w`. */
  ghost predicate Does(c: Config, s: World, acts: seq<Action>, w: World, pid: Pid) {
    && Runs(c, s, acts) && w == Exec(c, s, acts)
    && forall a :: a in acts ==> a == Acquire(pid) || a == Step(pid, true) || (a.StartReconcile? && a.pid == pid)
  }

  lemma DoesOne(c: Config, s: World, a: Action, pid: Pid)
    requires Enabled(c, s, a) && (a == Acquire(pid) || a == Step(pid, true) || (a.StartReconcile? && a.pid == pid))
    ensures Does(c, s, [a], After(c, s, a), pid)
  {
    assert [a][1..] == [];
  }

  lemma DoesThen(c: Config, s: World, xs: seq<Action>, v: World, ys: seq<Action>, w: World, pid: Pid)
    requires Does(c, s, xs, v, pid) && Does(c, v, ys, w, pid)
    ensures Does(c, s, xs + ys, w, pid)
  {
    RunsCompose(c, s, xs, ys);
  }

  /** A step that goes on. */
  lemma Steps(c: Config, s: World, pid: Pid, p: Proc)
    requires Alone(c, s, pid, p) && !Waiting(p) && !p.Finalize?
    ensures var e, w := StepOf(s, p, true), After(c, s, Step(pid, true));
      && Does(c, s, [Step(pid, true)], w, pid)
      && w.hist == HistAfter(s, e.growth) && w.tuples == TuplesAfter(s.tuples, e.change)
      && (e.next.End? ==> w.procs == map[] && w.locks == map[])
      && (!e.next.End? ==> Alone(c, w, pid, e.next.p))
  {
    StepKeepsLock(s, p, true);
    DoesOne(c, s, Step(pid, true), pid);
    var e, w := StepOf(s, p, true), After(c, s, Step(pid, true));
    if e.next.End? {
      assert w.procs == map[];
    } else {
      assert w.procs == map[pid := e.next.p];
    }
  }

  lemma Locks(c: Config, s: World, pid: Pid, p: Proc)
    requires Alone(c, s, pid, p) && Waiting(p)
    ensures var w := After(c, s, Acquire(pid));
      && Does(c, s, [Acquire(pid)], w, pid) && w.hist == s.hist && w.tuples == s.tuples && Alone(c, w, pid, Granted(c, p))
  {
    DoesOne(c, s, Acquire(pid), pid);
    assert After(c, s, Acquire(pid)).procs == map[pid := Granted(c, p)];
  }

  // ---- A binding

  /** What is stored, once the target of a write that adds tuples has been held. */
  function TargetHeld(objects: map<Object, Resource>, target: Object): map<Object, Resource> {
    if target in objects && Ours !in objects[target].finalizers then objects[target := WithOurs(objects[target])] else objects
  }

  lemma HoldingStored(s: World, w: World, k: Object)
    requires Cur(s, k).Here? && w.hist == HistAfter(s, Grew(k, Here(WithOurs(Cur(s, k).res))))
    ensures Stored(w) == Stored(s)[k := WithOurs(Cur(s, k).res)]
  {
    forall o
      ensures Cur(w, o) == if o == k then Here(WithOurs(Cur(s, k).res)) else Cur(s, o)
    {
    }
  }

  /**
   A binding that would add tuples writes exactly if its target is stored under the
   binding's UID and not being deleted, and then with our finalizer on it; one that
   only removes tuples always writes, and holds nothing.
   */
  lemma BindingWrites(c: Config, s: World, pid: Pid, p: Proc) returns (acts: seq<Action>, w: World)
    requires Alone(c, s, pid, p) && p.Binding? && p.bind.BindWait?
    ensures Does(c, s, acts, w, pid) && w.procs == map[] && w.locks == map[]
    ensures var live := p.target in Stored(s) && Stored(s)[p.target].uid == p.uid && !Stored(s)[p.target].deleting;
      && w.tuples == (if p.added == {} || live then s.tuples - p.removed + p.added else s.tuples)
      && Stored(w) == (if p.added != {} && live then TargetHeld(Stored(s), p.target) else Stored(s))
  {
    Locks(c, s, pid, p);
    var v := After(c, s, Acquire(pid));
    var rest;
    rest, w := GuardWrites(c, v, pid, Granted(c, p));
    DoesThen(c, s, [Acquire(pid)], v, rest, w, pid);
    acts := [Acquire(pid)] + rest;
    SameStored(s, v);
  }

  lemma SameStored(s: World, w: World)
    requires w.hist == s.hist
    ensures Stored(w) == Stored(s) && forall o :: Hist(w, o) == Hist(s, o)
  {
  }

  lemma GuardWrites(c: Config, s: World, pid: Pid, p: Proc) returns (acts: seq<Action>, w: World)
    requires Alone(c, s, pid, p) && p.Binding? && p.bind.Guard?
    ensures Does(c, s, acts, w, pid) && w.procs == map[] && w.locks == map[]
    ensures var live := LiveUnder(Cur(s, p.target), p.uid);
      && w.tuples == (if p.added == {} || live then s.tuples - p.removed + p.added else s.tuples)
      && Stored(w) == (if p.added != {} && live then TargetHeld(Stored(s), p.target) else Stored(s))
  {
    StoredMeans(s, p.target);
    Steps(c, s, pid, p);
    var v := After(c, s, Step(pid, true));
    SameStored(s, v);
    if p.added != {} {
      GuardAdmits(s, p, true);
    }
    if p.added != {} && !LiveUnder(Cur(s, p.target), p.uid) {
      acts, w := [Step(pid, true)], v;
    } else if p.added == {} || Ours in Cur(s, p.target).res.finalizers {
      var rest;
      rest, w := LastWrite(c, v, pid, p.(bind := Write(2)));
      DoesThen(c, s, [Step(pid, true)], v, rest, w, pid);
      acts := [Step(pid, true)] + rest;
    } else {
      var q := p.(bind := AddToTarget(Last(s, p.target)));
      Steps(c, v, pid, q);
      var u := After(c, v, Step(pid, true));
      DoesThen(c, s, [Step(pid, true)], v, [Step(pid, true)], u, pid);
      HoldingStored(v, u, p.target);
      var rest;
      rest, w := LastWrite(c, u, pid, p.(bind := Write(2)));
      DoesThen(c, s, [Step(pid, true)] + [Step(pid, true)], u, rest, w, pid);
      acts := [Step(pid, true)] + [Step(pid, true)] + rest;
    }
  }

  lemma LastWrite(c: Config, s: World, pid: Pid, p: Proc) returns (acts: seq<Action>, w: World)
    requires Alone(c, s, pid, p) && p.Binding? && p.bind.Write?
    ensures Does(c, s, acts, w, pid) && w.procs == map[] && w.locks == map[]
    ensures w.tuples == s.tuples - p.removed + p.added && Stored(w) == Stored(s)
  {
    Steps(c, s, pid, p);
    acts, w := [Step(pid, true)], After(c, s, Step(pid, true));
    SameStored(s, w);
  }

  /** A write that is refused is tried once more, under the lock; refused twice, it changes nothing. */
  lemma WriteIsRetried(c: Config, s: World, pid: Pid, p: Proc)
    requires Alone(c, s, pid, p) && p.Binding? && p.bind == Write(2)
    ensures Enabled(c, s, Step(pid, false)) && Enabled(c, After(c, s, Step(pid, false)), Step(pid, true))
    ensures Enabled(c, After(c, s, Step(pid, false)), Step(pid, false))
    ensures var refused := After(c, s, Step(pid, false));
      && refused.tuples == s.tuples && refused.hist == s.hist && refused.locks == s.locks
      && After(c, refused, Step(pid, true)).tuples == s.tuples - p.removed + p.added
      && After(c, refused, Step(pid, false)).tuples == s.tuples && After(c, refused, Step(pid, false)).procs == map[]
  {
    assert After(c, s, Step(pid, false)).procs == map[pid := p.(bind := Write(1))];
    assert After(c, After(c, s, Step(pid, false)), Step(pid, false)).procs == map[];
  }

  // ---- A Project or an Organization

  /** Nothing runs, and the cache shows the stored version of `k`. */
  predicate Idle(s: World, k: Object) {
    s.procs == map[] && s.locks == map[] && HeldObject(k) && Seen(s, k) == Last(s, k)
  }

  lemma Opens(c: Config, s: World, k: Object, pid: Pid)
    requires Idle(s, k) && Opened(c, s, k).Open?
    ensures var w := After(c, s, StartReconcile(pid, k));
      && Does(c, s, [StartReconcile(pid, k)], w, pid) && w.hist == s.hist && w.tuples == s.tuples
      && Alone(c, w, pid, Opened(c, s, k).proc)
  {
    DoesOne(c, s, StartReconcile(pid, k), pid);
    assert !Locked(Opened(c, s, k).proc);
    assert After(c, s, StartReconcile(pid, k)).procs == map[pid := Opened(c, s, k).proc];
  }

  /** A live Project or Organization that lacks our finalizer gets it, and nothing else happens. */
  lemma LiveIsHeld(c: Config, s: World, k: Object, pid: Pid) returns (acts: seq<Action>, w: World)
    requires Idle(s, k) && Cur(s, k).Here? && !Cur(s, k).res.deleting && Ours !in Cur(s, k).res.finalizers
    ensures Does(c, s, acts, w, pid) && w.procs == map[] && w.locks == map[] && w.tuples == s.tuples
    ensures Stored(w) == Stored(s)[k := WithOurs(Cur(s, k).res)]
  {
    Opens(c, s, k, pid);
    var v := After(c, s, StartReconcile(pid, k));
    SameStored(s, v);
    Steps(c, v, pid, Opened(c, s, k).proc);
    w := After(c, v, Step(pid, true));
    DoesThen(c, s, [StartReconcile(pid, k)], v, [Step(pid, true)], w, pid);
    HoldingStored(v, w, k);
    acts := [StartReconcile(pid, k)] + [Step(pid, true)];
  }

  // ---- The parent tuples of a Project

  /** `pid` is a Project's reconcile, alone, between two owners; it has read nothing but the Project's own parent tuples. */
  ghost predicate ToDo(c: Config, s: World, pid: Pid, p: Proc) {
    && Alone(c, s, pid, p) && p.Sync? && p.sync.NextOwner?
    && forall t :: t in p.sync.existing ==> ParentSync.IsParentTuple(t, p.key)
  }

  /** One owner, from the wait for its lock to the end of its tuple write. */
  lemma OwnerSyncs(c: Config, s: World, pid: Pid, p: Proc) returns (acts: seq<Action>, w: World)
    requires ToDo(c, s, pid, p) && p.todo != []
    ensures Does(c, s, acts, w, pid) && ToDo(c, w, pid, p.(todo := p.todo[1..]))
    ensures Stored(w) == ParentSync.Holding(Stored(s), p.todo[0])
    ensures w.tuples == ParentSync.Synced(s.tuples, p.sync.existing, ParentSync.FinalHold(Stored(s), p.todo[0]),
                                          ParentTuple(p.todo[0], p.key))
  {
    var ref, existing := p.todo[0], p.sync.existing;
    var rest := p.(todo := p.todo[1..]);
    Steps(c, s, pid, p);
    var v := After(c, s, Step(pid, true));
    Locks(c, v, pid, rest.(sync := OwnerWait(existing, ref)));
    var u := After(c, v, Acquire(pid));
    DoesThen(c, s, [Step(pid, true)], v, [Acquire(pid)], u, pid);
    SameStored(s, u);
    var more;
    more, w := OwnerApplies(c, u, pid, rest.(sync := ReadOwner(existing, ref)));
    DoesThen(c, s, [Step(pid, true)] + [Acquire(pid)], u, more, w, pid);
    acts := [Step(pid, true)] + [Acquire(pid)] + more;
  }

  /** The live read of the owner, the Update it may call for, and the tuple write. */
  lemma OwnerApplies(c: Config, s: World, pid: Pid, p: Proc) returns (acts: seq<Action>, w: World)
    requires Alone(c, s, pid, p) && p.Sync? && p.sync.ReadOwner?
    requires forall t :: t in p.sync.existing ==> ParentSync.IsParentTuple(t, p.key)
    ensures Does(c, s, acts, w, pid) && ToDo(c, w, pid, p.(sync := NextOwner(p.sync.existing)))
    ensures Stored(w) == ParentSync.Holding(Stored(s), p.sync.ref)
    ensures w.tuples == ParentSync.Synced(s.tuples, p.sync.existing, ParentSync.FinalHold(Stored(s), p.sync.ref),
                                          ParentTuple(p.sync.ref, p.key))
  {
    var ref, existing, owner := p.sync.ref, p.sync.existing, ParentObject(p.sync.ref);
    StoredMeans(s, owner);
    OwnerAdmits(s, p, true);
    Steps(c, s, pid, p);
    var v := After(c, s, Step(pid, true));
    SameStored(s, v);
    if DyingUnder(Cur(s, owner), ref.uid) {
      acts, w := [Step(pid, true)], v;
    } else if LiveUnder(Cur(s, owner), ref.uid) && Ours !in Cur(s, owner).res.finalizers {
      Steps(c, v, pid, p.(sync := AddToOwner(existing, ref, Last(s, owner))));
      var u := After(c, v, Step(pid, true));
      HoldingStored(v, u, owner);
      DoesThen(c, s, [Step(pid, true)], v, [Step(pid, true)], u, pid);
      Applies(c, u, pid, p.(sync := Apply(existing, ref, Held)));
      w := After(c, u, Step(pid, true));
      DoesThen(c, s, [Step(pid, true)] + [Step(pid, true)], u, [Step(pid, true)], w, pid);
      acts := [Step(pid, true)] + [Step(pid, true)] + [Step(pid, true)];
    } else {
      var h := ParentSync.FinalHold(Stored(s), ref);
      Applies(c, v, pid, p.(sync := Apply(existing, ref, h)));
      w := After(c, v, Step(pid, true));
      DoesThen(c, s, [Step(pid, true)], v, [Step(pid, true)], w, pid);
      acts := [Step(pid, true)] + [Step(pid, true)];
    }
  }

  lemma Applies(c: Config, s: World, pid: Pid, p: Proc)
    requires Alone(c, s, pid, p) && p.Sync? && p.sync.Apply? && p.sync.h != Deleting && p.sync.h != NotYet
    requires forall t :: t in p.sync.existing ==> ParentSync.IsParentTuple(t, p.key)
    ensures var w := After(c, s, Step(pid, true));
      && Does(c, s, [Step(pid, true)], w, pid) && ToDo(c, w, pid, p.(sync := NextOwner(p.sync.existing)))
      && Stored(w) == Stored(s)
      && w.tuples == ParentSync.Synced(s.tuples, p.sync.existing, p.sync.h, ParentTuple(p.sync.ref, p.key))
  {
    var own := ParentTuple(p.sync.ref, p.key);
    assert OfUser(p.sync.existing, ParentObject(p.sync.ref)) == if own in p.sync.existing then {own} else {};
    Steps(c, s, pid, p);
    SameStored(s, After(c, s, Step(pid, true)));
  }

  /** The owners from the `n`th on, one after the other. */
  lemma {:induction false} OwnersSync(c: Config, s: World, pid: Pid, p: Proc, owners: seq<OwnerRef>, n: nat,
                                      objects: map<Object, Resource>, tuples: set<Tuple>)
    returns (acts: seq<Action>, w: World)
    requires ToDo(c, s, pid, p) && n <= |owners| && p.todo == owners[n..]
    requires Stored(s) == ParentSync.HoldingAll(objects, owners[..n])
    requires s.tuples == ParentSync.SyncedAll(objects, tuples, p.sync.existing, owners[..n], p.key)
    ensures Does(c, s, acts, w, pid) && w.procs == map[] && w.locks == map[]
    ensures Stored(w) == ParentSync.HoldingAll(objects, owners)
    ensures w.tuples == ParentSync.SyncedAll(objects, tuples, p.sync.existing, owners, p.key)
    decreases |owners| - n
  {
    if n == |owners| {
      assert owners[..n] == owners;
      Steps(c, s, pid, p);
      acts, w := [Step(pid, true)], After(c, s, Step(pid, true));
      SameStored(s, w);
    } else {
      var first, v := OwnerSyncs(c, s, pid, p);
      assert owners[..n + 1] == owners[..n] + [owners[n]];
      ParentSync.OwnersGrow(objects, tuples, p.sync.existing, owners[..n], owners[n], p.key);
      var rest;
      rest, w := OwnersSync(c, v, pid, p.(todo := p.todo[1..]), owners, n + 1, objects, tuples);
      DoesThen(c, s, first, v, rest, w, pid);
      acts := first + rest;
    }
  }

  lemma WantedOwns(refs: seq<OwnerRef>, u: User)
    ensures Wanted(SyncedOwners(refs), u) <==> ParentSync.Owns(refs, u)
  {
    if Wanted(SyncedOwners(refs), u) {
      var ref :| ref in SyncedOwners(refs) && u == Entity(ParentObject(ref));
      ParentSync.SyncedNames(refs, refs, ref);
    }
    if ParentSync.Owns(refs, u) {
      var ref :| ref in refs && u == Entity(ParentSync.OwnerName(ref))
        && ref.group == ResourceManagerGroup && ref.kind == OrganizationKind && ref.version == "v1alpha1";
      ParentSync.SyncedNames(refs, refs, ref);
      assert u == Entity(ParentObject(ref));
    }
  }

  /** The read and the first write: the tuples of users that are no owners go. */
  lemma Prunes(c: Config, s: World, pid: Pid, p: Proc, refs: seq<OwnerRef>) returns (acts: seq<Action>, w: World, q: Proc)
    requires Alone(c, s, pid, p) && p.Sync? && p.sync.ReadParents? && p.todo == SyncedOwners(refs)
    ensures Does(c, s, acts, w, pid) && ToDo(c, w, pid, q) && q.todo == p.todo && q.key == p.key && Stored(w) == Stored(s)
    ensures ParentSync.Pruned(s.tuples, q.sync.existing, w.tuples, refs, p.key)
  {
    var existing := ParentsOf(s.tuples, p.key);
    Steps(c, s, pid, p);
    var v := After(c, s, Step(pid, true));
    Steps(c, v, pid, p.(sync := DropStale(existing)));
    w, q := After(c, v, Step(pid, true)), p.(sync := NextOwner(existing));
    DoesThen(c, s, [Step(pid, true)], v, [Step(pid, true)], w, pid);
    acts := [Step(pid, true)] + [Step(pid, true)];
    SameStored(s, w);
    forall t: Tuple
      ensures Wanted(SyncedOwners(refs), t.user) <==> ParentSync.Owns(refs, t.user)
    {
      WantedOwns(refs, t.user);
    }
  }

  /**
   The reconcile of a live Project, step by step in the protocol, leaves what the
   method of `ParentSync` leaves when every call answers: each parent tuple as it
   ends, and our finalizer on every live owner.
   */
  lemma ProjectSyncs(c: Config, s: World, k: Object, pid: Pid) returns (acts: seq<Action>, w: World)
    requires Idle(s, k) && k.typ == ProjectType
    requires Cur(s, k).Here? && !Cur(s, k).res.deleting && Ours in Cur(s, k).res.finalizers
    ensures Does(c, s, acts, w, pid) && w.procs == map[] && w.locks == map[]
    ensures var refs := Cur(s, k).res.owners;
      && ParentSync.Settled(Stored(s), s.tuples, w.tuples, refs, k)
      && ParentSync.OnlyHeldMore(Stored(s), Stored(w), refs) && ParentSync.OwnersHeld(Stored(s), Stored(w), refs)
  {
    var refs := Cur(s, k).res.owners;
    Opens(c, s, k, pid);
    var v := After(c, s, StartReconcile(pid, k));
    SameStored(s, v);
    var prune, u, q := Prunes(c, v, pid, Opened(c, s, k).proc, refs);
    DoesThen(c, s, [StartReconcile(pid, k)], v, prune, u, pid);
    var rest;
    rest, w := OwnersSync(c, u, pid, q, SyncedOwners(refs), 0, Stored(s), u.tuples);
    DoesThen(c, s, [StartReconcile(pid, k)] + prune, u, rest, w, pid);
    acts := [StartReconcile(pid, k)] + prune + rest;
    assert refs[..|refs|] == refs;
    ParentSync.AllSynced(Stored(s), s.tuples, q.sync.existing, u.tuples, refs, |refs|, k);
    ParentSync.SyncedAreHeld(Stored(s), u.tuples, q.sync.existing, refs, |refs|, |refs|, k);
  }
}
