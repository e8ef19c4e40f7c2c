/**
 The protocol that keeps tuples from outliving the Project or Organization they
 name, as a transition system. Its actors are any number of concurrent
 PolicyBinding, Project and Organization reconciles, Milo's drain, and users
 who create, edit and delete objects. Every API read, every API update, every
 tuple read and every tuple write is a step of its own.
 */
module HoldProtocol {
  import opened Names
  import opened Hold

  type Pid = nat

  /** What the API server stores under a name: nothing, or an object. */
  datatype Version = Gone | Here(res: Resource)

  /**
   `hash` picks the pool's lock for an object. `children` lists the resource
   types whose ProtectedResource declares a type as a parent.
   */
  datatype Config = Config(hash: Object -> nat, children: string -> seq<string>)

  /** Projects declare Organizations as parents, the only parent tuples written. */
  predicate ChildrenDeclared(c: Config) {
    ProjectType in c.children(OrganizationType)
  }

  /** The reads that find the tuples naming an object. */
  datatype Query = OnObject | AsUserOf(child: string)

  predicate Finds(q: Query, k: Object, t: Tuple) {
    match q
    case OnObject => t.obj == k
    case AsUserOf(child) => t.user == Entity(k) && t.obj.typ == child
  }

  function Found(tuples: set<Tuple>, q: Query, k: Object): set<Tuple> {
    set t | t in tuples && Finds(q, k, t)
  }

  function Queries(c: Config, k: Object): seq<Query> {
    [OnObject] + seq(|c.children(k.typ)|, i requires 0 <= i < |c.children(k.typ)| => AsUserOf(c.children(k.typ)[i]))
  }

  datatype BindStep = BindWait | Guard | AddToTarget(at: nat) | Write(tries: nat)

  datatype SyncStep =
    | ReadParents
    | DropStale(existing: set<Tuple>)
    | NextOwner(existing: set<Tuple>)
    | OwnerWait(existing: set<Tuple>, ref: OwnerRef)
    | ReadOwner(existing: set<Tuple>, ref: OwnerRef)
    | AddToOwner(existing: set<Tuple>, ref: OwnerRef, at: nat)
    | Apply(existing: set<Tuple>, ref: OwnerRef, h: HoldState)

  datatype FinalStep =
    | Collect(queries: seq<Query>, found: set<Tuple>)
    | DeleteFound(left: set<Tuple>)
    | FinalWait
    | Check(queries: seq<Query>)
    | Release

  /**
   A reconcile in flight. `rv` is the version the reconcile read from the cache,
   and `read` the object it found there.
   */
  datatype Proc =
    | Binding(target: Object, uid: nat, added: set<Tuple>, removed: set<Tuple>, bind: BindStep)
    | Ensure(key: Object, rv: nat, read: Resource)
    | Sync(key: Object, rv: nat, read: Resource, todo: seq<OwnerRef>, sync: SyncStep)
    | Finalize(key: Object, rv: nat, read: Resource, final: FinalStep)

  /** The UIDs a tuple's writer checked: its object's, and its user's if that is an object. */
  datatype Checked = Checked(obj: nat, user: nat)

  /**
   `hist` holds every version each name has had, the newest last; a position in
   it is a resourceVersion. `seen` is how far the cache has followed. `checked`
   is a history variable: no step reads it.
   */
  datatype World = World(
    hist: map<Object, seq<Version>>,
    seen: map<Object, nat>,
    tuples: set<Tuple>,
    checked: map<Tuple, Checked>,
    locks: map<nat, Pid>,
    procs: map<Pid, Proc>,
    nextUid: nat)

  function Hist(s: World, k: Object): (h: seq<Version>)
    ensures |h| > 0
  {
    if k in s.hist && s.hist[k] != [] then s.hist[k] else [Gone]
  }

  function Last(s: World, k: Object): nat {
    |Hist(s, k)| - 1
  }

  function Cur(s: World, k: Object): Version {
    Hist(s, k)[Last(s, k)]
  }

  function Seen(s: World, k: Object): nat {
    if k in s.seen then s.seen[k] else 0
  }

  predicate HeldObject(k: Object) {
    IsHeldType(k.typ)
  }

  predicate NamesKey(t: Tuple, k: Object) {
    t.obj == k || t.user == Entity(k)
  }

  predicate NamesHeld(t: Tuple) {
    HeldObject(t.obj) || (t.user.Entity? && HeldObject(t.user.obj))
  }

  // ---- Locks

  predicate Waiting(p: Proc) {
    match p
    case Binding(_, _, _, _, step) => step.BindWait?
    case Ensure(_, _, _) => false
    case Sync(_, _, _, _, step) => step.OwnerWait?
    case Finalize(_, _, _, step) => step.FinalWait?
  }

  predicate Locked(p: Proc) {
    match p
    case Binding(_, _, _, _, step) => !step.BindWait?
    case Ensure(_, _, _) => false
    case Sync(_, _, _, _, step) => step.ReadOwner? || step.AddToOwner? || step.Apply?
    case Finalize(_, _, _, step) => step.Check? || step.Release?
  }

  /** The object whose lock a reconcile waits for or holds. */
  function LockObject(p: Proc): Object
    requires Waiting(p) || Locked(p)
  {
    match p
    case Binding(target, _, _, _, _) => target
    case Sync(_, _, _, _, step) => ParentObject(step.ref)
    case Finalize(key, _, _, _) => key
  }

  /** The key a Project or Organization reconcile is for. */
  predicate WorksOn(p: Proc, k: Object) {
    !p.Binding? && p.key == k
  }

  function Granted(c: Config, p: Proc): Proc
    requires Waiting(p)
  {
    match p
    case Binding(_, _, _, _, _) => p.(bind := Guard)
    case Sync(_, _, _, _, step) => p.(sync := ReadOwner(step.existing, step.ref))
    case Finalize(key, _, _, _) => p.(final := Check(Queries(c, key)))
  }

  // ---- Updates of the world

  /** What an object's stored version becomes when its finalizers become `fs`. */
  function WithFinalizers(r: Resource, fs: set<Finalizer>): Version {
    if r.deleting && fs == {} then Gone else Here(r.(finalizers := fs))
  }

  /** The API server's part of a step: a new version under one name, or nothing. */
  datatype Growth = Same | Grew(key: Object, v: Version)

  /** The OpenFGA part of a step: one atomic Write. */
  datatype Change = NoChange | Change(removed: set<Tuple>, added: set<Tuple>, ch: Checked)

  datatype Outcome = End | Continue(p: Proc) | Unlocked(p: Proc)

  /** What one step of a reconcile does, and how the reconcile goes on. Ending gives up its lock. */
  datatype Effect = Effect(growth: Growth, change: Change, next: Outcome)

  function HistAfter(s: World, g: Growth): map<Object, seq<Version>> {
    match g
    case Same => s.hist
    case Grew(k, v) => s.hist[k := Hist(s, k) + [v]]
  }

  function TuplesAfter(tuples: set<Tuple>, ch: Change): set<Tuple> {
    match ch
    case NoChange => tuples
    case Change(removed, added, _) => tuples - removed + added
  }

  function CheckedAfter(checked: map<Tuple, Checked>, ch: Change): map<Tuple, Checked> {
    match ch
    case NoChange => checked
    case Change(_, added, uids) => checked + map t | t in added :: uids
  }

  function LocksAfter(locks: map<nat, Pid>, pid: Pid, next: Outcome): map<nat, Pid> {
    if next.Continue? then locks else map l | l in locks && locks[l] != pid :: locks[l]
  }

  function ProcsAfter(procs: map<Pid, Proc>, pid: Pid, next: Outcome): map<Pid, Proc> {
    match next
    case End => procs - {pid}
    case Continue(p) => procs[pid := p]
    case Unlocked(p) => procs[pid := p]
  }

  function Perform(s: World, pid: Pid, e: Effect): World {
    World(HistAfter(s, e.growth), s.seen, TuplesAfter(s.tuples, e.change), CheckedAfter(s.checked, e.change),
          LocksAfter(s.locks, pid, e.next), ProcsAfter(s.procs, pid, e.next), s.nextUid)
  }

  function GoOn(p: Proc): Effect {
    Effect(Same, NoChange, Continue(p))
  }

  const GiveUp := Effect(Same, NoChange, End)

  // ---- Steps of the reconciles

  datatype Opening = Nothing | Open(proc: Proc)

  /** The reconcile of `k` that the cache's version of it calls for, if any. */
  function Opened(c: Config, s: World, k: Object): Opening
    requires Seen(s, k) <= Last(s, k)
  {
    var rv := Seen(s, k);
    match Hist(s, k)[rv]
    case Gone => Nothing
    case Here(r) =>
      if r.deleting then
        if Drained(r) then Open(Finalize(k, rv, r, Collect(Queries(c, k), {}))) else Nothing
      else if Ours !in r.finalizers then Open(Ensure(k, rv, r))
      else if k.typ == ProjectType then Open(Sync(k, rv, r, SyncedOwners(r.owners), ReadParents))
      else Nothing
  }

  /** An Update that adds our finalizer to what was read at `at`: a conflict if the object has changed since. */
  function HoldGrowth(s: World, k: Object, at: nat): Growth {
    if at == Last(s, k) && Cur(s, k).Here? then Grew(k, Here(WithOurs(Cur(s, k).res))) else Same
  }

  /** targetGuard, its holdTarget, and the guarded Write, all under the target's lock. */
  function BindingStep(s: World, p: Proc, ok: bool): Effect
    requires p.Binding? && Locked(p)
  {
    match p.bind
    case Guard =>
      if p.added == {} then GoOn(p.(bind := Write(2)))
      else (
        match Cur(s, p.target)
        case Gone => GiveUp
        case Here(r) =>
          match HoldOf(r, p.uid)
          case Held => GoOn(p.(bind := Write(2)))
          case NotYet => GoOn(p.(bind := AddToTarget(Last(s, p.target))))
          case _ => GiveUp
      )
    case AddToTarget(at) =>
      var g := HoldGrowth(s, p.target, at);
      if g.Grew? then Effect(g, NoChange, Continue(p.(bind := Write(2)))) else GiveUp
    case Write(tries) =>
      if ok then Effect(Same, Change(p.removed, p.added, Checked(p.uid, 0)), End)
      else if tries > 1 then GoOn(p.(bind := Write(tries - 1)))
      else GiveUp
  }

  function EnsureStep(s: World, p: Proc): Effect
    requires p.Ensure?
  {
    Effect(if p.rv == Last(s, p.key) then Grew(p.key, Here(WithOurs(p.read))) else Same, NoChange, End)
  }

  function OfUser(tuples: set<Tuple>, o: Object): set<Tuple> {
    set t | t in tuples && t.user == Entity(o)
  }

  function ParentsOf(tuples: set<Tuple>, child: Object): set<Tuple> {
    set t | t in tuples && t.obj == child && t.relation == ParentRelation
  }

  predicate Wanted(refs: seq<OwnerRef>, u: User) {
    exists ref :: ref in refs && u == Entity(ParentObject(ref))
  }

  function Stale(existing: set<Tuple>, refs: seq<OwnerRef>): set<Tuple> {
    set t | t in existing && !Wanted(refs, t.user)
  }

  /** What syncParent writes for an owner whose hold it has read. */
  function ParentChange(existing: set<Tuple>, ref: OwnerRef, h: HoldState, child: Object, uid: nat): Change {
    var had := OfUser(existing, ParentObject(ref));
    if h != Held then Change(had, {}, Checked(0, 0))
    else if had != {} then NoChange
    else Change({}, {ParentTuple(ref, child)}, Checked(uid, ref.uid))
  }

  /** syncParent's ownerHold: the owner read live. */
  function OwnerStep(s: World, p: Proc, existing: set<Tuple>, ref: OwnerRef): Effect
    requires p.Sync?
  {
    match Cur(s, ParentObject(ref))
    case Gone => GoOn(p.(sync := Apply(existing, ref, Missing)))
    case Here(r) =>
      match HoldOf(r, ref.uid)
      case NotYet => GoOn(p.(sync := AddToOwner(existing, ref, Last(s, ParentObject(ref)))))
      case Deleting => Effect(Same, NoChange, Unlocked(p.(sync := NextOwner(existing))))
      case h => GoOn(p.(sync := Apply(existing, ref, h)))
  }

  /** synchronizeFGAHierarchy, and syncParent for one owner at a time. */
  function SyncStepOf(s: World, p: Proc, ok: bool): Effect
    requires p.Sync? && !Waiting(p)
  {
    match p.sync
    case ReadParents => GoOn(p.(sync := DropStale(ParentsOf(s.tuples, p.key))))
    case DropStale(existing) =>
      if ok then Effect(Same, Change(Stale(existing, p.todo), {}, Checked(0, 0)), Continue(p.(sync := NextOwner(existing))))
      else GiveUp
    case NextOwner(existing) =>
      if p.todo == [] then GiveUp
      else GoOn(p.(todo := p.todo[1..], sync := OwnerWait(existing, p.todo[0])))
    case ReadOwner(existing, ref) => OwnerStep(s, p, existing, ref)
    case AddToOwner(existing, ref, at) =>
      var g := HoldGrowth(s, ParentObject(ref), at);
      if g.Grew? then Effect(g, NoChange, Continue(p.(sync := Apply(existing, ref, Held)))) else GiveUp
    case Apply(existing, ref, h) =>
      if ok then
        Effect(Same, ParentChange(existing, ref, h, p.key, p.read.uid), Unlocked(p.(sync := NextOwner(existing))))
      else GiveUp
  }

  /** finalizeWhenClear: the clear without the lock, then the locked read and the release. */
  function FinalizeStep(s: World, p: Proc): Effect
    requires p.Finalize? && !Waiting(p)
  {
    match p.final
    case Collect(queries, found) =>
      if queries == [] then GoOn(p.(final := DeleteFound(found)))
      else GoOn(p.(final := Collect(queries[1..], found + Found(s.tuples, queries[0], p.key))))
    case DeleteFound(left) => GoOn(p.(final := FinalWait))
    case Check(queries) =>
      if Ours !in p.read.finalizers then GiveUp
      else if queries == [] then GoOn(p.(final := Release))
      else if Found(s.tuples, queries[0], p.key) != {} then GiveUp
      else GoOn(p.(final := Check(queries[1..])))
    case Release =>
      Effect(if p.rv == Last(s, p.key) then Grew(p.key, WithFinalizers(p.read, p.read.finalizers - {Ours})) else Same,
             NoChange, End)
  }

  function StepOf(s: World, p: Proc, ok: bool): Effect
    requires !Waiting(p)
  {
    match p
    case Binding(_, _, _, _, _) => BindingStep(s, p, ok)
    case Ensure(_, _, _) => EnsureStep(s, p)
    case Sync(_, _, _, _, _) => SyncStepOf(s, p, ok)
    case Finalize(_, _, _, _) => FinalizeStep(s, p)
  }

  // ---- The transition system

  datatype Action =
    | Create(key: Object, finalizers: set<Finalizer>, owners: seq<OwnerRef>)
    | Edit(key: Object, finalizers: set<Finalizer>, owners: seq<OwnerRef>)
    | Delete(key: Object)
    | Observe(key: Object)
    | OtherWrite(added: set<Tuple>, removed: set<Tuple>)
    | StartBinding(pid: Pid, target: Object, uid: nat, added: set<Tuple>, removed: set<Tuple>)
    | StartReconcile(pid: Pid, key: Object)
    | Acquire(pid: Pid)
    | Step(pid: Pid, ok: bool)
    | DeleteBatch(pid: Pid, gone: set<Tuple>, acked: set<Tuple>)
    | Abort(pid: Pid)

  predicate Enabled(c: Config, s: World, a: Action) {
    match a
    case Create(k, _, _) => HeldObject(k) && Cur(s, k) == Gone
    // Nobody but the finalizer strips ours; an object being deleted takes no new finalizer.
    case Edit(k, fs, _) =>
      && HeldObject(k) && Cur(s, k).Here?
      && (Ours in Cur(s, k).res.finalizers ==> Ours in fs)
      && (Cur(s, k).res.deleting ==> fs <= Cur(s, k).res.finalizers)
    case Delete(k) => HeldObject(k) && Cur(s, k).Here? && !Cur(s, k).res.deleting
    case Observe(k) => Seen(s, k) < Last(s, k)
    // Other writers, and a binding's revocations, which take no lock.
    case OtherWrite(added, _) => forall t :: t in added ==> !NamesHeld(t)
    case StartBinding(pid, target, _, added, removed) =>
      && pid !in s.procs && HeldObject(target)
      && (forall t :: t in added ==> t.obj == target && !(t.user.Entity? && HeldObject(t.user.obj)))
      && (forall t :: t in removed ==> t.obj == target)
    // One worker per key.
    case StartReconcile(pid, k) =>
      && pid !in s.procs && HeldObject(k) && Seen(s, k) <= Last(s, k)
      && (forall other :: other in s.procs ==> !WorksOn(s.procs[other], k))
      && Opened(c, s, k).Open?
    case Acquire(pid) =>
      && pid in s.procs && Waiting(s.procs[pid])
      && c.hash(LockObject(s.procs[pid])) !in s.locks
    case Step(pid, _) =>
      && pid in s.procs && !Waiting(s.procs[pid])
      && (s.procs[pid].Finalize? && s.procs[pid].final.DeleteFound? ==> s.procs[pid].final.left == {})
    // One Write of the clear. A timed-out Write may have deleted any part of its batch.
    case DeleteBatch(pid, gone, acked) =>
      && pid in s.procs && s.procs[pid].Finalize? && s.procs[pid].final.DeleteFound?
      && acked <= gone <= s.procs[pid].final.left
    case Abort(pid) => pid in s.procs
  }

  /** The API server's part of an action. */
  function GrowthOf(s: World, a: Action): Growth
    requires a.Edit? || a.Delete? ==> Cur(s, a.key).Here?
  {
    match a
    case Create(k, fs, owners) => Grew(k, Here(Resource(s.nextUid, false, fs, owners)))
    case Edit(k, fs, owners) => Grew(k, WithFinalizers(Cur(s, k).res.(owners := owners), fs))
    case Delete(k) => Grew(k, WithFinalizers(Cur(s, k).res.(deleting := true), Cur(s, k).res.finalizers))
    case _ => Same
  }

  /** The effect of an action of a reconcile that runs. */
  function EffectOf(c: Config, s: World, a: Action): Effect
    requires Enabled(c, s, a) && (a.Acquire? || a.Step? || a.DeleteBatch? || a.Abort?)
  {
    var p := s.procs[a.pid];
    match a
    case Acquire(_) => GoOn(Granted(c, p))
    case Step(_, ok) => StepOf(s, p, ok)
    case DeleteBatch(_, gone, acked) =>
      Effect(Same, Change(gone, {}, Checked(0, 0)), Continue(p.(final := DeleteFound(p.final.left - acked))))
    case Abort(_) => GiveUp
  }

  function After(c: Config, s: World, a: Action): World
    requires Enabled(c, s, a)
  {
    match a
    case Create(_, _, _) => s.(hist := HistAfter(s, GrowthOf(s, a)), nextUid := s.nextUid + 1)
    case Edit(_, _, _) => s.(hist := HistAfter(s, GrowthOf(s, a)))
    case Delete(_) => s.(hist := HistAfter(s, GrowthOf(s, a)))
    case Observe(k) => s.(seen := s.seen[k := Seen(s, k) + 1])
    case OtherWrite(added, removed) =>
      var ch := Change(removed, added, Checked(0, 0));
      s.(tuples := TuplesAfter(s.tuples, ch), checked := CheckedAfter(s.checked, ch))
    case StartBinding(pid, target, uid, added, removed) =>
      s.(procs := s.procs[pid := Binding(target, uid, added, removed, BindWait)])
    case StartReconcile(pid, k) => s.(procs := s.procs[pid := Opened(c, s, k).proc])
    case Acquire(pid) =>
      Perform(s, pid, EffectOf(c, s, a)).(locks := s.locks[c.hash(LockObject(s.procs[pid])) := pid])
    case _ => Perform(s, a.pid, EffectOf(c, s, a))
  }

  /** Every action of `as` is enabled in turn, from `s`. */
  predicate Runs(c: Config, s: World, acts: seq<Action>)
    decreases acts
  {
    acts == [] || (Enabled(c, s, acts[0]) && Runs(c, After(c, s, acts[0]), acts[1..]))
  }

  function Exec(c: Config, s: World, acts: seq<Action>): World
    requires Runs(c, s, acts)
    decreases acts
  {
    if acts == [] then s else Exec(c, After(c, s, acts[0]), acts[1..])
  }

  lemma {:induction false} RunsCompose(c: Config, s: World, xs: seq<Action>, ys: seq<Action>)
    requires Runs(c, s, xs) && Runs(c, Exec(c, s, xs), ys)
    ensures Runs(c, s, xs + ys) && Exec(c, s, xs + ys) == Exec(c, Exec(c, s, xs), ys)
    decreases xs
  {
    if xs == [] {
      assert xs + ys == ys;
    } else {
      RunsCompose(c, After(c, s, xs[0]), xs[1..], ys);
      assert (xs + ys)[1..] == xs[1..] + ys;
    }
  }

  /** One more action, at the end of a run. */
  lemma RunsThen(c: Config, s: World, acts: seq<Action>, a: Action)
    requires Runs(c, s, acts) && Enabled(c, Exec(c, s, acts), a)
    ensures Runs(c, s, acts + [a]) && Exec(c, s, acts + [a]) == After(c, Exec(c, s, acts), a)
  {
    assert [a][1..] == [];
    RunsCompose(c, s, acts, [a]);
  }
}
