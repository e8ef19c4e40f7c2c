/**
 One Project reconcile, run alone: the parent tuples it leaves for the owners
 that the Project names.
 */
module ParentSync {
  import opened Names
  import opened Hold

  predicate IsParentTuple(t: Tuple, child: Object) {
    t.obj == child && t.relation == ParentRelation
  }

  function Parents(tuples: set<Tuple>, child: Object): set<Tuple> {
    set t | t in tuples && IsParentTuple(t, child)
  }

  // ---- What the reconcile is for, in terms of the references and of what is stored

  /** The object that a reference names, whatever its version and its UID. */
  function OwnerName(ref: OwnerRef): Object {
    Object(TypeName(ref.group, ref.kind), ref.name)
  }

  /** `u` is an Organization that owns the child: some reference to it is of the one version that parents a Project. */
  predicate Owns(refs: seq<OwnerRef>, u: User) {
    exists ref :: ref in refs && u == Entity(OwnerName(ref))
                  && ref.group == ResourceManagerGroup && ref.kind == OrganizationKind && ref.version == "v1alpha1"
  }

  /** The object that the reference was made for is stored, and nobody has deleted it. */
  predicate Live(objects: map<Object, Resource>, ref: OwnerRef) {
    OwnerName(ref) in objects && objects[OwnerName(ref)].uid == ref.uid && !objects[OwnerName(ref)].deleting
  }

  /** The object that the reference was made for is still stored, but being deleted. */
  predicate Dying(objects: map<Object, Resource>, ref: OwnerRef) {
    OwnerName(ref) in objects && objects[OwnerName(ref)].uid == ref.uid && objects[OwnerName(ref)].deleting
  }

  /** `t` is the tuple of a live owner, or one that was there for an owner being deleted. */
  predicate Kept(objects: map<Object, Resource>, tuples: set<Tuple>, refs: seq<OwnerRef>, t: Tuple) {
    && Owns(refs, t.user)
    && exists ref :: ref in refs && t.user == Entity(OwnerName(ref)) && (Live(objects, ref) || (Dying(objects, ref) && t in tuples))
  }

  /** A reference to the tuple's owner was made for an object that is gone or replaced. */
  predicate Disowned(objects: map<Object, Resource>, refs: seq<OwnerRef>, t: Tuple) {
    exists ref :: ref in refs && t.user == Entity(OwnerName(ref)) && !Live(objects, ref) && !Dying(objects, ref)
  }

  /** What is there in the end: what should be, but for what was there and is also disowned. */
  predicate Ends(objects: map<Object, Resource>, tuples: set<Tuple>, refs: seq<OwnerRef>, t: Tuple) {
    Kept(objects, tuples, refs, t) && !(t in tuples && Disowned(objects, refs, t))
  }

  /** The child's parent tuples are what they end as, and no other tuple has changed. */
  ghost predicate Settled(objects: map<Object, Resource>, before: set<Tuple>, after: set<Tuple>, refs: seq<OwnerRef>, child: Object) {
    forall t :: t in after <==> if IsParentTuple(t, child) then Ends(objects, before, refs, t) else t in before
  }

  /** Each parent tuple of the child is as it was or as it ends, and no other tuple has changed. */
  ghost predicate PartlySettled(objects: map<Object, Resource>, before: set<Tuple>, after: set<Tuple>, refs: seq<OwnerRef>, child: Object) {
    && (forall t :: t in after ==> t in before || (IsParentTuple(t, child) && Kept(objects, before, refs, t)))
    && (forall t :: t in before && (!IsParentTuple(t, child) || Ends(objects, before, refs, t)) ==> t in after)
  }

  /**
   No Organization whose tuple is there is named by two references, one made for
   the object that is stored and one for another that had the name.
   */
  predicate OneOwnerPerName(objects: map<Object, Resource>, tuples: set<Tuple>, refs: seq<OwnerRef>, child: Object) {
    forall a, b | a in refs && b in refs && OwnerName(a) == OwnerName(b) && Owns(refs, Entity(OwnerName(a)))
                  && Tuple(Entity(OwnerName(a)), ParentRelation, child) in tuples ::
      Live(objects, a) || Dying(objects, a) ==> Live(objects, b) || Dying(objects, b)
  }

  /** The parent tuples end as they should exactly then. */
  lemma EndsAsItShouldIff(objects: map<Object, Resource>, tuples: set<Tuple>, refs: seq<OwnerRef>, child: Object)
    ensures (forall t :: IsParentTuple(t, child) ==> (Ends(objects, tuples, refs, t) <==> Kept(objects, tuples, refs, t)))
      <==> OneOwnerPerName(objects, tuples, refs, child)
  {
    if !OneOwnerPerName(objects, tuples, refs, child) {
      var a, b :| a in refs && b in refs && OwnerName(a) == OwnerName(b) && Owns(refs, Entity(OwnerName(a)))
        && Tuple(Entity(OwnerName(a)), ParentRelation, child) in tuples
        && (Live(objects, a) || Dying(objects, a)) && !(Live(objects, b) || Dying(objects, b));
      var t := Tuple(Entity(OwnerName(a)), ParentRelation, child);
      assert Kept(objects, tuples, refs, t) && Disowned(objects, refs, t);
    }
  }

  /** An object has become another only by our finalizer, and only if it is a live owner. */
  predicate OnlyHeldMore(before: map<Object, Resource>, after: map<Object, Resource>, refs: seq<OwnerRef>) {
    && after.Keys == before.Keys
    && forall o :: o in before ==>
      || after[o] == before[o]
      || (after[o] == before[o].(finalizers := before[o].finalizers + {Ours})
          && exists ref :: ref in refs && Owns(refs, Entity(o)) && Live(before, ref) && o == OwnerName(ref))
  }

  /** Every live owner carries our finalizer. */
  predicate OwnersHeld(before: map<Object, Resource>, after: map<Object, Resource>, refs: seq<OwnerRef>) {
    forall ref :: ref in refs && Owns(refs, Entity(OwnerName(ref))) && Live(before, ref) ==>
      OwnerName(ref) in after && Ours in after[OwnerName(ref)].finalizers
  }

  /** A tuple that is new has a user that carries our finalizer. */
  predicate NewAreHeld(before: set<Tuple>, after: set<Tuple>, objects: map<Object, Resource>) {
    forall t :: t in after && t !in before ==>
      t.user.Entity? && t.user.obj in objects && Ours in objects[t.user.obj].finalizers
  }

  function AsSet(tuples: seq<Tuple>): set<Tuple> {
    set t | t in tuples
  }

  // ---- One owner

  /** Whether the calls for one owner answer: the live read, the Update that adds our finalizer, and the tuple write. */
  datatype OwnerReply = OwnerReply(read: bool, update: bool, write: bool)

  /** The hold is known: the owner could be read, and updated if it lacked our finalizer. */
  predicate HoldAnswers(objects: map<Object, Resource>, ref: OwnerRef, reply: OwnerReply) {
    var owner := ParentObject(ref);
    reply.read && (owner in objects && HoldOf(objects[owner], ref.uid) == NotYet ==> reply.update)
  }

  /** The hold on the owner, once our finalizer has been added where it was missing. */
  function FinalHold(objects: map<Object, Resource>, ref: OwnerRef): HoldState {
    var owner := ParentObject(ref);
    if owner !in objects then Missing
    else if HoldOf(objects[owner], ref.uid) == NotYet then Held
    else HoldOf(objects[owner], ref.uid)
  }

  /** The objects after our finalizer has been added to the owner, if it was missing. */
  function Holding(objects: map<Object, Resource>, ref: OwnerRef): map<Object, Resource> {
    var owner := ParentObject(ref);
    if owner in objects && HoldOf(objects[owner], ref.uid) == NotYet then objects[owner := WithOurs(objects[owner])]
    else objects
  }

  /** An owner is held in the end exactly if it is live, and its tuple is left alone exactly while it is being deleted. */
  lemma HoldMeans(objects: map<Object, Resource>, ref: OwnerRef)
    ensures ParentObject(ref) == OwnerName(ref)
    ensures FinalHold(objects, ref) == Held <==> Live(objects, ref)
    ensures FinalHold(objects, ref) == Deleting <==> Dying(objects, ref)
    ensures FinalHold(objects, ref) != NotYet
  {
  }

  /** What one owner's hold makes of its parent tuple, which was there or not when the tuples were read. */
  function Synced(tuples: set<Tuple>, existing: set<Tuple>, h: HoldState, t: Tuple): set<Tuple> {
    match h
    case Held => if t in existing then tuples else tuples + {t}
    case Deleting => tuples
    case _ => if t in existing then tuples - {t} else tuples
  }

  /** There is something to write for the owner. */
  predicate MustWrite(existing: set<Tuple>, h: HoldState, t: Tuple) {
    h != Deleting && (t in existing <==> h != Held)
  }

  /** The calls for one owner answer, as far as there is something to ask, to hold and to write. */
  predicate OwnerAnswers(objects: map<Object, Resource>, existing: set<Tuple>, ref: OwnerRef, child: Object, reply: OwnerReply) {
    HoldAnswers(objects, ref, reply) && (MustWrite(existing, FinalHold(objects, ref), ParentTuple(ref, child)) ==> reply.write)
  }

  // ---- All the owners

  function HoldingAll(objects: map<Object, Resource>, owners: seq<OwnerRef>): map<Object, Resource> {
    if owners == [] then objects
    else
      var n := |owners| - 1;
      Holding(HoldingAll(objects, owners[..n]), owners[n])
  }

  function SyncedAll(objects: map<Object, Resource>, tuples: set<Tuple>, existing: set<Tuple>, owners: seq<OwnerRef>,
                     child: Object): set<Tuple>
  {
    if owners == [] then tuples
    else
      var n := |owners| - 1;
      Synced(SyncedAll(objects, tuples, existing, owners[..n], child), existing, FinalHold(objects, owners[n]),
             ParentTuple(owners[n], child))
  }

  /** The hold on one owner does not depend on whether the others have been held. */
  lemma {:induction false} HoldUnchanged(objects: map<Object, Resource>, owners: seq<OwnerRef>, ref: OwnerRef)
    ensures FinalHold(HoldingAll(objects, owners), ref) == FinalHold(objects, ref)
  {
    if owners != [] {
      HoldUnchanged(objects, owners[..|owners| - 1], ref);
    }
  }

  predicate OwnedBy(owners: seq<OwnerRef>, child: Object, t: Tuple, ref: OwnerRef) {
    ref in owners && t == ParentTuple(ref, child)
  }

  /**
   Each owner decides its own parent tuple, and no other: one that was there stays
   unless some reference finds its object gone, one that was not comes if some
   reference finds its object live.
   */
  lemma {:induction false} SyncedMeans(objects: map<Object, Resource>, tuples: set<Tuple>, existing: set<Tuple>,
                                       owners: seq<OwnerRef>, child: Object, t: Tuple)
    ensures t in SyncedAll(objects, tuples, existing, owners, child) <==>
      if t in existing then t in tuples && forall ref :: OwnedBy(owners, child, t, ref) ==> Live(objects, ref) || Dying(objects, ref)
      else t in tuples || exists ref :: OwnedBy(owners, child, t, ref) && Live(objects, ref)
  {
    if owners != [] {
      var init, last := owners[..|owners| - 1], owners[|owners| - 1];
      SyncedMeans(objects, tuples, existing, init, child, t);
      HoldMeans(objects, last);
      assert forall ref :: OwnedBy(owners, child, t, ref) <==>
        OwnedBy(init, child, t, ref) || (ref == last && t == ParentTuple(last, child));
    }
  }

  /** The references that are synchronised are those whose name is an owner's. */
  lemma AdmittedNames(refs: seq<OwnerRef>, ref: OwnerRef)
    ensures NamesAdmitted(ref, refs) <==> Owns(refs, Entity(OwnerName(ref)))
  {
    if NamesAdmitted(ref, refs) {
      var r :| r in refs && AdmittedOwner(r) && ParentObject(r) == ParentObject(ref);
      assert OwnerName(r) == OwnerName(ref);
    }
    if Owns(refs, Entity(OwnerName(ref))) {
      var r :| r in refs && Entity(OwnerName(ref)) == Entity(OwnerName(r))
        && r.group == ResourceManagerGroup && r.kind == OrganizationKind && r.version == "v1alpha1";
      assert AdmittedOwner(r) && ParentObject(r) == ParentObject(ref);
    }
  }

  lemma SyncedNames(todo: seq<OwnerRef>, refs: seq<OwnerRef>, ref: OwnerRef)
    ensures ref in Select(todo, Synchronised(refs)) <==> ref in todo && Owns(refs, Entity(OwnerName(ref)))
  {
    InSelect(todo, Synchronised(refs), ref);
    AdmittedNames(refs, ref);
  }

  /** Those among the first `n` references that are synchronised. */
  function First(refs: seq<OwnerRef>, n: nat): seq<OwnerRef>
    requires n <= |refs|
  {
    Select(refs[..n], Synchronised(refs))
  }

  lemma OwnersGrow(objects: map<Object, Resource>, tuples: set<Tuple>, existing: set<Tuple>, owners: seq<OwnerRef>, ref: OwnerRef,
                   child: Object)
    ensures HoldingAll(objects, owners + [ref]) == Holding(HoldingAll(objects, owners), ref)
    ensures SyncedAll(objects, tuples, existing, owners + [ref], child) ==
      Synced(SyncedAll(objects, tuples, existing, owners, child), existing, FinalHold(HoldingAll(objects, owners), ref),
             ParentTuple(ref, child))
  {
    assert (owners + [ref])[..|owners|] == owners;
    HoldUnchanged(objects, owners, ref);
  }

  /** What the turn of the reference at `i` comes to. */
  lemma OwnerTurn(objects: map<Object, Resource>, tuples: set<Tuple>, existing: set<Tuple>, refs: seq<OwnerRef>, i: nat, child: Object)
    requires i < |refs|
    ensures ParentObject(refs[i]) == OwnerName(refs[i])
    ensures var ref := refs[i];
      var held, synced := HoldingAll(objects, First(refs, i)), SyncedAll(objects, tuples, existing, First(refs, i), child);
      if Owns(refs, Entity(ParentObject(ref))) then
        && HoldingAll(objects, First(refs, i + 1)) == Holding(held, ref)
        && SyncedAll(objects, tuples, existing, First(refs, i + 1), child)
           == Synced(synced, existing, FinalHold(held, ref), ParentTuple(ref, child))
      else
        && HoldingAll(objects, First(refs, i + 1)) == held
        && SyncedAll(objects, tuples, existing, First(refs, i + 1), child) == synced
  {
    SelectMore(refs, Synchronised(refs), i);
    AdmittedNames(refs, refs[i]);
    OwnersGrow(objects, tuples, existing, First(refs, i), refs[i], child);
    assert First(refs, i) + [] == First(refs, i);
  }

  /** The calls for the reference at `j` answer, if it is synchronised. */
  predicate AnswersAt(objects: map<Object, Resource>, existing: set<Tuple>, refs: seq<OwnerRef>, j: nat, child: Object,
                      reply: OwnerReply)
    requires j < |refs|
  {
    Owns(refs, Entity(OwnerName(refs[j]))) ==> OwnerAnswers(HoldingAll(objects, First(refs, j)), existing, refs[j], child, reply)
  }

  /** The calls for the first `n` references answer. */
  predicate OwnersAnswer(objects: map<Object, Resource>, existing: set<Tuple>, refs: seq<OwnerRef>, n: nat, child: Object,
                         replies: nat -> OwnerReply)
    requires n <= |refs|
  {
    forall j: nat :: j < n ==> AnswersAt(objects, existing, refs, j, child, replies(j))
  }

  lemma AnswersGrow(objects: map<Object, Resource>, existing: set<Tuple>, refs: seq<OwnerRef>, n: nat, child: Object,
                    replies: nat -> OwnerReply)
    requires n < |refs|
    ensures OwnersAnswer(objects, existing, refs, n + 1, child, replies) <==>
      OwnersAnswer(objects, existing, refs, n, child, replies) && AnswersAt(objects, existing, refs, n, child, replies(n))
  {
  }

  // ---- What they come to

  /** What the first read finds, and what is left once the tuples of users that own nothing are gone. */
  ghost predicate Pruned(tuples: set<Tuple>, existing: set<Tuple>, pruned: set<Tuple>, refs: seq<OwnerRef>, child: Object) {
    && (forall t :: t in existing <==> t in tuples && IsParentTuple(t, child))
    && (forall t :: t in pruned <==> t in tuples && !(IsParentTuple(t, child) && !Owns(refs, t.user)))
  }

  /** The first owners settled: each parent tuple is as it was or as it ends, and once all are, as it ends. */
  lemma PartlySynced(objects: map<Object, Resource>, tuples: set<Tuple>, existing: set<Tuple>, pruned: set<Tuple>, refs: seq<OwnerRef>,
                     n: nat, child: Object, t: Tuple)
    requires n <= |refs| && Pruned(tuples, existing, pruned, refs, child)
    ensures var left := SyncedAll(objects, pruned, existing, First(refs, n), child);
      && (t in left ==> t in tuples || (IsParentTuple(t, child) && Kept(objects, tuples, refs, t)))
      && (t in tuples && (!IsParentTuple(t, child) || Ends(objects, tuples, refs, t)) ==> t in left)
      && (n == |refs| ==> (t in left <==> if IsParentTuple(t, child) then Ends(objects, tuples, refs, t) else t in tuples))
  {
    var owners := First(refs, n);
    assert n == |refs| ==> refs[..n] == refs;
    SyncedMeans(objects, pruned, existing, owners, child, t);
    forall ref
      ensures ParentTuple(ref, child) == Tuple(Entity(OwnerName(ref)), ParentRelation, child)
      ensures ref in owners <==> ref in refs[..n] && Owns(refs, Entity(OwnerName(ref)))
    {
      SyncedNames(refs[..n], refs, ref);
    }
    assert forall ref :: ref in refs[..n] ==> ref in refs;
  }

  lemma AllSynced(objects: map<Object, Resource>, tuples: set<Tuple>, existing: set<Tuple>, pruned: set<Tuple>, refs: seq<OwnerRef>,
                  n: nat, child: Object)
    requires n <= |refs| && Pruned(tuples, existing, pruned, refs, child)
    ensures var left := SyncedAll(objects, pruned, existing, First(refs, n), child);
      PartlySettled(objects, tuples, left, refs, child) && (n == |refs| ==> Settled(objects, tuples, left, refs, child))
  {
    forall t {
      PartlySynced(objects, tuples, existing, pruned, refs, n, child, t);
    }
  }

  /** Adding our finalizer to the live owners changes nothing else. */
  lemma {:induction false} HoldingMeans(objects: map<Object, Resource>, owners: seq<OwnerRef>, refs: seq<OwnerRef>)
    requires forall ref :: ref in owners ==> ref in refs && Owns(refs, Entity(OwnerName(ref)))
    ensures OnlyHeldMore(objects, HoldingAll(objects, owners), refs)
    ensures forall ref :: ref in owners && Live(objects, ref) ==>
      OwnerName(ref) in HoldingAll(objects, owners) && Ours in HoldingAll(objects, owners)[OwnerName(ref)].finalizers
  {
    if owners != [] {
      var init, last := owners[..|owners| - 1], owners[|owners| - 1];
      HoldingMeans(objects, init, refs);
      assert last in owners;
      HoldMeans(objects, last);
    }
  }

  /** The tuples of the first `i` owners are new only for owners that hold it by then. */
  lemma SyncedAreHeld(objects: map<Object, Resource>, tuples: set<Tuple>, existing: set<Tuple>, refs: seq<OwnerRef>, i: nat, k: nat,
                      child: Object)
    requires i <= k <= |refs|
    ensures NewAreHeld(tuples, SyncedAll(objects, tuples, existing, First(refs, i), child),
                       HoldingAll(objects, First(refs, k)))
    ensures OnlyHeldMore(objects, HoldingAll(objects, First(refs, k)), refs)
    ensures k == |refs| ==> OwnersHeld(objects, HoldingAll(objects, First(refs, k)), refs)
  {
    var settled, held := First(refs, i), First(refs, k);
    HoldersAre(refs, k);
    HoldingMeans(objects, held, refs);
    forall t | t in SyncedAll(objects, tuples, existing, settled, child) && t !in tuples
      ensures t.user.Entity?
      ensures exists ref :: ref in held && Live(objects, ref) && t.user.obj == OwnerName(ref)
    {
      SyncedMeans(objects, tuples, existing, settled, child, t);
      var ref :| OwnedBy(settled, child, t, ref) && Live(objects, ref);
      SettledHolds(refs, i, k, ref);
    }
  }

  lemma HoldersAre(refs: seq<OwnerRef>, k: nat)
    requires k <= |refs|
    ensures forall ref :: ref in First(refs, k) ==> ref in refs && Owns(refs, Entity(OwnerName(ref)))
    ensures k == |refs| ==> forall ref :: ref in refs && Owns(refs, Entity(OwnerName(ref))) ==> ref in First(refs, k)
  {
    forall ref
      ensures ref in First(refs, k) <==> ref in refs[..k] && Owns(refs, Entity(OwnerName(ref)))
    {
      SyncedNames(refs[..k], refs, ref);
    }
  }

  lemma SettledHolds(refs: seq<OwnerRef>, i: nat, k: nat, ref: OwnerRef)
    requires i <= k <= |refs| && ref in First(refs, i)
    ensures ref in First(refs, k)
  {
    InSelect(refs[..i], Synchronised(refs), ref);
    InSelect(refs[..k], Synchronised(refs), ref);
    var j :| 0 <= j < i && refs[..i][j] == ref;
    assert refs[..k][j] == ref;
  }

  // ---- Two references to one name

  /** A reference that a Project kept to an Organization that had the name before. */
  const Earlier := OwnerRef(ResourceManagerGroup, "v1alpha1", OrganizationKind, "o", 1)

  const Present := OwnerRef(ResourceManagerGroup, "v1alpha1", OrganizationKind, "o", 2)

  const Recreated := map[OwnerName(Present) := Resource(2, false, {Ours}, [])]

  /**
   With both references the Organization's tuple should stay, as it is live; but a
   reconcile that finds it takes it away, and one that does not writes it again.
   */
  lemma TupleFlaps(child: Object)
    ensures var refs, t := [Earlier, Present], ParentTuple(Present, child);
      && Kept(Recreated, {t}, refs, t) && !Ends(Recreated, {t}, refs, t)
      && Kept(Recreated, {}, refs, t) && Ends(Recreated, {}, refs, t)
  {
    var refs := [Earlier, Present];
    assert refs[0] == Earlier && refs[1] == Present;
    assert Live(Recreated, Present) && !Live(Recreated, Earlier) && !Dying(Recreated, Earlier);
  }

  class Hierarchy {
    var objects: map<Object, Resource>
    var tuples: set<Tuple>

    method FetchParents(child: Object) returns (existing: seq<Tuple>)
      ensures forall t :: t in existing <==> t in tuples && IsParentTuple(t, child)
    {
      existing := [];
      var left := set t | t in tuples && IsParentTuple(t, child);
      while left != {}
        invariant forall t :: t in existing || t in left <==> t in tuples && IsParentTuple(t, child)
        decreases left
      {
        var t :| t in left;
        existing, left := existing + [t], left - {t};
      }
    }

    /** The parent tuple of each admitted owner, by its user. */
    method DetermineDesiredParentTuples(refs: seq<OwnerRef>, child: Object) returns (desired: map<User, Tuple>)
      ensures forall u :: u in desired <==> Owns(refs, u)
      ensures forall u :: u in desired ==> desired[u] == Tuple(u, ParentRelation, child)
    {
      desired := map[];
      for i := 0 to |refs|
        invariant forall u :: u in desired <==> Owns(refs[..i], u)
        invariant forall u :: u in desired ==> desired[u] == Tuple(u, ParentRelation, child)
      {
        assert forall ref :: ref in refs[..i + 1] <==> ref in refs[..i] || ref == refs[i];
        if AdmittedOwner(refs[i]) {
          desired := desired[Entity(ParentObject(refs[i])) := ParentTuple(refs[i], child)];
        }
      }
      assert refs[..|refs|] == refs;
    }

    /** What is desired of users that have no tuple, and the tuples of users that are not desired. */
    method ComputeTupleDifferences(desired: map<User, Tuple>, existing: seq<Tuple>) returns (writes: set<Tuple>, deletes: set<Tuple>)
      requires forall s, t :: s in existing && t in existing && s.user == t.user ==> s == t
      ensures forall t :: t in writes <==> exists u :: u in desired && desired[u] == t && forall x :: x in existing ==> x.user != u
      ensures forall t :: t in deletes <==> t in existing && t.user !in desired
    {
      var byUser: map<User, Tuple> := map[];
      for i := 0 to |existing|
        invariant forall u :: u in byUser <==> exists x :: x in existing[..i] && x.user == u
        invariant forall u :: u in byUser ==> byUser[u] in existing[..i] && byUser[u].user == u
      {
        assert forall x :: x in existing[..i + 1] <==> x in existing[..i] || x == existing[i];
        byUser := byUser[existing[i].user := existing[i]];
      }
      assert existing[..|existing|] == existing;
      writes := set u | u in desired && u !in byUser :: desired[u];
      deletes := set u | u in byUser && u !in desired :: byUser[u];
      forall t | t in existing && t.user !in desired
        ensures t in deletes
      {
        assert t.user in byUser && byUser[t.user] == t;
      }
    }

    /** The owner that a reference names, held with our finalizer when it lacks it. */
    method OwnerHold(ref: OwnerRef, reply: OwnerReply) returns (ok: bool, h: HoldState)
      modifies this`objects
      ensures ok <==> HoldAnswers(old(objects), ref, reply)
      ensures ok ==> h == FinalHold(old(objects), ref) && objects == Holding(old(objects), ref)
      ensures !ok ==> objects == old(objects)
      ensures ok ==>
        && (h == Missing <==> OwnerName(ref) !in old(objects))
        && (h == Replaced <==> OwnerName(ref) in old(objects) && old(objects)[OwnerName(ref)].uid != ref.uid)
        && (h == Deleting <==> Dying(old(objects), ref)) && (h == Held <==> Live(old(objects), ref))
        && (h == Held ==> Ours in objects[OwnerName(ref)].finalizers)
    {
      var owner := ParentObject(ref);
      if !reply.read {
        return false, Missing;
      }
      if owner !in objects {
        return true, Missing;
      }
      h := HoldOf(objects[owner], ref.uid);
      if h == NotYet {
        if !reply.update {
          return false, h;
        }
        objects := objects[owner := WithOurs(objects[owner])];
        h := HoldOf(objects[owner], ref.uid);
      }
      ok := true;
    }

    /**
     One owner's parent tuple, by what was read of it: written while the owner is
     live, left while it is being deleted, else removed. A failure leaves the
     tuples as they were.
     */
    method SyncParent(ref: OwnerRef, child: Object, existing: seq<Tuple>, reply: OwnerReply) returns (ok: bool)
      requires forall t :: t in existing ==> IsParentTuple(t, child)
      modifies this
      ensures ok <==> OwnerAnswers(old(objects), AsSet(existing), ref, child, reply)
      ensures objects == if HoldAnswers(old(objects), ref, reply) then Holding(old(objects), ref) else old(objects)
      ensures !ok ==> tuples == old(tuples)
      ensures ok ==>
        tuples == Synced(old(tuples), AsSet(existing), FinalHold(old(objects), ref), ParentTuple(ref, child))
      ensures ok ==> var t := Tuple(Entity(OwnerName(ref)), ParentRelation, child);
        tuples == if Live(old(objects), ref) then (if t in existing then old(tuples) else old(tuples) + {t})
                  else if Dying(old(objects), ref) then old(tuples)
                  else if t in existing then old(tuples) - {t} else old(tuples)
    {
      HoldMeans(objects, ref);
      var h;
      ok, h := OwnerHold(ref, reply);
      if !ok || h == Deleting {
        return;
      }
      var user := Entity(ParentObject(ref));
      var desired: map<User, Tuple> := map[];
      if h == Held {
        desired := desired[user := ParentTuple(ref, child)];
      }
      var had := TuplesOfUser(existing, user);
      ghost var own := ParentTuple(ref, child);
      assert forall t :: t in had ==> t == own;
      assert own in had <==> own in existing;
      var writes, deletes := ComputeTupleDifferences(desired, had);
      if h == Held {
        assert desired[user] == own && deletes == {};
        assert writes == if own in existing then {} else {own};
      } else {
        assert writes == {};
        assert deletes == if own in existing then {own} else {};
      }
      ok := ApplyParentChanges(writes, deletes, reply.write);
    }

    /** One atomic write, if there is anything to write. */
    method ApplyParentChanges(writes: set<Tuple>, deletes: set<Tuple>, answered: bool) returns (ok: bool)
      modifies this`tuples
      ensures ok <==> answered || (writes == {} && deletes == {})
      ensures tuples == if ok then old(tuples) - deletes + writes else old(tuples)
    {
      if writes == {} && deletes == {} {
        return true;
      }
      if answered {
        tuples := tuples - deletes + writes;
      }
      return answered;
    }

    /**
     The whole reconcile. If the calls that are needed answer, the child's parent
     tuples are afterwards exactly: one for each owner that is live, and those that
     were there for owners being deleted, but none that was there and is disowned;
     and every live owner carries our finalizer. If a call fails, each parent tuple
     is as it was or as it would have ended, and the first `k` references are held; a
     tuple that is new names an owner that carries our finalizer. No other tuple
     changes.
     */
    method SynchronizeHierarchy(child: Object, refs: seq<OwnerRef>, fetched: bool, pruned: bool, replies: nat -> OwnerReply)
      returns (ok: bool, ghost k: nat)
      modifies this
      ensures ok <==>
        && fetched && (pruned || forall t :: t in old(tuples) && IsParentTuple(t, child) ==> Owns(refs, t.user))
        && OwnersAnswer(old(objects), Parents(old(tuples), child), refs, |refs|, child, replies)
      ensures ok ==> Settled(old(objects), old(tuples), tuples, refs, child)
      ensures PartlySettled(old(objects), old(tuples), tuples, refs, child)
      ensures k <= |refs| && objects == HoldingAll(old(objects), First(refs, k))
      ensures OnlyHeldMore(old(objects), objects, refs)
      ensures ok ==> OwnersHeld(old(objects), objects, refs)
      ensures NewAreHeld(old(tuples), tuples, objects)
    {
      assert refs[..0] == [] && HoldingAll(objects, First(refs, 0)) == objects;
      if !fetched {
        return false, 0;
      }
      var existing := FetchParents(child);
      var desired := DetermineDesiredParentTuples(refs, child);
      var _, stale := ComputeTupleDifferences(desired, existing);
      var dropped := ApplyParentChanges({}, stale, pruned);
      assert stale != {} <==> exists t :: t in old(tuples) && IsParentTuple(t, child) && !Owns(refs, t.user) by {
        assert forall t :: t in stale <==> t in old(tuples) && IsParentTuple(t, child) && !Owns(refs, t.user);
      }
      if !dropped {
        return false, 0;
      }
      ghost var kept, had, i := tuples, AsSet(existing), 0;
      assert had == Parents(old(tuples), child);
      ok, i, k := SyncParents(child, refs, existing, desired, replies);
      SyncedAreHeld(old(objects), kept, had, refs, i, k, child);
      AllSynced(old(objects), old(tuples), had, kept, refs, i, child);
    }

    /** The owners, one after the other, once the stale tuples are gone: `i` references are settled, `k` are held. */
    method SyncParents(child: Object, refs: seq<OwnerRef>, existing: seq<Tuple>, desired: map<User, Tuple>, replies: nat -> OwnerReply)
      returns (ok: bool, ghost i: nat, ghost k: nat)
      requires forall u :: u in desired <==> Owns(refs, u)
      requires forall t :: t in existing ==> IsParentTuple(t, child)
      modifies this
      ensures ok <==> OwnersAnswer(old(objects), AsSet(existing), refs, |refs|, child, replies)
      ensures i <= k <= |refs| && (ok ==> i == |refs|)
      ensures objects == HoldingAll(old(objects), First(refs, k))
      ensures tuples == SyncedAll(old(objects), old(tuples), AsSet(existing), First(refs, i), child)
    {
      ok := true;
      i, k := 0, 0;
      var next := 0;
      while next < |refs|
        invariant 0 <= next == i == k <= |refs| && ok
        invariant objects == HoldingAll(old(objects), First(refs, k))
        invariant tuples == SyncedAll(old(objects), old(tuples), AsSet(existing), First(refs, i), child)
        invariant OwnersAnswer(old(objects), AsSet(existing), refs, next, child, replies)
      {
        OwnerTurn(old(objects), old(tuples), AsSet(existing), refs, i, child);
        if Entity(ParentObject(refs[next])) in desired {
          k := if HoldAnswers(objects, refs[i], replies(i)) then i + 1 else i;
          ok := SyncParent(refs[next], child, existing, replies(next));
          if !ok {
            assert !AnswersAt(old(objects), AsSet(existing), refs, i, child, replies(i));
            return;
          }
        }
        assert AnswersAt(old(objects), AsSet(existing), refs, i, child, replies(i));
        AnswersGrow(old(objects), AsSet(existing), refs, i, child, replies);
        next, i, k := next + 1, i + 1, i + 1;
      }
    }

    method TuplesOfUser(existing: seq<Tuple>, user: User) returns (found: seq<Tuple>)
      ensures forall t :: t in found <==> t in existing && t.user == user
    {
      found := [];
      for i := 0 to |existing|
        invariant forall t :: t in found <==> t in existing[..i] && t.user == user
      {
        assert forall t :: t in existing[..i + 1] <==> t in existing[..i] || t == existing[i];
        if existing[i].user == user {
          found := found + [existing[i]];
        }
      }
      assert existing[..|existing|] == existing;
    }
  }
}
