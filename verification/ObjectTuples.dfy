/**
 The tuples that name one object: those on it, and those in which it is the
 parent of another object.
 */
module ObjectTuples {
  import opened Names
  import opened Permissions
  import opened Sorting
  import opened ResourceGraph
  import opened PolicyReconciler
  import opened TupleDeletion
  import opened Wrappers

  /** A registration of `child` names `parentType` among its parents; no type is its own child. */
  predicate IsChildType(prs: seq<ProtectedResource>, parentType: string, child: string) {
    && child != parentType
    && exists pr, ref :: pr in prs && ref in pr.spec.parents
         && pr.spec.service + "/" + pr.spec.kind == child && ref.group + "/" + ref.kind == parentType
  }

  method DeclaresParent(spec: ResourceSpec, parentType: string) returns (declared: bool)
    ensures declared <==> exists ref :: ref in spec.parents && ref.group + "/" + ref.kind == parentType
  {
    for i := 0 to |spec.parents|
      invariant forall ref :: ref in spec.parents[..i] ==> ref.group + "/" + ref.kind != parentType
    {
      if TypeName(spec.parents[i].group, spec.parents[i].kind) == parentType {
        return true;
      }
    }
    return false;
  }

  /** The types that declare `parentType` as a parent, each once. */
  method ChildTypes(prs: seq<ProtectedResource>, parentType: string) returns (children: seq<string>)
    ensures Distinct(children) && forall child :: child in children <==> IsChildType(prs, parentType, child)
  {
    children := [];
    var listed := {};
    for i := 0 to |prs|
      invariant Distinct(children) && listed == set child | child in children
      invariant forall child :: child in children <==> IsChildType(prs[..i], parentType, child)
    {
      assert forall pr :: pr in prs[..i + 1] <==> pr in prs[..i] || pr == prs[i];
      var child := TypeOf(prs[i].spec);
      var declared := DeclaresParent(prs[i].spec, parentType);
      if child != parentType && child !in listed && declared {
        listed, children := listed + {child}, children + [child];
      }
    }
    assert prs[..|prs|] == prs;
  }

  predicate Named(t: Tuple, o: Object) {
    t.obj == o || t.user == Entity(o)
  }

  /** Every tuple with an object as its user is on a type that declares the object's type as a parent. */
  predicate UsersAreParents(prs: seq<ProtectedResource>, tuples: set<Tuple>, o: Object) {
    forall t :: t in tuples && t.user == Entity(o) && t.obj != o ==> IsChildType(prs, o.typ, t.obj.typ)
  }

  class NamedTuples {
    const store: TupleStore

    constructor (store: TupleStore)
      ensures this.store == store
    {
      this.store := store;
    }

    /** One read: the tuples on `o`, or those on any object of a type whose user is `o`. */
    method Read(matches: Tuple -> bool) returns (found: seq<Tuple>)
      ensures Distinct(found) && forall t :: t in found <==> t in store.tuples && matches(t)
    {
      found := [];
      var left := set t | t in store.tuples && matches(t);
      while left != {}
        invariant Distinct(found) && forall t :: t in left ==> t !in found
        invariant forall t :: t in found || t in left <==> t in store.tuples && matches(t)
        decreases left
      {
        var t :| t in left;
        found, left := found + [t], left - {t};
      }
    }

    /** The tuples that name `o`, none of them twice, unless a read or the listing fails. */
    method Naming(prs: seq<ProtectedResource>, o: Object, answered: bool) returns (naming: Option<seq<Tuple>>)
      ensures naming.Some? <==> answered
      ensures answered ==> Distinct(naming.value)
      ensures answered ==> forall t :: t in naming.value <==>
        t in store.tuples && (t.obj == o || (t.user == Entity(o) && IsChildType(prs, o.typ, t.obj.typ)))
      ensures answered && UsersAreParents(prs, store.tuples, o) ==> forall t :: t in naming.value <==> t in store.tuples && Named(t, o)
    {
      if !answered {
        return None;
      }
      var found := Read((t: Tuple) => t.obj == o);
      var children := ChildTypes(prs, o.typ);
      for i := 0 to |children|
        invariant Distinct(found)
        invariant forall t :: t in found <==>
          t in store.tuples && (t.obj == o || (t.user == Entity(o) && t.obj.typ in children[..i]))
      {
        var child := children[i];
        assert child in children;
        var asUser := Read((t: Tuple) => t.obj.typ == child && t.user == Entity(o));
        DisjointReads(found, asUser);
        assert forall c :: c in children[..i + 1] <==> c in children[..i] || c == child;
        found := found + asUser;
      }
      assert children[..|children|] == children;
      return Some(found);
    }

    /**
     Deletes what names `o`, in writes of at most a hundred tuples. Once the reads
     have answered it fails exactly if the deletion does.
     */
    method Clear(prs: seq<ProtectedResource>, o: Object, answered: bool, reply: nat -> Reply, cancelled: nat -> bool,
                 late: nat -> bool)
      returns (deleted: nat, ok: bool, ghost log: seq<Progress>, ghost sent: seq<seq<Tuple>>)
      modifies store
      ensures |log| == |sent| + 1 && (answered ==> Logged(log, deleted, reply))
      ensures ok <==> answered && !Fails(deleted, log, sent, reply, cancelled, late)
      ensures deleted > 0 <==>
        answered && (exists t :: t in old(store.tuples)
                                 && (t.obj == o || (t.user == Entity(o) && IsChildType(prs, o.typ, t.obj.typ))))
      ensures !answered ==> store.tuples == old(store.tuples)
      ensures forall t :: t in old(store.tuples) && !Named(t, o) ==> t in store.tuples
      ensures store.tuples <= old(store.tuples)
      ensures ok && UsersAreParents(prs, old(store.tuples), o) ==> forall t :: t in store.tuples ==> !Named(t, o)
    {
      var found := Naming(prs, o, answered);
      if found.None? {
        return 0, false, [Beginning], [];
      }
      assert found.value != [] ==> found.value[0] in found.value;
      ok, log, sent := store.DeleteTuples(found.value, reply, cancelled, late);
      deleted := |found.value|;
      assert forall t :: t in AsSet(found.value) <==> t in found.value;
    }

    /** Fails while any tuple still names `o`, and when a read does. */
    method Remaining(prs: seq<ProtectedResource>, o: Object, answered: bool) returns (none: bool)
      ensures none ==> answered
      ensures UsersAreParents(prs, store.tuples, o) && answered ==> (none <==> forall t :: t in store.tuples ==> !Named(t, o))
    {
      var left := Naming(prs, o, answered);
      if left.Some? && left.value != [] {
        assert left.value[0] in left.value;
      }
      return left == Some([]);
    }
  }

  lemma DisjointReads(s: seq<Tuple>, r: seq<Tuple>)
    requires Distinct(s) && Distinct(r) && forall t :: t in s ==> t !in r
    ensures Distinct(s + r)
  {
    var u := s + r;
    forall i, j | 0 <= i < j < |u|
      ensures u[i] != u[j]
    {
      if i < |s| && |s| <= j {
        assert u[i] in s && u[j] in r;
      }
    }
  }
}
