/**
 Role inheritance: the depth-first walk that gathers a Role's effective
 permissions, and the breadth-first walk of the reversed graph that finds the
 Roles to recompute when one changes.
 */
module Roles {
  import opened Sorting

  datatype RoleKey = RoleKey(namespace: string, name: string)

  datatype InheritedRef = InheritedRef(namespace: string, name: string)

  datatype Role = Role(included: seq<string>, inherited: seq<InheritedRef>)

  type Store = map<RoleKey, Role>

  /** The Role a reference names: an empty namespace is the referencing Role's own. */
  function Named(ref: InheritedRef, from: RoleKey): RoleKey {
    RoleKey(if ref.namespace == "" then from.namespace else ref.namespace, ref.name)
  }

  /** `ref`, in the Role `from`, names `parent`: in the namespace it gives, or in its own if it gives none. */
  predicate Means(ref: InheritedRef, from: RoleKey, parent: RoleKey) {
    && parent.name == ref.name
    && (ref.namespace != "" ==> parent.namespace == ref.namespace)
    && (ref.namespace == "" ==> parent.namespace == from.namespace)
  }

  predicate Inherits(store: Store, child: RoleKey, parent: RoleKey) {
    child in store && exists ref :: ref in store[child].inherited && Means(ref, child, parent)
  }

  // ---- Reachability

  ghost predicate Path(store: Store, p: seq<RoleKey>) {
    |p| > 0 && forall i :: 0 <= i < |p| - 1 ==> Inherits(store, p[i], p[i + 1])
  }

  ghost predicate Joins(store: Store, p: seq<RoleKey>, a: RoleKey, b: RoleKey) {
    Path(store, p) && p[0] == a && p[|p| - 1] == b
  }

  /** `a` inherits `b`, through any number of Roles, none included. */
  ghost predicate Reaches(store: Store, a: RoleKey, b: RoleKey) {
    exists p :: Joins(store, p, a, b)
  }

  /** The permissions of every Role that `k` reaches. */
  ghost predicate Granted(store: Store, k: RoleKey, permission: string) {
    exists x :: x in store && Reaches(store, k, x) && permission in store[x].included
  }

  /** The references that `k` reaches and that name no Role. */
  ghost predicate Unresolved(store: Store, k: RoleKey, u: RoleKey) {
    u !in store && Reaches(store, k, u)
  }

  lemma ReachesSelf(store: Store, a: RoleKey)
    ensures Reaches(store, a, a)
  {
    assert Joins(store, [a], a, a);
  }

  lemma ReachesBefore(store: Store, a: RoleKey, b: RoleKey, c: RoleKey)
    requires Inherits(store, a, b) && Reaches(store, b, c)
    ensures Reaches(store, a, c)
  {
    var p :| Joins(store, p, b, c);
    assert Joins(store, [a] + p, a, c);
  }

  lemma ReachesAfter(store: Store, a: RoleKey, b: RoleKey, c: RoleKey)
    requires Reaches(store, a, b) && Inherits(store, b, c)
    ensures Reaches(store, a, c)
  {
    var p :| Joins(store, p, a, b);
    assert Joins(store, p + [c], a, c);
  }

  /** A set that holds `a` and every Role its members inherit holds whatever `a` reaches. */
  lemma {:induction false} ClosedHoldsReached(store: Store, members: set<RoleKey>, p: seq<RoleKey>)
    requires Path(store, p) && p[0] in members && p[|p| - 1] in store
    requires forall x, y :: x in members && Inherits(store, x, y) && y in store ==> y in members
    ensures p[|p| - 1] in members
    decreases |p|
  {
    if |p| > 1 {
      assert Inherits(store, p[0], p[1]);
      if |p| > 2 {
        assert Inherits(store, p[1], p[2]);
      }
      var rest := p[1..];
      forall i | 0 <= i < |rest| - 1
        ensures Inherits(store, rest[i], rest[i + 1])
      {
        assert Inherits(store, p[i + 1], p[i + 1 + 1]);
      }
      ClosedHoldsReached(store, members, p[1..]);
    }
  }

  // ---- The depth-first walk

  predicate KeyLe(a: RoleKey, b: RoleKey) {
    if a.namespace == b.namespace then StringLe(a.name, b.name) else StringLe(a.namespace, b.namespace)
  }

  lemma KeyOrder()
    ensures TotalOrder(KeyLe)
  {
    forall a, b, c
      ensures KeyLe(a, a) && (KeyLe(a, b) || KeyLe(b, a))
      ensures KeyLe(a, b) && KeyLe(b, a) ==> a == b
      ensures KeyLe(a, b) && KeyLe(b, c) ==> KeyLe(a, c)
    {
      PairLaws((a.namespace, a.name), (b.namespace, b.name), (c.namespace, c.name));
    }
  }

  /** Duplicates removed, then sorted by namespace and name. */
  method DedupeUnresolved(refs: seq<RoleKey>) returns (r: seq<RoleKey>)
    ensures Sorted(r, KeyLe) && Distinct(r) && forall u :: u in r <==> u in refs
  {
    var deduped := [];
    for i := 0 to |refs|
      invariant Distinct(deduped) && forall u :: u in deduped <==> u in refs[..i]
    {
      if refs[i] !in deduped {
        deduped := deduped + [refs[i]];
      }
    }
    r := Sort(deduped, KeyLe);
    KeyOrder();
    SortSorts(deduped, KeyLe);
    SortKeepsDistinct(deduped, r);
    SameElements(deduped, r);
  }

  /** The visited map that all calls of one computation share. */
  class Visited {
    var keys: set<RoleKey>

    constructor ()
      ensures keys == {}
    {
      keys := {};
    }
  }

  /** Every Role of `added`, and nothing else, has given its permissions. */
  ghost predicate Gathered(store: Store, added: set<RoleKey>, permissions: set<string>) {
    forall p :: p in permissions <==> exists x :: x in added && x in store && p in store[x].included
  }

  /** Every Role of `added`, and nothing else, has reported its dangling references. */
  ghost predicate Reported(store: Store, added: set<RoleKey>, unresolved: seq<RoleKey>) {
    forall u :: u in unresolved <==> u !in store && ReportedBy(store, added, u)
  }

  ghost predicate ClosedIn(store: Store, added: set<RoleKey>, visited: set<RoleKey>) {
    forall x, y :: x in added && Inherits(store, x, y) && y in store ==> y in visited
  }

  ghost predicate AllReached(store: Store, key: RoleKey, added: set<RoleKey>) {
    forall x :: x in added ==> x in store && Reaches(store, key, x)
  }

  /** Every read that the walk makes for the Roles in `added` answers. */
  ghost predicate ReadAll(store: Store, added: set<RoleKey>, readable: RoleKey -> bool) {
    forall x, u :: x in added && Inherits(store, x, u) ==> readable(u)
  }

  /** A read that the walk from `key` makes. */
  ghost predicate Reads(store: Store, key: RoleKey, u: RoleKey) {
    exists x :: x in store && Reaches(store, key, x) && Inherits(store, x, u)
  }

  lemma ReadsBelow(store: Store, key: RoleKey, parent: RoleKey, u: RoleKey)
    requires key in store && Inherits(store, key, parent) && Reads(store, parent, u)
    ensures Reads(store, key, u)
  {
    var x :| x in store && Reaches(store, parent, x) && Inherits(store, x, u);
    ReachesBefore(store, key, parent, x);
  }

  /**
   One call of the walk. It gives exactly what the Roles it was first to visit
   hold, a partial answer when other calls visited some of them before.
   */
  method GetAllEffectivePermissions(store: Store, key: RoleKey, visited: Visited, readable: RoleKey -> bool)
    returns (ok: bool, permissions: set<string>, unresolved: seq<RoleKey>)
    requires key in store
    modifies visited
    decreases store.Keys - visited.keys
    ensures old(visited.keys) <= visited.keys && key in visited.keys
    ensures !ok ==> exists u :: Reads(store, key, u) && !readable(u)
    ensures ok ==> ReadAll(store, visited.keys - old(visited.keys), readable)
    ensures ok ==> AllReached(store, key, visited.keys - old(visited.keys))
    ensures ok ==> ClosedIn(store, visited.keys - old(visited.keys), visited.keys)
    ensures ok ==> Gathered(store, visited.keys - old(visited.keys), permissions)
    ensures ok ==> Reported(store, visited.keys - old(visited.keys), unresolved)
    ensures Sorted(unresolved, KeyLe) && Distinct(unresolved)
  {
    if key in visited.keys {
      return true, {}, [];
    }
    ghost var before := visited.keys;
    visited.keys := visited.keys + {key};
    var role := store[key];
    permissions := set p | p in role.included;
    var found := [];
    ReachesSelf(store, key);
    for i := 0 to |role.inherited|
      invariant before + {key} <= visited.keys
      invariant Progress(store, key, visited.keys - before, visited.keys, role.inherited[..i], permissions, found)
      invariant ReadAll(store, visited.keys - before - {key}, readable)
      invariant forall parent :: Among(role.inherited[..i], key, parent) ==> readable(parent)
    {
      var parent := Named(role.inherited[i], key);
      ghost var seen := visited.keys;
      assert role.inherited[i] in role.inherited && Inherits(store, key, parent);
      OneMoreRef(role.inherited, i, key);
      if !readable(parent) {
        assert Reads(store, key, parent);
        return false, {}, [];
      }
      if parent !in store {
        DanglingProgress(store, key, seen - before, seen, role.inherited, i, permissions, found);
        found := found + [parent];
        continue;
      }
      var read, more, dangling := GetAllEffectivePermissions(store, parent, visited, readable);
      if !read {
        ghost var u :| Reads(store, parent, u) && !readable(u);
        ReadsBelow(store, key, parent, u);
        return false, {}, [];
      }
      assert visited.keys - before - {key} == (seen - before - {key}) + (visited.keys - seen);
      VisitProgress(store, key, before, seen, visited.keys, role.inherited, i, permissions, found, more, dangling);
      permissions := permissions + more;
      found := found + dangling;
    }
    assert role.inherited[..|role.inherited|] == role.inherited;
    WalkDone(store, key, visited.keys - before, visited.keys, permissions, found);
    assert forall parent :: Among(role.inherited, key, parent) <==> Inherits(store, key, parent);
    unresolved := DedupeUnresolved(found);
    ok := true;
  }

  /** A parent among the references done so far. */
  predicate Among(refs: seq<InheritedRef>, key: RoleKey, parent: RoleKey) {
    exists ref :: ref in refs && Means(ref, key, parent)
  }

  /** The walk from `key` after its references `done`, having first visited `added`. */
  ghost predicate Progress(store: Store, key: RoleKey, added: set<RoleKey>, visited: set<RoleKey>, done: seq<InheritedRef>,
                           permissions: set<string>, found: seq<RoleKey>) {
    && key in added && AllReached(store, key, added) && ClosedIn(store, added - {key}, visited)
    && (forall parent :: Among(done, key, parent) && parent in store ==> parent in visited)
    && Gathered(store, added, permissions)
    && (forall u :: u in found <==> u !in store && (ReportedBy(store, added - {key}, u) || Among(done, key, u)))
  }

  predicate ReportedBy(store: Store, added: set<RoleKey>, u: RoleKey) {
    exists x :: x in added && Inherits(store, x, u)
  }

  lemma OneMoreRef(refs: seq<InheritedRef>, i: nat, key: RoleKey)
    requires i < |refs|
    ensures forall parent :: Among(refs[..i + 1], key, parent) <==> Among(refs[..i], key, parent) || parent == Named(refs[i], key)
  {
    assert forall ref :: ref in refs[..i + 1] <==> ref in refs[..i] || ref == refs[i];
    assert Means(refs[i], key, Named(refs[i], key));
    assert Among(refs[..i + 1], key, Named(refs[i], key));
    forall parent | Among(refs[..i], key, parent)
      ensures Among(refs[..i + 1], key, parent)
    {
      var ref :| ref in refs[..i] && Means(ref, key, parent);
      assert ref in refs[..i + 1];
    }
  }

  lemma DanglingProgress(store: Store, key: RoleKey, added: set<RoleKey>, visited: set<RoleKey>, refs: seq<InheritedRef>, i: nat,
                         permissions: set<string>, found: seq<RoleKey>)
    requires i < |refs| && Named(refs[i], key) !in store
    requires Progress(store, key, added, visited, refs[..i], permissions, found)
    ensures Progress(store, key, added, visited, refs[..i + 1], permissions, found + [Named(refs[i], key)])
  {
    OneMoreRef(refs, i, key);
  }

  lemma VisitProgress(store: Store, key: RoleKey, before: set<RoleKey>, seen: set<RoleKey>, visited: set<RoleKey>,
                      refs: seq<InheritedRef>, i: nat, permissions: set<string>, found: seq<RoleKey>,
                      more: set<string>, dangling: seq<RoleKey>)
    requires key in store && refs == store[key].inherited && i < |refs| && Named(refs[i], key) in store
    requires before + {key} <= seen <= visited && key !in before && Named(refs[i], key) in visited
    requires Progress(store, key, seen - before, seen, refs[..i], permissions, found)
    requires AllReached(store, Named(refs[i], key), visited - seen) && ClosedIn(store, visited - seen, visited)
    requires Gathered(store, visited - seen, more) && Reported(store, visited - seen, dangling)
    ensures Progress(store, key, visited - before, visited, refs[..i + 1], permissions + more, found + dangling)
  {
    OneMoreRef(refs, i, key);
    var first, next, all := seen - before, visited - seen, visited - before;
    assert all == first + next && all - {key} == (first - {key}) + next;
    forall x | x in next
      ensures Reaches(store, key, x)
    {
      assert refs[i] in store[key].inherited;
      ReachesBefore(store, key, Named(refs[i], key), x);
    }
    forall u
      ensures ReportedBy(store, all - {key}, u) <==> ReportedBy(store, first - {key}, u) || ReportedBy(store, next, u)
    {
    }
    forall p
      ensures p in permissions + more <==> exists x :: x in all && x in store && p in store[x].included
    {
    }
  }

  lemma WalkDone(store: Store, key: RoleKey, added: set<RoleKey>, visited: set<RoleKey>, permissions: set<string>, found: seq<RoleKey>)
    requires key in store && added <= visited && Progress(store, key, added, visited, store[key].inherited, permissions, found)
    ensures ClosedIn(store, added, visited) && Reported(store, added, found)
  {
  }

  /**
   The computation as the reconciler starts it, with no visited map: exactly the
   permissions of every Role reached, on cyclic and diamond graphs alike, and
   exactly the dangling references reached, sorted, each once. It fails exactly
   when a read of an inherited Role fails for another reason than its absence.
   */
  method EffectivePermissions(store: Store, key: RoleKey, readable: RoleKey -> bool)
    returns (ok: bool, permissions: set<string>, unresolved: seq<RoleKey>)
    requires key in store
    ensures ok <==> forall u :: Reads(store, key, u) ==> readable(u)
    ensures ok ==> forall p :: p in permissions <==> Granted(store, key, p)
    ensures ok ==> forall u :: u in unresolved <==> Unresolved(store, key, u)
    ensures Sorted(unresolved, KeyLe) && Distinct(unresolved)
  {
    var visited := new Visited();
    ok, permissions, unresolved := GetAllEffectivePermissions(store, key, visited, readable);
    if ok {
      WholeWalk(store, key, visited.keys, permissions, unresolved);
    }
  }

  lemma WholeWalk(store: Store, key: RoleKey, added: set<RoleKey>, permissions: set<string>, unresolved: seq<RoleKey>)
    requires key in added && AllReached(store, key, added) && ClosedIn(store, added, added)
    requires Gathered(store, added, permissions) && Reported(store, added, unresolved)
    ensures forall x :: x in added <==> x in store && Reaches(store, key, x)
    ensures forall p :: p in permissions <==> Granted(store, key, p)
    ensures forall u :: u in unresolved <==> Unresolved(store, key, u)
  {
    forall x | x in store && Reaches(store, key, x)
      ensures x in added
    {
      var p :| Joins(store, p, key, x);
      ClosedHoldsReached(store, added, p);
    }
    forall u
      ensures u in unresolved <==> Unresolved(store, key, u)
    {
      if u in unresolved {
        var x :| x in added && Inherits(store, x, u);
        ReachesAfter(store, key, x, u);
      }
      if Unresolved(store, key, u) {
        var p :| Joins(store, p, key, u);
        LastEdge(store, p);
        assert p[|p| - 2] in added;
      }
    }
  }

  /** A path to a missing Role ends in a reference of a Role that the path's start reaches. */
  lemma LastEdge(store: Store, p: seq<RoleKey>)
    requires Path(store, p) && p[0] in store && p[|p| - 1] !in store
    ensures |p| > 1 && Inherits(store, p[|p| - 2], p[|p| - 1]) && p[|p| - 2] in store && Reaches(store, p[0], p[|p| - 2])
  {
    assert Inherits(store, p[|p| - 2], p[|p| - 2 + 1]);
    assert Joins(store, p[..|p| - 1], p[0], p[|p| - 2]);
  }

  // ---- The breadth-first walk of the reversed graph

  type Reverse = map<RoleKey, seq<RoleKey>>

  function Children(reverse: Reverse, parent: RoleKey): seq<RoleKey> {
    if parent in reverse then reverse[parent] else []
  }

  ghost predicate Reverses(store: Store, listed: seq<RoleKey>, reverse: Reverse) {
    forall parent, child :: child in Children(reverse, parent) <==> child in listed && Inherits(store, child, parent)
  }

  method ReverseGraph(store: Store, listed: seq<RoleKey>) returns (reverse: Reverse)
    requires forall k :: k in listed <==> k in store
    ensures Reverses(store, listed, reverse)
  {
    reverse := map[];
    for i := 0 to |listed|
      invariant Reverses(store, listed[..i], reverse)
    {
      var child := listed[i];
      assert child in listed;
      var refs := store[child].inherited;
      ghost var earlier := reverse;
      for j := 0 to |refs|
        invariant forall parent, x :: x in Children(reverse, parent) <==>
          x in Children(earlier, parent) || (x == child && Among(refs[..j], child, parent))
      {
        ghost var before := reverse;
        var named := Named(refs[j], child);
        reverse := reverse[named := Children(reverse, named) + [child]];
        OneMoreRef(refs, j, child);
        forall parent, x
          ensures x in Children(reverse, parent) <==>
            x in Children(earlier, parent) || (x == child && Among(refs[..j + 1], child, parent))
        {
          assert x in Children(reverse, parent) <==> x in Children(before, parent) || (x == child && parent == named);
        }
      }
      assert refs[..|refs|] == refs;
      assert forall parent :: Among(refs, child, parent) <==> Inherits(store, child, parent);
      assert listed[..i + 1] == listed[..i] + [child];
    }
    assert listed[..|listed|] == listed;
  }

  /** The changed Role, and every Role that inherits it through any number of others. */
  method RolesDependentOnRole(store: Store, listed: seq<RoleKey>, changed: RoleKey) returns (dependents: set<RoleKey>)
    requires forall k :: k in listed <==> k in store
    ensures forall k :: k in dependents <==> Reaches(store, k, changed)
  {
    var reverse := ReverseGraph(store, listed);
    dependents := {changed};
    var queue := [changed];
    ReachesSelf(store, changed);
    while queue != []
      invariant changed in dependents && dependents <= store.Keys + {changed}
      invariant forall k :: k in queue ==> k in dependents
      invariant forall k :: k in dependents ==> Reaches(store, k, changed)
      invariant forall k, child :: k in dependents && k !in queue && Inherits(store, child, k) ==> child in dependents
      decreases store.Keys + {changed} - dependents, |queue|
    {
      var current := queue[0];
      ghost var waiting, known := queue[1..], dependents;
      queue := queue[1..];
      var children := Children(reverse, current);
      for i := 0 to |children|
        invariant known <= dependents <= store.Keys + {changed}
        invariant forall k :: k in waiting ==> k in queue
        invariant forall k :: k in queue ==> k in dependents
        invariant forall k :: k in dependents ==> k in known || k in queue
        invariant forall k :: k in dependents ==> Reaches(store, k, changed)
        invariant forall j :: 0 <= j < i ==> children[j] in dependents
        invariant dependents == known ==> queue == waiting
      {
        var child := children[i];
        assert child in children;
        if child !in dependents {
          ReachesBefore(store, child, current, changed);
          dependents, queue := dependents + {child}, queue + [child];
        }
      }
    }
    forall k | Reaches(store, k, changed)
      ensures k in dependents
    {
      var p :| Joins(store, p, k, changed);
      ClosedHoldsReachers(store, dependents, p);
    }
  }

  lemma {:induction false} ClosedHoldsReachers(store: Store, members: set<RoleKey>, p: seq<RoleKey>)
    requires Path(store, p) && p[|p| - 1] in members
    requires forall k, child :: k in members && Inherits(store, child, k) ==> child in members
    ensures p[0] in members
    decreases |p|
  {
    if |p| > 1 {
      var n := |p| - 1;
      assert Inherits(store, p[n - 1], p[n - 1 + 1]);
      ClosedHoldsReachers(store, members, p[..n]);
    }
  }

  /** The Roles to reconcile again when a Role changes; the changed one is reconciled by its own watch. */
  method EnqueueRequestsForInheritedRoleChange(store: Store, listed: seq<RoleKey>, changed: RoleKey)
    returns (requests: set<RoleKey>)
    requires forall k :: k in listed <==> k in store
    ensures forall k :: k in requests <==> k != changed && Reaches(store, k, changed)
  {
    var dependents := RolesDependentOnRole(store, listed, changed);
    requests := dependents - {changed};
  }

  // ---- Completeness of the invalidation

  /** The stores differ at most in what they hold under `c`. */
  ghost predicate DifferOnlyAt(s: Store, r: Store, c: RoleKey) {
    forall x :: x != c ==> (x in s <==> x in r) && (x in s ==> s[x] == r[x])
  }

  /** A path whose Roles, but for its last, are not `c` is a path in both stores. */
  lemma PathCarriesOver(s: Store, r: Store, c: RoleKey, p: seq<RoleKey>)
    requires DifferOnlyAt(s, r, c) && Path(s, p) && c !in p[..|p| - 1]
    ensures Path(r, p)
  {
  }

  /** The part of a path up to its first `c`. */
  lemma {:induction false} UpToFirst(store: Store, p: seq<RoleKey>, c: RoleKey) returns (n: nat)
    requires Path(store, p) && c in p
    ensures n < |p| && Joins(store, p[..n + 1], p[0], c) && c !in p[..n]
  {
    n := 0;
    while p[n] != c
      invariant n < |p| && c !in p[..n]
      decreases |p| - n
    {
      n := n + 1;
    }
  }

  lemma ReachersCarryOver(s: Store, r: Store, c: RoleKey, k: RoleKey)
    requires DifferOnlyAt(s, r, c) && Reaches(s, k, c)
    ensures Reaches(r, k, c)
  {
    var p :| Joins(s, p, k, c);
    var n := UpToFirst(s, p, c);
    assert p[..n + 1][..n] == p[..n];
    PathCarriesOver(s, r, c, p[..n + 1]);
    assert Joins(r, p[..n + 1], k, c);
  }

  lemma ReachedCarriesOver(s: Store, r: Store, c: RoleKey, k: RoleKey, x: RoleKey)
    requires DifferOnlyAt(s, r, c) && !Reaches(s, k, c) && Reaches(s, k, x)
    ensures Reaches(r, k, x) && x != c
  {
    var p :| Joins(s, p, k, x);
    if c in p {
      var n := UpToFirst(s, p, c);
    }
    PathCarriesOver(s, r, c, p);
    assert Joins(r, p, k, x);
  }

  /**
   Invalidation is complete. When a Role changes, appears or goes, every Role
   whose effective permissions or dangling references differ is among the
   changed Role's dependents, and both stores name the same dependents.
   */
  lemma InvalidationIsComplete(s: Store, r: Store, c: RoleKey, k: RoleKey)
    requires DifferOnlyAt(s, r, c)
    ensures Reaches(s, k, c) <==> Reaches(r, k, c)
    ensures (exists p :: Granted(s, k, p) != Granted(r, k, p)) ==> Reaches(s, k, c)
    ensures (exists u :: Unresolved(s, k, u) != Unresolved(r, k, u)) ==> Reaches(s, k, c)
  {
    if Reaches(s, k, c) {
      ReachersCarryOver(s, r, c, k);
    } else {
      if Reaches(r, k, c) {
        ReachersCarryOver(r, s, c, k);
      }
      forall x
        ensures Reaches(s, k, x) <==> Reaches(r, k, x)
        ensures Reaches(s, k, x) ==> x != c
      {
        if Reaches(s, k, x) {
          ReachedCarriesOver(s, r, c, k, x);
        }
        if Reaches(r, k, x) {
          ReachedCarriesOver(r, s, c, k, x);
        }
      }
    }
  }
}
