/**
 How a PolicyBinding becomes tuples: one for each subject and permission, on the
 binding's target. Bindings share tuples, so each one removes only what no
 sibling still wants.
 */
module PolicyReconciler {
  import opened Names
  import opened Permissions
  import opened Roles
  import opened Wrappers

  datatype Subject = Subject(kind: string, name: string, uid: string)

  datatype Selector =
    | ResourceRef(group: string, kind: string, name: string)
    | ResourceKind(group: string, kind: string)
    | Unspecified

  /** A Role as a binding reads it: its own permissions, and those the role controller has computed for it. */
  datatype BoundRole = BoundRole(deleting: bool, included: seq<string>, effective: seq<string>)

  datatype PolicyBinding = PolicyBinding(
    namespace: string,
    name: string,
    deleting: bool,
    selector: Selector,
    subjects: seq<Subject>,
    role: RoleKey)

  /**
   What a reconcile reads besides tuples: the flag, the permission hash, the
   bindings, the Roles, and the permissions valid on each resource type.
   */
  datatype Cluster = Cluster(
    subresourcesOn: bool,
    hash: string -> string,
    bindings: seq<PolicyBinding>,
    roles: map<RoleKey, BoundRole>,
    valid: string -> set<string>)

  // ---- Names

  const SystemPrefix := "system:"

  function Escaped(s: string): string {
    seq(|s|, i requires 0 <= i < |s| => if s[i] == ':' then '_' else s[i])
  }

  /** The OpenFGA user of a subject, if it has one. */
  function TupleUser(s: Subject): Option<User> {
    if s.kind == "User" then
      if s.uid == "" then None else Some(Entity(Object(InternalUserType, s.name)))
    else if s.kind == "ServiceAccount" then
      if s.uid == "" then None else Some(Entity(Object(InternalUserType, s.uid)))
    else if s.kind == "Group" then
      if SystemPrefix <= s.name then Some(Userset(Object(InternalUserGroupType, Escaped(s.name)), MemberRelation))
      else if s.uid == "" then None
      else Some(Userset(Object(InternalUserGroupType, s.uid), MemberRelation))
    else None
  }

  function TargetObject(selector: Selector): Option<Object> {
    match selector
    case ResourceRef(group, kind, name) => Some(ObjectName(group, kind, name))
    case ResourceKind(group, kind) => Some(KindRoot(group, kind))
    case Unspecified => None
  }

  /** The resource type whose valid permissions a selector's tuples are limited to. */
  function TargetType(selector: Selector): string
    requires !selector.Unspecified?
  {
    TypeName(selector.group, selector.kind)
  }

  // ---- What a binding is for, in terms of its fields and of its Role's

  /** `escaped` is `name` with an underscore for every colon. */
  predicate IsEscaped(escaped: string, name: string) {
    |escaped| == |name| && forall i :: 0 <= i < |name| ==> escaped[i] == (if name[i] == ':' then '_' else name[i])
  }

  /**
   The OpenFGA user of a subject: a User by its name, a ServiceAccount by its UID,
   the members of a Group by its UID, and those of a system group by its name.
   Only a system group needs no UID.
   */
  predicate IsUserOf(s: Subject, user: User) {
    match s.kind
    case "User" => s.uid != "" && user == Entity(Object("iam.miloapis.com/InternalUser", s.name))
    case "ServiceAccount" => s.uid != "" && user == Entity(Object("iam.miloapis.com/InternalUser", s.uid))
    case "Group" =>
      && user.Userset? && user.relation == "member" && user.obj.typ == "iam.miloapis.com/InternalUserGroup"
      && if "system:" <= s.name then IsEscaped(user.obj.id, s.name) else s.uid != "" && user.obj.id == s.uid
    case _ => false
  }

  /** `o` is the object that the selector names: a resource, or the Root object of a kind. */
  predicate IsTarget(selector: Selector, o: Object) {
    match selector
    case ResourceRef(group, kind, name) => o == Object(TypeName(group, kind), name)
    case ResourceKind(group, kind) => o == Object("iam.miloapis.com/Root", TypeName(group, kind))
    case Unspecified => false
  }

  predicate CoversUser(b: PolicyBinding, user: User) {
    exists s :: s in b.subjects && IsUserOf(s, user)
  }

  /** The tuples a binding reads and may change: those of its subjects, on its target. */
  predicate Manages(b: PolicyBinding, t: Tuple) {
    IsTarget(b.selector, t.obj) && CoversUser(b, t.user)
  }

  /** The Role can be read, and with the flag on it is not being deleted. */
  predicate HasRole(cl: Cluster, b: PolicyBinding) {
    && b.role.namespace != "" && b.role in cl.roles
    && !(cl.subresourcesOn && cl.roles[b.role].deleting)
  }

  /** The Role holds the permission: effectively, or by itself while nothing effective has been computed. */
  predicate RoleGrants(cl: Cluster, b: PolicyBinding, permission: string) {
    && HasRole(cl, b)
    && var role := cl.roles[b.role];
       permission in role.effective || (role.effective == [] && permission in role.included)
  }

  /**
   With the flag on, exactly the permissions valid on the target are written. With
   the flag off, none of a subresource is, and an empty valid set limits nothing.
   */
  predicate Writable(subresourcesOn: bool, valid: set<string>, permission: string) {
    if subresourcesOn then permission in valid
    else
      && (valid == {} || permission in valid)
      && match Parse(permission)
         case Parsed(Permission(_, _, subresource, _)) => subresource == ""
         case Malformed => true
  }

  /** The binding wants `t` of its user, if the permissions `valid` are valid on the target. */
  ghost predicate WantsOf(cl: Cluster, b: PolicyBinding, valid: set<string>, t: Tuple) {
    && Resolve(b.subjects) && CoversUser(b, t.user)
    && exists permission :: RoleGrants(cl, b, permission) && Writable(cl.subresourcesOn, valid, permission)
                            && t.relation == cl.hash(permission)
  }

  // ---- The tuples of a binding

  function FetchRole(cl: Cluster, b: PolicyBinding): Option<BoundRole> {
    if b.role.namespace == "" || b.role !in cl.roles then None
    else if cl.subresourcesOn && cl.roles[b.role].deleting then None
    else Some(cl.roles[b.role])
  }

  function Effective(role: BoundRole): seq<string> {
    if role.effective == [] then role.included else role.effective
  }

  predicate NamesSubresource(permission: string) {
    Parse(permission).Parsed? && Parse(permission).p.subresource != ""
  }

  /** The permissions of `permissions` that `keep` admits, as tuples of one user. */
  function Grants(hash: string -> string, user: User, permissions: seq<string>, target: Object, keep: string -> bool): seq<Tuple> {
    if permissions == [] then []
    else
      var n := |permissions| - 1;
      Grants(hash, user, permissions[..n], target, keep)
      + if keep(permissions[n]) then [Tuple(user, hash(permissions[n]), target)] else []
  }

  function Keeps(cl: Cluster, valid: set<string>): string -> bool {
    permission => Writable(cl.subresourcesOn, valid, permission)
  }

  predicate Resolve(subjects: seq<Subject>) {
    forall s :: s in subjects ==> TupleUser(s).Some?
  }

  function GrantsOfEach(hash: string -> string, subjects: seq<Subject>, permissions: seq<string>, target: Object,
                        keep: string -> bool): seq<Tuple>
    requires Resolve(subjects)
  {
    if subjects == [] then []
    else
      var n := |subjects| - 1;
      GrantsOfEach(hash, subjects[..n], permissions, target, keep)
      + Grants(hash, TupleUser(subjects[n]).value, permissions, target, keep)
  }

  /** Every grant of a binding, unless one of its subjects has no OpenFGA user. */
  function GrantsOfAll(cl: Cluster, b: PolicyBinding, role: BoundRole, target: Object, valid: set<string>): Option<seq<Tuple>> {
    if Resolve(b.subjects) then Some(GrantsOfEach(cl.hash, b.subjects, Effective(role), target, Keeps(cl, valid))) else None
  }

  method BuildPermissionTuples(cl: Cluster, b: PolicyBinding, role: BoundRole, target: Object, valid: set<string>)
    returns (tuples: Option<seq<Tuple>>)
    ensures tuples == GrantsOfAll(cl, b, role, target, valid)
  {
    var all := [];
    for i := 0 to |b.subjects|
      invariant Resolve(b.subjects[..i])
      invariant all == GrantsOfEach(cl.hash, b.subjects[..i], Effective(role), target, Keeps(cl, valid))
    {
      var s := b.subjects[i];
      if TupleUser(s).None? {
        assert s in b.subjects;
        return None;
      }
      var more := GrantUser(cl, TupleUser(s).value, Effective(role), target, valid);
      OneMoreSubject(cl.hash, b.subjects, i, Effective(role), target, Keeps(cl, valid));
      all := all + more;
    }
    assert b.subjects[..|b.subjects|] == b.subjects;
    return Some(all);
  }

  lemma OneMoreSubject(hash: string -> string, subjects: seq<Subject>, i: nat, permissions: seq<string>, target: Object,
                       keep: string -> bool)
    requires i < |subjects| && Resolve(subjects[..i]) && TupleUser(subjects[i]).Some?
    ensures Resolve(subjects[..i + 1])
    ensures GrantsOfEach(hash, subjects[..i + 1], permissions, target, keep)
            == GrantsOfEach(hash, subjects[..i], permissions, target, keep)
               + Grants(hash, TupleUser(subjects[i]).value, permissions, target, keep)
  {
    assert subjects[..i + 1][..i] == subjects[..i];
  }

  lemma OneMoreGrant(hash: string -> string, user: User, permissions: seq<string>, j: nat, target: Object, keep: string -> bool)
    requires j < |permissions|
    ensures Grants(hash, user, permissions[..j + 1], target, keep)
            == Grants(hash, user, permissions[..j], target, keep)
               + if keep(permissions[j]) then [Tuple(user, hash(permissions[j]), target)] else []
  {
    assert permissions[..j + 1][..j] == permissions[..j];
  }

  method GrantUser(cl: Cluster, user: User, permissions: seq<string>, target: Object, valid: set<string>)
    returns (tuples: seq<Tuple>)
    ensures tuples == Grants(cl.hash, user, permissions, target, Keeps(cl, valid))
  {
    tuples := [];
    for j := 0 to |permissions|
      invariant tuples == Grants(cl.hash, user, permissions[..j], target, Keeps(cl, valid))
    {
      OneMoreGrant(cl.hash, user, permissions, j, target, Keeps(cl, valid));
      var permission := permissions[j];
      if NamesSubresource(permission) && !cl.subresourcesOn {
        continue;
      }
      if (cl.subresourcesOn || valid != {}) && permission !in valid {
        continue;
      }
      tuples := tuples + [Tuple(user, cl.hash(permission), target)];
    }
    assert permissions[..|permissions|] == permissions;
  }

  /** What a binding wants in the store, given its Role. */
  function Desired(cl: Cluster, b: PolicyBinding): Option<seq<Tuple>>
    requires !b.selector.Unspecified?
  {
    match FetchRole(cl, b)
    case None => None
    case Some(role) => GrantsOfAll(cl, b, role, TargetObject(b.selector).value, cl.valid(TargetType(b.selector)))
  }

  lemma UserMeans(s: Subject, user: User)
    ensures TupleUser(s) == Some(user) <==> IsUserOf(s, user)
  {
    if s.kind == "Group" && SystemPrefix <= s.name {
      assert IsEscaped(Escaped(s.name), s.name);
      if IsUserOf(s, user) {
        assert user.obj.id == Escaped(s.name);
      }
    }
  }

  lemma CoversMeans(b: PolicyBinding, user: User)
    ensures CoversUser(b, user) <==> exists s :: s in b.subjects && TupleUser(s) == Some(user)
  {
    forall s
      ensures TupleUser(s) == Some(user) <==> IsUserOf(s, user)
    {
      UserMeans(s, user);
    }
  }

  lemma SubjectOf(b: PolicyBinding, user: User) returns (s: Subject)
    requires CoversUser(b, user)
    ensures s in b.subjects && TupleUser(s) == Some(user)
  {
    s :| s in b.subjects && IsUserOf(s, user);
    UserMeans(s, user);
  }

  lemma TargetMeans(selector: Selector, o: Object)
    ensures TargetObject(selector) == Some(o) <==> IsTarget(selector, o)
  {
  }

  lemma RoleMeans(cl: Cluster, b: PolicyBinding, permission: string)
    ensures FetchRole(cl, b).Some? <==> HasRole(cl, b)
    ensures RoleGrants(cl, b, permission) <==> FetchRole(cl, b).Some? && permission in Effective(FetchRole(cl, b).value)
  {
  }

  lemma {:induction false} InGrants(hash: string -> string, user: User, permissions: seq<string>, target: Object,
                                    keep: string -> bool, t: Tuple)
    ensures t in Grants(hash, user, permissions, target, keep) <==>
      exists permission :: permission in permissions && keep(permission) && t == Tuple(user, hash(permission), target)
  {
    if permissions != [] {
      var n := |permissions| - 1;
      InGrants(hash, user, permissions[..n], target, keep, t);
      assert forall p :: p in permissions <==> p in permissions[..n] || p == permissions[n];
    }
  }

  lemma {:induction false} InGrantsOfEach(hash: string -> string, subjects: seq<Subject>, permissions: seq<string>,
                                          target: Object, keep: string -> bool, t: Tuple)
    requires Resolve(subjects)
    ensures t in GrantsOfEach(hash, subjects, permissions, target, keep) <==>
      && (exists s :: s in subjects && TupleUser(s) == Some(t.user))
      && t.obj == target
      && (exists permission :: permission in permissions && keep(permission) && t.relation == hash(permission))
  {
    if subjects != [] {
      var n := |subjects| - 1;
      InGrantsOfEach(hash, subjects[..n], permissions, target, keep, t);
      InGrants(hash, TupleUser(subjects[n]).value, permissions, target, keep, t);
      assert forall s :: s in subjects <==> s in subjects[..n] || s == subjects[n];
    }
  }

  lemma GrantedIff(cl: Cluster, b: PolicyBinding, target: Object, valid: set<string>, t: Tuple)
    requires FetchRole(cl, b).Some? && Resolve(b.subjects)
    ensures t in GrantsOfAll(cl, b, FetchRole(cl, b).value, target, valid).value <==> t.obj == target && WantsOf(cl, b, valid, t)
  {
    var permissions := Effective(FetchRole(cl, b).value);
    InGrantsOfEach(cl.hash, b.subjects, permissions, target, Keeps(cl, valid), t);
    CoversMeans(b, t.user);
    forall permission
      ensures RoleGrants(cl, b, permission) <==> permission in permissions
    {
      RoleMeans(cl, b, permission);
    }
  }

  /**
   A binding wants a tuple exactly when it covers the user, targets the object,
   and its Role holds a writable permission of that relation.
   */
  lemma WantsIff(cl: Cluster, b: PolicyBinding, t: Tuple)
    requires !b.selector.Unspecified?
    ensures Desired(cl, b).Some? <==> HasRole(cl, b) && Resolve(b.subjects)
    ensures Desired(cl, b).Some? ==> (t in Desired(cl, b).value <==>
      IsTarget(b.selector, t.obj) && WantsOf(cl, b, cl.valid(TypeName(b.selector.group, b.selector.kind)), t))
  {
    RoleMeans(cl, b, "");
    TargetMeans(b.selector, t.obj);
    if Desired(cl, b).Some? {
      GrantedIff(cl, b, TargetObject(b.selector).value, cl.valid(TargetType(b.selector)), t);
    }
  }

  // ---- Differences

  function Missing(xs: seq<Tuple>, ys: seq<Tuple>): (zs: seq<Tuple>)
    ensures forall t :: t in zs <==> t in xs && t !in ys
  {
    if xs == [] then []
    else Missing(xs[..|xs| - 1], ys) + if xs[|xs| - 1] in ys then [] else [xs[|xs| - 1]]
  }

  method Without(xs: seq<Tuple>, ys: seq<Tuple>) returns (zs: seq<Tuple>)
    ensures zs == Missing(xs, ys)
  {
    zs := [];
    for i := 0 to |xs|
      invariant zs == Missing(xs[..i], ys)
    {
      assert xs[..i + 1][..i] == xs[..i];
      var found := false;
      for j := 0 to |ys|
        invariant found <==> xs[i] in ys[..j]
      {
        if xs[i] == ys[j] {
          found := true;
          break;
        }
      }
      if !found {
        zs := zs + [xs[i]];
      }
    }
    assert xs[..|xs|] == xs;
  }

  /** The tuples to add and to remove, each in its list's order. */
  method DiffTuples(existing: seq<Tuple>, current: seq<Tuple>) returns (added: seq<Tuple>, removed: seq<Tuple>)
    ensures added == Missing(current, existing) && removed == Missing(existing, current)
  {
    removed := Without(existing, current);
    added := Without(current, existing);
  }

  // ---- Siblings

  predicate SameBinding(b: PolicyBinding, other: PolicyBinding) {
    b.namespace == other.namespace && b.name == other.name
  }

  predicate SharesSubject(b: PolicyBinding, other: PolicyBinding) {
    exists s, r :: s in b.subjects && r in other.subjects && s.kind == r.kind && s.name == r.name
  }

  /** Another live binding with the same target and a common subject. */
  predicate IsSibling(b: PolicyBinding, other: PolicyBinding) {
    && !other.deleting && (other.namespace != b.namespace || other.name != b.name)
    && TargetObject(other.selector) == TargetObject(b.selector) && SharesSubject(b, other)
  }

  /** What the siblings of `b` among `others` still want. A sibling whose Role is missing wants nothing. */
  function SiblingsWant(cl: Cluster, b: PolicyBinding, others: seq<PolicyBinding>, target: Object, valid: set<string>): seq<Tuple> {
    if others == [] then []
    else
      var n := |others| - 1;
      var before := SiblingsWant(cl, b, others[..n], target, valid);
      if !IsSibling(b, others[n]) || FetchRole(cl, others[n]).None? then before
      else
        match GrantsOfAll(cl, others[n], FetchRole(cl, others[n]).value, target, valid)
        case None => before
        case Some(tuples) => before + tuples
  }

  lemma LastSiblingWants(cl: Cluster, b: PolicyBinding, others: seq<PolicyBinding>, target: Object, valid: set<string>, t: Tuple)
    requires others != []
    ensures var init, last := others[..|others| - 1], others[|others| - 1];
      t in SiblingsWant(cl, b, others, target, valid) <==>
        t in SiblingsWant(cl, b, init, target, valid) || (t.obj == target && IsSibling(b, last) && WantsOf(cl, last, valid, t))
  {
    var last := others[|others| - 1];
    RoleMeans(cl, last, "");
    if FetchRole(cl, last).Some? && Resolve(last.subjects) {
      GrantedIff(cl, last, target, valid, t);
    }
  }

  /** What the siblings want: a tuple of the shared target that one of them wants. */
  lemma {:induction false} SiblingsWantIff(cl: Cluster, b: PolicyBinding, others: seq<PolicyBinding>, target: Object,
                                           valid: set<string>, t: Tuple)
    ensures t in SiblingsWant(cl, b, others, target, valid) <==>
      t.obj == target && exists other :: other in others && IsSibling(b, other) && WantsOf(cl, other, valid, t)
  {
    if others != [] {
      var init, last := others[..|others| - 1], others[|others| - 1];
      SiblingsWantIff(cl, b, init, target, valid, t);
      LastSiblingWants(cl, b, others, target, valid, t);
      assert forall other :: other in others <==> other in init || other == last;
    }
  }

  /** A sibling whose Role reference has no namespace fails the read; a Role that is only missing does not. */
  predicate SiblingsReadable(b: PolicyBinding, others: seq<PolicyBinding>) {
    forall other :: other in others && IsSibling(b, other) ==> other.role.namespace != ""
  }

  function KindsAndNames(b: PolicyBinding): set<(string, string)> {
    set s | s in b.subjects :: (s.kind, s.name)
  }

  method Overlaps(kinds: set<(string, string)>, other: PolicyBinding) returns (overlap: bool)
    ensures overlap <==> exists r :: r in other.subjects && (r.kind, r.name) in kinds
  {
    for j := 0 to |other.subjects|
      invariant forall r :: r in other.subjects[..j] ==> (r.kind, r.name) !in kinds
    {
      if (other.subjects[j].kind, other.subjects[j].name) in kinds {
        return true;
      }
    }
    return false;
  }

  method SiblingDesiredTuples(cl: Cluster, b: PolicyBinding, target: Object, valid: set<string>)
    returns (wanted: Option<seq<Tuple>>)
    requires TargetObject(b.selector) == Some(target)
    ensures wanted ==
      if SiblingsReadable(b, cl.bindings) then Some(SiblingsWant(cl, b, cl.bindings, target, valid)) else None
  {
    var kinds := KindsAndNames(b);
    var desired := [];
    for i := 0 to |cl.bindings|
      invariant desired == SiblingsWant(cl, b, cl.bindings[..i], target, valid)
      invariant SiblingsReadable(b, cl.bindings[..i])
    {
      assert cl.bindings[..i + 1][..i] == cl.bindings[..i];
      var other := cl.bindings[i];
      assert other in cl.bindings;
      if TargetObject(other.selector) != Some(target) || other.deleting || SameBinding(b, other) {
        continue;
      }
      var overlap := Overlaps(kinds, other);
      if !overlap {
        continue;
      }
      if other.role.namespace == "" {
        return None;
      }
      var role := FetchRole(cl, other);
      if role.None? {
        continue;
      }
      var tuples := BuildPermissionTuples(cl, other, role.value, target, valid);
      if tuples.Some? {
        desired := desired + tuples.value;
      }
    }
    assert cl.bindings[..|cl.bindings|] == cl.bindings;
    return Some(desired);
  }

  // ---- One reconcile

  datatype Result = Reconciled | TargetNotHeld | Failed

  /** The guard's answer. `TargetHeld` also stands for a target whose kind has no guard, and takes tuples unasked. */
  datatype GuardReply = TargetHeld | TargetFree | TargetUnreadable

  /** What the calls of one reconcile come to: its reads, the graph build, the target guard, and the write. */
  datatype Replies = Replies(answered: bool, graph: bool, guard: GuardReply, write: bool)

  predicate Specified(b: PolicyBinding) {
    !b.selector.Unspecified?
  }

  function Target(b: PolicyBinding): Object
    requires Specified(b)
  {
    TargetObject(b.selector).value
  }

  function ValidFor(cl: Cluster, b: PolicyBinding): set<string>
    requires Specified(b)
  {
    cl.valid(TargetType(b.selector))
  }

  lemma DesiredIsManaged(cl: Cluster, b: PolicyBinding)
    requires Specified(b) && Desired(cl, b).Some?
    ensures forall t :: t in Desired(cl, b).value ==> Manages(b, t)
  {
    forall t | t in Desired(cl, b).value
      ensures Manages(b, t)
    {
      WantsIff(cl, b, t);
    }
  }

  /** With the flag on, a binding whose Role is gone loses its tuples. */
  predicate Revokes(cl: Cluster, b: PolicyBinding) {
    Specified(b) && FetchRole(cl, b).None? && cl.subresourcesOn && b.role.namespace != ""
  }

  predicate NothingToDelete(cl: Cluster, b: PolicyBinding, tuples: set<Tuple>)
    requires Specified(b)
  {
    forall t :: t in tuples && Manages(b, t) ==> t in SiblingsWant(cl, b, cl.bindings, Target(b), ValidFor(cl, b))
  }

  /**
   When a deletion succeeds: the graph and the siblings matter only if there is
   something to look at, the write only if there is something to delete.
   */
  predicate Deletes(cl: Cluster, b: PolicyBinding, tuples: set<Tuple>, replies: Replies) {
    && Specified(b) && Resolve(b.subjects) && replies.answered
    && ((forall t :: t in tuples ==> !Manages(b, t))
        || (replies.graph && SiblingsReadable(b, cl.bindings) && (replies.write || NothingToDelete(cl, b, tuples))))
  }

  // ---- What one reconcile has to do

  /** Some tuple that the binding wants is missing. */
  predicate MustAdd(cl: Cluster, b: PolicyBinding, tuples: set<Tuple>)
    requires Specified(b) && Desired(cl, b).Some?
  {
    exists t :: t in Desired(cl, b).value && t !in tuples
  }

  /** Some tuple of the binding's subjects on its target is not one that it wants. */
  predicate MustAskSiblings(cl: Cluster, b: PolicyBinding, tuples: set<Tuple>)
    requires Specified(b) && Desired(cl, b).Some?
  {
    exists t :: t in tuples && Manages(b, t) && t !in Desired(cl, b).value
  }

  /** Such a tuple is wanted by no sibling either. */
  predicate MustRemove(cl: Cluster, b: PolicyBinding, tuples: set<Tuple>)
    requires Specified(b) && Desired(cl, b).Some?
  {
    exists t :: t in tuples && Manages(b, t) && t !in Desired(cl, b).value
                && t !in SiblingsWant(cl, b, cl.bindings, Target(b), ValidFor(cl, b))
  }

  /** Everything a reconcile reads before it writes can be read. */
  predicate ReadsAnswer(cl: Cluster, b: PolicyBinding, tuples: set<Tuple>, replies: Replies) {
    && replies.graph && replies.answered && Specified(b) && Desired(cl, b).Some?
    && (MustAskSiblings(cl, b, tuples) ==> SiblingsReadable(b, cl.bindings))
  }

  function TuplesOf(store: set<Tuple>, user: User, target: Object): set<Tuple> {
    set t | t in store && t.user == user && t.obj == target
  }

  function AsSet(tuples: seq<Tuple>): set<Tuple> {
    set t | t in tuples
  }

  /** The OpenFGA store, and the reconciles that run against it one at a time. */
  class PolicyStore {
    var tuples: set<Tuple>

    /** Every tuple of one user on the target, in some order. */
    method ReadTuples(user: User, target: Object) returns (found: seq<Tuple>)
      ensures AsSet(found) == TuplesOf(tuples, user, target)
    {
      found := [];
      var left := TuplesOf(tuples, user, target);
      while left != {}
        invariant AsSet(found) + left == TuplesOf(tuples, user, target)
        decreases left
      {
        var t :| t in left;
        found, left := found + [t], left - {t};
      }
    }

    method GetExistingTuples(b: PolicyBinding, target: Object) returns (all: Option<seq<Tuple>>)
      ensures all.Some? <==> Resolve(b.subjects)
      ensures all.Some? ==> forall t :: t in all.value <==> t in tuples && t.obj == target && CoversUser(b, t.user)
    {
      var found := [];
      for i := 0 to |b.subjects|
        invariant forall s :: s in b.subjects[..i] ==> TupleUser(s).Some?
        invariant forall t :: t in found <==>
          t in tuples && t.obj == target && exists s :: s in b.subjects[..i] && TupleUser(s) == Some(t.user)
      {
        var user := TupleUser(b.subjects[i]);
        if user.None? {
          return None;
        }
        var more := ReadTuples(user.value, target);
        assert forall t :: t in more <==> t in AsSet(more);
        assert forall s :: s in b.subjects[..i + 1] <==> s in b.subjects[..i] || s == b.subjects[i];
        found := found + more;
      }
      forall t: Tuple
        ensures CoversUser(b, t.user) <==> exists s :: s in b.subjects && TupleUser(s) == Some(t.user)
      {
        CoversMeans(b, t.user);
      }
      return Some(found);
    }

    method Write(added: seq<Tuple>, removed: seq<Tuple>)
      modifies this
      ensures tuples == old(tuples) - AsSet(removed) + AsSet(added)
    {
      tuples := tuples - AsSet(removed) + AsSet(added);
    }

    /**
     Removes the tuples of the binding's subjects on its target that no sibling
     wants, and nothing else.
     */
    method DeletePolicy(cl: Cluster, b: PolicyBinding, replies: Replies) returns (done: bool)
      modifies this
      ensures done <==> Deletes(cl, b, old(tuples), replies)
      ensures !done ==> tuples == old(tuples)
      ensures done ==> forall t :: Manages(b, t) ==>
        (t in tuples <==> t in old(tuples) && t in SiblingsWant(cl, b, cl.bindings, Target(b), ValidFor(cl, b)))
      ensures done ==> forall t :: !Manages(b, t) ==> (t in tuples <==> t in old(tuples))
    {
      if b.selector.Unspecified? || !replies.answered {
        return false;
      }
      var existing := GetExistingTuples(b, Target(b));
      if existing.None? {
        return false;
      }
      if existing.value == [] {
        return true;
      }
      assert existing.value[0] in existing.value;
      if !replies.graph {
        return false;
      }
      var wanted := SiblingDesiredTuples(cl, b, Target(b), ValidFor(cl, b));
      if wanted.None? {
        return false;
      }
      var _, toDelete := DiffTuples(existing.value, wanted.value);
      if toDelete == [] {
        assert forall t :: t in existing.value ==> t in wanted.value;
        return true;
      }
      assert toDelete[0] in toDelete;
      if !replies.write {
        return false;
      }
      Write([], toDelete);
      return true;
    }

    /**
     Leaves, of the tuples of the binding's subjects on its target, exactly what
     the binding wants and whatever a sibling wants of what was there. Tuples are
     added only to a target that the guard holds; what only goes is removed
     whatever the guard would say. A failure changes nothing, but for the
     revocation of a binding whose Role is gone.
     */
    method ReconcilePolicy(cl: Cluster, b: PolicyBinding, replies: Replies) returns (r: Result)
      modifies this
      ensures r == Reconciled ==> Specified(b) && Desired(cl, b).Some? && replies.graph && replies.answered
      ensures r == Reconciled ==> forall t :: Manages(b, t) ==>
        (t in tuples <==>
          || t in Desired(cl, b).value
          || (t in old(tuples) && t in SiblingsWant(cl, b, cl.bindings, Target(b), ValidFor(cl, b))))
      ensures forall t :: !Manages(b, t) ==> (t in tuples <==> t in old(tuples))
      ensures r == Reconciled <==>
        && ReadsAnswer(cl, b, old(tuples), replies)
        && (MustAdd(cl, b, old(tuples)) ==> replies.guard == TargetHeld)
        && (MustAdd(cl, b, old(tuples)) || MustRemove(cl, b, old(tuples)) ==> replies.write)
      ensures r == TargetNotHeld <==>
        ReadsAnswer(cl, b, old(tuples), replies) && MustAdd(cl, b, old(tuples)) && replies.guard == TargetFree
      ensures (exists t :: t in tuples && t !in old(tuples)) ==> replies.guard == TargetHeld
      ensures tuples != old(tuples) ==> replies.write
      ensures r == TargetNotHeld ==> tuples == old(tuples)
      ensures r == Failed ==>
        || !Specified(b) || Desired(cl, b).None? || !SiblingsReadable(b, cl.bindings)
        || !replies.answered || !replies.graph || !replies.write || replies.guard == TargetUnreadable
      ensures Revokes(cl, b) ==> r == Failed
      ensures r == Failed && !(Revokes(cl, b) && replies.graph && Deletes(cl, b, old(tuples), replies)) ==> tuples == old(tuples)
      ensures Revokes(cl, b) && replies.graph && Deletes(cl, b, old(tuples), replies) ==> forall t :: Manages(b, t) ==>
        (t in tuples <==> t in old(tuples) && t in SiblingsWant(cl, b, cl.bindings, Target(b), ValidFor(cl, b)))
    {
      if b.selector.Unspecified? || !replies.graph || !replies.answered {
        return Failed;
      }
      var role := FetchRole(cl, b);
      if role.None? {
        if cl.subresourcesOn && b.role.namespace != "" {
          var _ := DeletePolicy(cl, b, replies);
        }
        return Failed;
      }
      var desired := BuildPermissionTuples(cl, b, role.value, Target(b), ValidFor(cl, b));
      if desired.None? {
        return Failed;
      }
      var existing := GetExistingTuples(b, Target(b));
      if existing.None? {
        return Failed;
      }
      DesiredIsManaged(cl, b);
      var readable, added, removed := Differences(cl, b, existing.value, desired.value);
      if !readable {
        return Failed;
      }
      if added == [] && removed == [] {
        return Reconciled;
      }
      r := WriteGuarded(added, removed, replies);
    }

    /** The tuples to add, and those to remove: the siblings are asked only about tuples that the binding does not want. */
    method Differences(cl: Cluster, b: PolicyBinding, existing: seq<Tuple>, desired: seq<Tuple>)
      returns (readable: bool, added: seq<Tuple>, removed: seq<Tuple>)
      requires Specified(b) && Desired(cl, b) == Some(desired)
      requires forall t :: t in existing <==> t in tuples && Manages(b, t)
      requires forall t :: t in desired ==> Manages(b, t)
      ensures readable <==> (MustAskSiblings(cl, b, tuples) ==> SiblingsReadable(b, cl.bindings))
      ensures forall t :: t in added <==> t in desired && t !in tuples
      ensures readable ==> forall t :: t in removed <==>
        && t in tuples && Manages(b, t) && t !in desired
        && t !in SiblingsWant(cl, b, cl.bindings, Target(b), ValidFor(cl, b))
      ensures added != [] <==> MustAdd(cl, b, tuples)
      ensures readable ==> (removed != [] <==> MustRemove(cl, b, tuples))
    {
      added, removed := DiffTuples(existing, desired);
      assert added != [] ==> added[0] in added;
      if removed == [] {
        return true, added, removed;
      }
      assert removed[0] in removed;
      var wanted := SiblingDesiredTuples(cl, b, Target(b), ValidFor(cl, b));
      if wanted.None? {
        return false, added, removed;
      }
      removed := Without(removed, wanted.value);
      assert removed != [] ==> removed[0] in removed;
      return true, added, removed;
    }

    /** Asks the guard before a write that adds tuples. */
    method WriteGuarded(added: seq<Tuple>, removed: seq<Tuple>, replies: Replies) returns (r: Result)
      modifies this
      ensures r == if added != [] && replies.guard == TargetUnreadable then Failed
        else if added != [] && replies.guard == TargetFree then TargetNotHeld
        else if replies.write then Reconciled else Failed
      ensures tuples == if r == Reconciled then old(tuples) - AsSet(removed) + AsSet(added) else old(tuples)
    {
      if added != [] && replies.guard == TargetUnreadable {
        return Failed;
      }
      if added != [] && replies.guard == TargetFree {
        return TargetNotHeld;
      }
      if !replies.write {
        return Failed;
      }
      Write(added, removed);
      return Reconciled;
    }
  }
}
