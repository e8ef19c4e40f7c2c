/**
 How our finalizer holds a Project or an Organization that tuples name.
 */
module Hold {
  import opened Names

  /**
   The finalizers that matter: ours, Milo's own two, and anybody else's. The
   model names them by constructor; their strings are distinct constants.
   */
  datatype Finalizer = Ours | MiloProject | MiloOrganization | Foreign(name: string)

  datatype OwnerRef = OwnerRef(group: string, version: string, kind: string, name: string, uid: nat)

  /** The metadata of a Kubernetes object that this protocol reads or writes. */
  datatype Resource = Resource(uid: nat, deleting: bool, finalizers: set<Finalizer>, owners: seq<OwnerRef>)

  datatype HoldState = Held | NotYet | Deleting | Replaced | Missing

  predicate IsHeldKind(group: string, kind: string) {
    group == ResourceManagerGroup && (kind == ProjectKind || kind == OrganizationKind)
  }

  predicate IsHeldType(typ: string) {
    typ == ProjectType || typ == OrganizationType
  }

  /** For a group with no slash, the type says as much as the group and the kind. */
  lemma HeldTypeIffHeldKind(group: string, kind: string)
    requires '/' !in group
    ensures IsHeldType(TypeName(group, kind)) <==> IsHeldKind(group, kind)
  {
    if TypeName(group, kind) == ProjectType {
      SplitUnique(group, kind, ResourceManagerGroup, ProjectKind, '/');
    }
    if TypeName(group, kind) == OrganizationType {
      SplitUnique(group, kind, ResourceManagerGroup, OrganizationKind, '/');
    }
  }

  /** How our finalizer holds `r`, against the UID a binding or an owner reference names. */
  function HoldOf(r: Resource, uid: nat): HoldState {
    if r.uid != uid then Replaced
    else if r.deleting then Deleting
    else if Ours in r.finalizers then Held
    else NotYet
  }

  /** Milo's own finalizers have left, so ours may clear the object. */
  predicate Drained(r: Resource) {
    MiloProject !in r.finalizers && MiloOrganization !in r.finalizers
  }

  function WithOurs(r: Resource): Resource {
    r.(finalizers := r.finalizers + {Ours})
  }

  /** The OpenFGA object of a resource's owner. */
  function ParentObject(ref: OwnerRef): Object {
    ObjectName(ref.group, ref.kind, ref.name)
  }

  const GroupVersion := "v1alpha1"

  /** The kinds whose owner reference gives a Project its parent tuple: an Organization. */
  predicate AdmittedOwner(ref: OwnerRef) {
    ref.group == ResourceManagerGroup && ref.version == GroupVersion && ref.kind == OrganizationKind
  }

  /** An admitted reference of the same resource names this object too. */
  predicate NamesAdmitted(ref: OwnerRef, refs: seq<OwnerRef>) {
    exists r :: r in refs && AdmittedOwner(r) && ParentObject(r) == ParentObject(ref)
  }

  /** The references that `keep` admits, in order. */
  function Select(refs: seq<OwnerRef>, keep: OwnerRef -> bool): seq<OwnerRef> {
    if refs == [] then []
    else
      var n := |refs| - 1;
      Select(refs[..n], keep) + if keep(refs[n]) then [refs[n]] else []
  }

  lemma {:induction false} InSelect(refs: seq<OwnerRef>, keep: OwnerRef -> bool, ref: OwnerRef)
    ensures ref in Select(refs, keep) <==> ref in refs && keep(ref)
  {
    if refs != [] {
      InSelect(refs[..|refs| - 1], keep, ref);
    }
  }

  lemma SelectMore(refs: seq<OwnerRef>, keep: OwnerRef -> bool, n: nat)
    requires n < |refs|
    ensures Select(refs[..n + 1], keep) == Select(refs[..n], keep) + if keep(refs[n]) then [refs[n]] else []
  {
    assert refs[..n + 1][..n] == refs[..n];
  }

  /** A reference is synchronised if it names an object that an admitted one names. */
  function Synchronised(refs: seq<OwnerRef>): OwnerRef -> bool {
    ref => NamesAdmitted(ref, refs)
  }

  /** The references whose parent tuples are synchronised. */
  function SyncedOwners(refs: seq<OwnerRef>): seq<OwnerRef> {
    Select(refs, Synchronised(refs))
  }

  /** The parent tuple an owner reference gives the resource `child`. */
  function ParentTuple(ref: OwnerRef, child: Object): Tuple {
    Tuple(Entity(ParentObject(ref)), ParentRelation, child)
  }
}
