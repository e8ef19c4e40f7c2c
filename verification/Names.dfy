/**
 The names that OpenFGA tuples use: objects, users, and the strings they are
 rendered to. The rest of the model works on the structured values; the lemmas
 here justify that, because rendering loses nothing for the names Kubernetes
 admits.
 */
module Names {

  /** An OpenFGA object `type:id`. A Kubernetes object's type is `group/Kind`. */
  datatype Object = Object(typ: string, id: string)

  /** An OpenFGA user: one object, or every member of a userset `object#relation`. */
  datatype User = Entity(obj: Object) | Userset(obj: Object, relation: string)

  datatype Tuple = Tuple(user: User, relation: string, obj: Object)

  const InternalUserType := "iam.miloapis.com/InternalUser"
  const InternalUserGroupType := "iam.miloapis.com/InternalUserGroup"
  const RootType := "iam.miloapis.com/Root"

  const MemberRelation := "member"
  const AssigneeRelation := "assignee"
  const ParentRelation := "parent"

  const ResourceManagerGroup := "resourcemanager.miloapis.com"
  const ProjectKind := "Project"
  const OrganizationKind := "Organization"

  function TypeName(group: string, kind: string): string {
    group + "/" + kind
  }

  const ProjectType := TypeName(ResourceManagerGroup, ProjectKind)
  const OrganizationType := TypeName(ResourceManagerGroup, OrganizationKind)

  /** The OpenFGA object that names a Kubernetes object; it also keys its lock. */
  function ObjectName(group: string, kind: string, name: string): Object {
    Object(TypeName(group, kind), name)
  }

  /** The Root object that stands for every object of a kind. */
  function KindRoot(group: string, kind: string): Object {
    Object(RootType, TypeName(group, kind))
  }

  function Render(o: Object): string {
    o.typ + ":" + o.id
  }

  datatype CutResult = Cut(before: string, after: string) | NotFound

  /** Splits `s` around the first `c`. */
  function CutAt(s: string, c: char): (r: CutResult)
    ensures r.Cut? ==> s == r.before + [c] + r.after && c !in r.before
    ensures r.NotFound? <==> c !in s
  {
    if s == "" then NotFound
    else if s[0] == c then Cut("", s[1..])
    else
      match CutAt(s[1..], c)
      case NotFound => NotFound
      case Cut(before, after) => Cut([s[0]] + before, after)
  }

  /** Two splits around a first `c` agree. */
  lemma {:induction false} SplitUnique(a: string, b: string, x: string, y: string, c: char)
    requires c !in a && c !in x
    requires a + [c] + b == x + [c] + y
    ensures a == x && b == y
  {
    if a == "" || x == "" {
      assert (a + [c] + b)[0] == (x + [c] + y)[0];
      assert a == x == "";
      assert b == (a + [c] + b)[1..];
      assert y == (x + [c] + y)[1..];
    } else {
      assert a[0] == (a + [c] + b)[0] == (x + [c] + y)[0] == x[0];
      assert a[1..] + [c] + b == (a + [c] + b)[1..];
      assert x[1..] + [c] + y == (x + [c] + y)[1..];
      SplitUnique(a[1..], b, x[1..], y, c);
      assert a == [a[0]] + a[1..] && x == [x[0]] + x[1..];
    }
  }

  /** Cutting a rendered object at its first colon gives back its type and id. */
  lemma CutOfRender(o: Object)
    requires ':' !in o.typ
    ensures CutAt(Render(o), ':') == Cut(o.typ, o.id)
  {
    var s := Render(o);
    assert s[|o.typ|] == ':';
    var r := CutAt(s, ':');
    assert s == o.typ + [':'] + o.id;
    SplitUnique(r.before, r.after, o.typ, o.id, ':');
  }

  /** A type is its group and its kind: the first slash parts them, if the group has none. */
  lemma CutOfType(group: string, kind: string)
    requires '/' !in group
    ensures CutAt(TypeName(group, kind), '/') == Cut(group, kind)
  {
    var s := TypeName(group, kind);
    assert s == group + ['/'] + kind && s[|group|] == '/';
    var r := CutAt(s, '/');
    SplitUnique(r.before, r.after, group, kind, '/');
  }

  /**
   One Kubernetes object has one tuple name and one lock key, and two objects
   never share one: the group has no `/`, and neither part of the type a `:`.
   */
  lemma ObjectNameInjective(g1: string, k1: string, n1: string, g2: string, k2: string, n2: string)
    requires '/' !in g1 && '/' !in g2
    requires ':' !in g1 && ':' !in k1 && ':' !in g2 && ':' !in k2
    ensures Render(ObjectName(g1, k1, n1)) == Render(ObjectName(g2, k2, n2))
            <==> g1 == g2 && k1 == k2 && n1 == n2
  {
    if Render(ObjectName(g1, k1, n1)) == Render(ObjectName(g2, k2, n2)) {
      CutOfRender(ObjectName(g1, k1, n1));
      CutOfRender(ObjectName(g2, k2, n2));
      assert g1 + ['/'] + k1 == g2 + ['/'] + k2;
      SplitUnique(g1, k1, g2, k2, '/');
    }
  }
}
