/**
 The permission identity shared by the webhook, the registrations and the
 generated model: `group/resource.verb` or `group/resource/subresource.verb`.
 */
module Permissions {
  import opened Names

  datatype Permission = Permission(group: string, resource: string, subresource: string, verb: string)

  datatype Subresource = Subresource(name: string, verbs: seq<string>)

  datatype ParentRef = ParentRef(group: string, kind: string)

  /** What a ProtectedResource registers: a kind of one service, its permissions and its parent kinds. */
  datatype ResourceSpec = ResourceSpec(
    service: string,
    kind: string,
    plural: string,
    verbs: seq<string>,
    subresources: seq<Subresource>,
    parents: seq<ParentRef>)

  datatype ParseResult = Parsed(p: Permission) | Malformed

  function Print(p: Permission): string {
    p.group + "/" + PathOf(p) + "." + p.verb
  }

  function PathOf(p: Permission): string {
    if p.subresource == "" then p.resource else p.resource + "/" + p.subresource
  }

  /** The parts of `s` between its `c`s. */
  function Split(s: string, c: char): (parts: seq<string>)
    ensures |parts| >= 1
    ensures |parts| == 1 <==> c !in s
    ensures |parts| == 1 ==> parts[0] == s
    ensures |parts| == 2 ==> s == parts[0] + [c] + parts[1] && c !in parts[0] && c !in parts[1]
    decreases |s|
  {
    match CutAt(s, c)
    case NotFound => [s]
    case Cut(before, after) => [before] + Split(after, c)
  }

  function Parse(value: string): ParseResult {
    match CutAt(value, '/')
    case NotFound => Malformed
    case Cut(group, rest) =>
      match CutAt(rest, '.')
      case NotFound => Malformed
      case Cut(path, verb) =>
        if group == "" || path == "" || verb == "" then Malformed
        else OfParts(group, Split(path, '/'), verb)
  }

  function OfParts(group: string, parts: seq<string>, verb: string): ParseResult
    requires |parts| >= 1
  {
    if |parts| > 2 then Malformed
    else if exists part :: part in parts && !(part != "" && IsPart(part)) then Malformed
    else Parsed(Permission(group, parts[0], if |parts| == 2 then parts[1] else "", verb))
  }

  predicate IsPart(s: string) {
    '/' !in s && '.' !in s
  }

  predicate WellFormed(p: Permission) {
    && p.group != "" && '/' !in p.group
    && p.resource != "" && IsPart(p.resource) && IsPart(p.subresource)
    && p.verb != ""
  }

  lemma PartsOfPath(p: Permission)
    requires p.resource != "" && IsPart(p.resource) && IsPart(p.subresource)
    ensures OfParts(p.group, Split(PathOf(p), '/'), p.verb) == Parsed(p)
    ensures PathOf(p) != "" && '.' !in PathOf(p)
  {
    if p.subresource != "" {
      assert PathOf(p)[|p.resource|] == '/';
      CutOf(p.resource, p.subresource, '/');
      assert Split(PathOf(p), '/') == [p.resource, p.subresource];
    }
  }

  lemma PathOfParts(group: string, path: string, verb: string)
    requires OfParts(group, Split(path, '/'), verb).Parsed?
    ensures var p := OfParts(group, Split(path, '/'), verb).p;
      PathOf(p) == path && p.resource != "" && IsPart(p.resource) && IsPart(p.subresource) && p.group == group && p.verb == verb
  {
    var parts := Split(path, '/');
    assert parts[0] in parts;
    if |parts| == 2 {
      assert parts[1] in parts;
    }
  }

  /** Whatever parses is well formed, and prints back to the string it came from. */
  lemma ParsedPrintsBack(value: string)
    requires Parse(value).Parsed?
    ensures Print(Parse(value).p) == value && WellFormed(Parse(value).p)
  {
    var Cut(group, rest) := CutAt(value, '/');
    var Cut(path, verb) := CutAt(rest, '.');
    PathOfParts(group, path, verb);
    JoinsLeft(group, path, verb);
  }

  lemma JoinsLeft(group: string, path: string, verb: string)
    ensures group + ['/'] + (path + ['.'] + verb) == group + "/" + path + "." + verb
  {
  }

  /** A permission parses back to itself exactly when it is well formed. */
  lemma PrintedParsesBack(p: Permission)
    ensures Parse(Print(p)) == Parsed(p) <==> WellFormed(p)
  {
    if WellFormed(p) {
      var rest := PathOf(p) + "." + p.verb;
      assert Print(p) == p.group + "/" + rest;
      CutOf(p.group, rest, '/');
      PartsOfPath(p);
      CutOf(PathOf(p), p.verb, '.');
    } else if Parse(Print(p)) == Parsed(p) {
      ParsedPrintsBack(Print(p));
    }
  }

  lemma CutOf(before: string, after: string, c: char)
    requires c !in before
    ensures CutAt(before + [c] + after, c) == Cut(before, after)
  {
    var s := before + [c] + after;
    assert s[|before|] == c;
    SplitUnique(CutAt(s, c).before, CutAt(s, c).after, before, after, c);
  }

  // ---- Registered permissions

  /** The verbs of the first subresource of that name. */
  function SubresourceVerbs(subs: seq<Subresource>, name: string): seq<string> {
    if subs == [] then []
    else if subs[0].name == name then subs[0].verbs
    else SubresourceVerbs(subs[1..], name)
  }

  predicate IsDefined(spec: ResourceSpec, p: Permission, subresourcesOn: bool) {
    && p.group == spec.service && p.resource == spec.plural
    && (p.subresource == "" || subresourcesOn)
    && p.verb in (if p.subresource == "" then spec.verbs else SubresourceVerbs(spec.subresources, p.subresource))
  }

  method Defined(spec: ResourceSpec, p: Permission, subresourcesOn: bool) returns (defined: bool)
    ensures defined <==> IsDefined(spec, p, subresourcesOn)
  {
    if p.group != spec.service || p.resource != spec.plural {
      return false;
    }
    var verbs := spec.verbs;
    if p.subresource != "" {
      if !subresourcesOn {
        return false;
      }
      verbs := [];
      var i := 0;
      while i < |spec.subresources|
        invariant 0 <= i <= |spec.subresources|
        invariant verbs == []
        invariant SubresourceVerbs(spec.subresources, p.subresource) == SubresourceVerbs(spec.subresources[i..], p.subresource)
      {
        if spec.subresources[i].name == p.subresource {
          verbs := spec.subresources[i].verbs;
          break;
        }
        i := i + 1;
      }
    }
    for j := 0 to |verbs|
      invariant p.verb !in verbs[..j]
    {
      if verbs[j] == p.verb {
        return true;
      }
    }
    return false;
  }

  function PrintAll(service: string, plural: string, subresource: string, verbs: seq<string>): seq<string> {
    seq(|verbs|, i requires 0 <= i < |verbs| => Print(Permission(service, plural, subresource, verbs[i])))
  }

  function PrintSubresources(service: string, plural: string, subs: seq<Subresource>): seq<string> {
    if subs == [] then []
    else PrintSubresources(service, plural, subs[..|subs| - 1])
         + PrintAll(service, plural, subs[|subs| - 1].name, subs[|subs| - 1].verbs)
  }

  /** Every permission that a registration declares, in order. */
  function Enumeration(spec: ResourceSpec, subresourcesOn: bool): seq<string> {
    if spec.plural == "" then []
    else PrintAll(spec.service, spec.plural, "", spec.verbs)
         + if subresourcesOn then PrintSubresources(spec.service, spec.plural, spec.subresources) else []
  }

  method Enumerate(spec: ResourceSpec, subresourcesOn: bool) returns (out: seq<string>)
    ensures out == Enumeration(spec, subresourcesOn)
  {
    if spec.plural == "" {
      return [];
    }
    out := [];
    for i := 0 to |spec.verbs|
      invariant out == PrintAll(spec.service, spec.plural, "", spec.verbs)[..i]
    {
      out := out + [Print(Permission(spec.service, spec.plural, "", spec.verbs[i]))];
    }
    if subresourcesOn {
      var more := EnumerateSubresources(spec);
      out := out + more;
    }
  }

  method EnumerateSubresources(spec: ResourceSpec) returns (out: seq<string>)
    ensures out == PrintSubresources(spec.service, spec.plural, spec.subresources)
  {
    out := [];
    for i := 0 to |spec.subresources|
      invariant out == PrintSubresources(spec.service, spec.plural, spec.subresources[..i])
    {
      var sub := spec.subresources[i];
      var printed := [];
      for j := 0 to |sub.verbs|
        invariant printed == PrintAll(spec.service, spec.plural, sub.name, sub.verbs)[..j]
      {
        printed := printed + [Print(Permission(spec.service, spec.plural, sub.name, sub.verbs[j]))];
      }
      out := out + printed;
      assert spec.subresources[..i + 1][..i] == spec.subresources[..i];
    }
    assert spec.subresources[..|spec.subresources|] == spec.subresources;
  }

  /** The names Kubernetes admits in a registration, with no subresource declared twice. */
  predicate WellFormedSpec(spec: ResourceSpec) {
    && spec.service != "" && '/' !in spec.service
    && spec.plural != "" && IsPart(spec.plural)
    && (forall verb :: verb in spec.verbs ==> verb != "")
    && (forall sub :: sub in spec.subresources ==>
          sub.name != "" && IsPart(sub.name) && forall verb :: verb in sub.verbs ==> verb != "")
    && (forall i, j :: 0 <= i < j < |spec.subresources| ==> spec.subresources[i].name != spec.subresources[j].name)
  }

  /** A permission of the subresource at `i`, printed as `s`. */
  predicate PrintsAs(service: string, plural: string, sub: Subresource, s: string) {
    exists verb :: verb in sub.verbs && s == Print(Permission(service, plural, sub.name, verb))
  }

  lemma {:induction false} InPrintSubresources(service: string, plural: string, subs: seq<Subresource>, s: string)
    ensures s in PrintSubresources(service, plural, subs) <==> exists sub :: sub in subs && PrintsAs(service, plural, sub, s)
  {
    if subs != [] {
      var init, last := subs[..|subs| - 1], subs[|subs| - 1];
      InPrintSubresources(service, plural, init, s);
      InPrintAll(service, plural, last, s);
      if s in PrintSubresources(service, plural, init) {
        var sub :| sub in init && PrintsAs(service, plural, sub, s);
        assert sub in subs;
      }
      if sub :| sub in subs && PrintsAs(service, plural, sub, s) {
        assert sub in init || sub == last;
      }
      assert last in subs;
    }
  }

  lemma InPrintAll(service: string, plural: string, sub: Subresource, s: string)
    ensures s in PrintAll(service, plural, sub.name, sub.verbs) <==> PrintsAs(service, plural, sub, s)
  {
    var all := PrintAll(service, plural, sub.name, sub.verbs);
    if PrintsAs(service, plural, sub, s) {
      var verb :| verb in sub.verbs && s == Print(Permission(service, plural, sub.name, verb));
      var i :| 0 <= i < |sub.verbs| && sub.verbs[i] == verb;
      assert all[i] == s;
    }
  }

  lemma {:induction false} FirstOfName(subs: seq<Subresource>, i: nat)
    requires i < |subs|
    requires forall j, k :: 0 <= j < k < |subs| ==> subs[j].name != subs[k].name
    ensures SubresourceVerbs(subs, subs[i].name) == subs[i].verbs
  {
    if i > 0 {
      FirstOfName(subs[1..], i - 1);
    }
  }

  lemma {:induction false} VerbsOfSome(subs: seq<Subresource>, name: string, verb: string)
    requires verb in SubresourceVerbs(subs, name)
    ensures exists i :: 0 <= i < |subs| && subs[i].name == name && verb in subs[i].verbs
  {
    if subs[0].name == name {
      assert 0 <= 0 < |subs| && subs[0].name == name && verb in subs[0].verbs;
    } else {
      VerbsOfSome(subs[1..], name, verb);
      var i :| 0 <= i < |subs[1..]| && subs[1..][i].name == name && verb in subs[1..][i].verbs;
      assert subs[i + 1] == subs[1..][i];
    }
  }

  /** A string names a permission that a registration defines exactly when the registration enumerates it. */
  lemma DefinedIffEnumerated(spec: ResourceSpec, s: string, subresourcesOn: bool)
    requires WellFormedSpec(spec)
    ensures (Parse(s).Parsed? && IsDefined(spec, Parse(s).p, subresourcesOn)) <==> s in Enumeration(spec, subresourcesOn)
  {
    InPrintAll(spec.service, spec.plural, Subresource("", spec.verbs), s);
    InPrintSubresources(spec.service, spec.plural, spec.subresources, s);
    if Parse(s).Parsed? && IsDefined(spec, Parse(s).p, subresourcesOn) {
      ParsedPrintsBack(s);
      var p := Parse(s).p;
      if p.subresource != "" {
        VerbsOfSome(spec.subresources, p.subresource, p.verb);
        var i :| 0 <= i < |spec.subresources| && spec.subresources[i].name == p.subresource && p.verb in spec.subresources[i].verbs;
        assert PrintsAs(spec.service, spec.plural, spec.subresources[i], s);
      }
    }
    if s in PrintAll(spec.service, spec.plural, "", spec.verbs) {
      var verb :| verb in spec.verbs && s == Print(Permission(spec.service, spec.plural, "", verb));
      PrintedParsesBack(Permission(spec.service, spec.plural, "", verb));
    }
    if s in PrintSubresources(spec.service, spec.plural, spec.subresources) {
      var sub :| sub in spec.subresources && PrintsAs(spec.service, spec.plural, sub, s);
      var i :| 0 <= i < |spec.subresources| && spec.subresources[i] == sub;
      var verb :| verb in sub.verbs && s == Print(Permission(spec.service, spec.plural, sub.name, verb));
      PrintedParsesBack(Permission(spec.service, spec.plural, spec.subresources[i].name, verb));
      FirstOfName(spec.subresources, i);
    }
  }
}
