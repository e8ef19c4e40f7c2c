/**
 The merge that keeps hand-written type definitions and conditions, and replaces
 what the IAM system generates.
 */
module ModelMerge {
  import opened Permissions
  import opened Sorting
  import R = ResourceGraph
  import opened Hierarchy
  import opened Snapshots
  import opened AuthorizationModel
  import opened Wrappers

  /** Definitions from the schema language: not a system type, and with no slash. */
  predicate HandWritten(d: TypeDefinition) {
    d.typ !in SystemTypes && |Split(d.typ, '/')| == 1
  }

  function Kept(types: seq<TypeDefinition>): seq<TypeDefinition> {
    if types == [] then []
    else Kept(types[..|types| - 1]) + if HandWritten(types[|types| - 1]) then [types[|types| - 1]] else []
  }

  lemma {:induction false} InKept(types: seq<TypeDefinition>, d: TypeDefinition)
    ensures d in Kept(types) <==> d in types && HandWritten(d)
  {
    if types != [] {
      InKept(types[..|types| - 1], d);
    }
  }

  function NamesOf(types: seq<TypeDefinition>): set<string> {
    set d | d in types :: d.typ
  }

  /** The definitions of types that are not present, each type's first one. */
  function Added(present: set<string>, types: seq<TypeDefinition>): seq<TypeDefinition> {
    if types == [] then []
    else
      var n := |types| - 1;
      Added(present, types[..n]) + if types[n].typ in present + NamesOf(types[..n]) then [] else [types[n]]
  }

  function Merge(current: Model, expected: Model): Model {
    var kept := Kept(current.types);
    Model(expected.schema, kept + Added(NamesOf(kept), expected.types), current.conditions)
  }

  lemma OneMoreName(types: seq<TypeDefinition>, d: TypeDefinition)
    ensures NamesOf(types + [d]) == NamesOf(types) + {d.typ}
  {
  }

  lemma OneMoreCurrent(types: seq<TypeDefinition>, i: nat)
    requires i < |types|
    ensures Kept(types[..i + 1]) == Kept(types[..i]) + if HandWritten(types[i]) then [types[i]] else []
  {
    assert types[..i + 1][..i] == types[..i];
  }

  lemma OneMoreExpected(present: set<string>, types: seq<TypeDefinition>, i: nat)
    requires i < |types|
    ensures present + NamesOf(types[..i + 1]) == present + NamesOf(types[..i]) + {types[i].typ}
    ensures types[i].typ in present + NamesOf(types[..i]) ==> present + NamesOf(types[..i + 1]) == present + NamesOf(types[..i])
    ensures Added(present, types[..i + 1]) ==
      Added(present, types[..i]) + if types[i].typ in present + NamesOf(types[..i]) then [] else [types[i]]
  {
    assert types[..i + 1][..i] == types[..i];
    assert types[..i + 1] == types[..i] + [types[i]];
    OneMoreName(types[..i], types[i]);
  }

  /** The hand-written definitions, and the types they define. */
  method KeepHandWritten(current: seq<TypeDefinition>) returns (types: seq<TypeDefinition>, existing: set<string>)
    ensures types == Kept(current) && existing == NamesOf(types)
  {
    types, existing := [], {};
    for i := 0 to |current|
      invariant types == Kept(current[..i]) && existing == NamesOf(types)
    {
      OneMoreCurrent(current, i);
      if current[i].typ in SystemTypes {
        continue;
      }
      if |Split(current[i].typ, '/')| == 1 {
        OneMoreName(types, current[i]);
        types, existing := types + [current[i]], existing + {current[i].typ};
      }
    }
    assert current[..|current|] == current;
  }

  /** The expected definitions of types that are not there yet, each type once. */
  method AddMissing(present: set<string>, expected: seq<TypeDefinition>) returns (added: seq<TypeDefinition>)
    ensures added == Added(present, expected)
  {
    added := [];
    var existing := present;
    for i := 0 to |expected|
      invariant added == Added(present, expected[..i])
      invariant existing == present + NamesOf(expected[..i])
    {
      OneMoreExpected(present, expected, i);
      if expected[i].typ !in existing {
        added, existing := added + [expected[i]], existing + {expected[i].typ};
      }
    }
    assert expected[..|expected|] == expected;
  }

  method MergeModels(current: Model, expected: Model) returns (merged: Model)
    ensures merged == Merge(current, expected)
  {
    var kept, existing := KeepHandWritten(current.types);
    var added := AddMissing(existing, expected.types);
    return Model(expected.schema, kept + added, current.conditions);
  }

  // ---- What the merge keeps

  /** A generated model: every type once, every name with a slash. */
  predicate Generated(m: Model) {
    DistinctTypes(m.types) && forall d :: d in m.types ==> '/' in d.typ
  }

  lemma AddsNew(present: set<string>, types: seq<TypeDefinition>, d: TypeDefinition)
    requires DistinctTypes(types + [d]) && d.typ !in present
    ensures Added(present, types + [d]) == Added(present, types) + [d] && DistinctTypes(types)
  {
  }

  lemma {:induction false} AddsAll(present: set<string>, types: seq<TypeDefinition>)
    requires DistinctTypes(types) && forall d :: d in types ==> d.typ !in present
    ensures Added(present, types) == types
  {
    if types != [] {
      var init, last := types[..|types| - 1], types[|types| - 1];
      assert types == init + [last];
      AddsNew(present, init, last);
      AddsAll(present, init);
    }
  }

  lemma KeptIsSlashless(types: seq<TypeDefinition>)
    ensures forall d :: d in Kept(types) ==> HandWritten(d) && '/' !in d.typ
    ensures forall t :: t in NamesOf(Kept(types)) ==> '/' !in t
  {
    forall d | d in Kept(types)
      ensures HandWritten(d)
    {
      InKept(types, d);
    }
  }

  /** Merging a generated model keeps exactly the hand-written definitions, and puts it after them. */
  lemma MergeIs(current: Model, expected: Model)
    requires Generated(expected)
    ensures Merge(current, expected) == Model(expected.schema, Kept(current.types) + expected.types, current.conditions)
  {
    KeptIsSlashless(current.types);
    AddsAll(NamesOf(Kept(current.types)), expected.types);
  }

  lemma {:induction false} KeptOfConcat(s: seq<TypeDefinition>, r: seq<TypeDefinition>)
    ensures Kept(s + r) == Kept(s) + Kept(r)
  {
    if r == [] {
      assert s + r == s;
    } else {
      var n := |r| - 1;
      assert (s + r)[..|s + r| - 1] == s + r[..n];
      KeptOfConcat(s, r[..n]);
    }
  }

  lemma KeptOfOne(d: TypeDefinition)
    ensures Kept([d]) == if HandWritten(d) then [d] else []
  {
  }

  lemma {:induction false} KeptKeepsHandWritten(types: seq<TypeDefinition>)
    requires forall d :: d in types ==> HandWritten(d)
    ensures Kept(types) == types
  {
    if types != [] {
      var init, last := types[..|types| - 1], types[|types| - 1];
      assert types == init + [last];
      KeptKeepsHandWritten(init);
      KeptOfConcat(init, [last]);
      KeptOfOne(last);
    }
  }

  lemma {:induction false} KeptDropsGenerated(types: seq<TypeDefinition>)
    requires forall d :: d in types ==> '/' in d.typ
    ensures Kept(types) == []
  {
    if types != [] {
      KeptDropsGenerated(types[..|types| - 1]);
    }
  }

  /** The hand-written definitions and the conditions survive every merge, in order and unchanged, and no others do. */
  lemma HandWrittenSurvive(current: Model, expected: Model)
    requires Generated(expected)
    ensures Kept(Merge(current, expected).types) == Kept(current.types)
    ensures Merge(current, expected).conditions == current.conditions
  {
    KeptIsSlashless(current.types);
    MergeIs(current, expected);
    KeptOfConcat(Kept(current.types), expected.types);
    KeptKeepsHandWritten(Kept(current.types));
    KeptDropsGenerated(expected.types);
  }

  lemma MergeIdempotent(current: Model, expected: Model)
    requires Generated(expected)
    ensures Merge(Merge(current, expected), expected) == Merge(current, expected)
  {
    HandWrittenSurvive(current, expected);
    MergeIs(current, expected);
    MergeIs(Merge(current, expected), expected);
  }

  lemma {:induction false} DefOfConcat(s: seq<TypeDefinition>, r: seq<TypeDefinition>, t: string)
    ensures DefOf(s + r, t) == if DefOf(r, t).Some? then DefOf(r, t) else DefOf(s, t)
  {
    if r == [] {
      assert s + r == s;
    } else {
      assert (s + r)[..|s + r| - 1] == s + r[..|r| - 1];
      DefOfConcat(s, r[..|r| - 1], t);
    }
  }

  /** For a type with a slash, the merged model defines what the generated one does. */
  lemma MergeServes(current: Model, expected: Model, t: string)
    requires Generated(expected) && '/' in t
    ensures DefOf(Merge(current, expected).types, t) == DefOf(expected.types, t)
  {
    KeptIsSlashless(current.types);
    MergeIs(current, expected);
    DefOfConcat(Kept(current.types), expected.types, t);
    FoundIsThere(Kept(current.types), t);
  }

  // ---- The expected model

  function Expected(prs: seq<R.ProtectedResource>, g: R.Graph, on: bool, hash: Hash): Model
    requires prs == [] || R.ResourceGraphOf(g, on).Ok?
  {
    if prs == [] then MinimalModel else ModelOf(g, on, hash)
  }

  lemma SystemTypesHaveSlash()
    ensures forall t :: t in SystemTypes ==> '/' in t
  {
  }

  lemma ExpectedIsGenerated(prs: seq<R.ProtectedResource>, g: R.Graph, on: bool, hash: Hash)
    requires prs == [] || (R.ResourceGraphOf(g, on).Ok? && Sound(g))
    ensures Generated(Expected(prs, g, on, hash))
  {
    SystemTypesHaveSlash();
    SystemTypesDiffer();
    if prs != [] {
      ModelAssembled(g, on, hash);
      ModelTypesHaveSlash(g, on, hash);
    }
  }

  lemma ModelTypesHaveSlash(g: R.Graph, on: bool, hash: Hash)
    requires R.ResourceGraphOf(g, on).Ok? && Sound(g)
    ensures forall d :: d in ModelOf(g, on, hash).types ==> '/' in d.typ
  {
    var types := ModelOf(g, on, hash).types;
    SystemTypesHaveSlash();
    GraphTypeList(g, on);
    ModelAssembled(g, on, hash);
    forall d | d in types
      ensures '/' in d.typ
    {
      var i :| 0 <= i < |types| && types[i] == d;
      FoundOnce(types, i);
    }
  }

  /** The expected model does not depend on the order in which the registrations are listed. */
  lemma ExpectedIsOrderless(prs: seq<R.ProtectedResource>, others: seq<R.ProtectedResource>, g: R.Graph, h: R.Graph,
                            on: bool, hash: Hash)
    requires multiset(prs) == multiset(others) && DistinctNames(prs)
    requires R.Describes(g, InOrder(prs)) && R.Describes(h, InOrder(others))
    ensures R.ResourceGraphOf(g, on) == R.ResourceGraphOf(h, on)
    ensures R.ResourceGraphOf(g, on).Ok? ==> Expected(prs, g, on, hash) == Expected(others, h, on, hash)
  {
    OneOrder(prs, others);
    GraphsAgree(g, h, InOrder(prs), InOrder(others));
    HierarchiesAgree(g, h, on);
    SameElements(prs, others);
    if R.ResourceGraphOf(g, on).Ok? {
      ModelsAgree(g, h, on, hash);
    }
  }

  lemma ModelsAgree(g: R.Graph, h: R.Graph, on: bool, hash: Hash)
    requires Agree(g, h) && R.ResourceGraphOf(g, on).Ok?
    ensures R.ResourceGraphOf(h, on).Ok? && ModelOf(g, on, hash) == ModelOf(h, on, hash)
  {
    HierarchiesAgree(g, h, on);
    DefinitionsAgree(g, h, hash, HierarchyOf(g, on), ModelTypes(g, on));
  }

  lemma DefinitionsAgree(g: R.Graph, h: R.Graph, hash: Hash, hierarchy: map<string, seq<string>>, types: seq<string>)
    requires Agree(g, h)
    ensures DefinitionList(g, hash, hierarchy, types) == DefinitionList(h, hash, hierarchy, types)
  {
    var s, r := DefinitionList(g, hash, hierarchy, types), DefinitionList(h, hash, hierarchy, types);
    forall i | 0 <= i < |types|
      ensures s[i] == r[i]
    {
      assert DeclaredParents(g, types[i]) == DeclaredParents(h, types[i]);
    }
  }

  // ---- Comparing models

  predicate ByType(a: TypeDefinition, b: TypeDefinition) {
    StringLe(a.typ, b.typ)
  }

  /** The user types of a relation are a set: their order is not compared. */
  predicate SameDefinition(a: TypeDefinition, b: TypeDefinition) {
    && a.typ == b.typ && a.relations == b.relations && a.related.Keys == b.related.Keys
    && forall k :: k in a.related ==> multiset(a.related[k]) == multiset(b.related[k])
  }

  /** The comparison before a write: types are compared in type order. */
  predicate ModelsEqual(a: Model, b: Model) {
    var s, r := Sort(a.types, ByType), Sort(b.types, ByType);
    && a.schema == b.schema && a.conditions == b.conditions && |s| == |r|
    && forall i :: 0 <= i < |s| ==> SameDefinition(s[i], r[i])
  }

  /** `t` is defined once at most. */
  predicate Once(types: seq<TypeDefinition>, t: string) {
    forall i, j :: 0 <= i < j < |types| && types[i].typ == t ==> types[j].typ != t
  }

  lemma {:induction false} FoundOnly(types: seq<TypeDefinition>, d: TypeDefinition)
    requires d in types && Once(types, d.typ)
    ensures DefOf(types, d.typ) == Some(d)
  {
    var n := |types| - 1;
    if types[n] != d {
      var i :| 0 <= i < n && types[i] == d;
      assert types[..n][i] == d;
      FoundOnly(types[..n], d);
    }
  }

  lemma {:induction false} FoundSome(types: seq<TypeDefinition>, d: TypeDefinition)
    requires d in types
    ensures DefOf(types, d.typ).Some?
  {
    var n := |types| - 1;
    if types[n].typ != d.typ {
      assert d in types[..n];
      FoundSome(types[..n], d);
    }
  }

  lemma Counterpart(a: Model, b: Model, d: TypeDefinition) returns (e: TypeDefinition)
    requires ModelsEqual(a, b) && d in a.types
    ensures e in b.types && SameDefinition(d, e)
  {
    var s, r := Sort(a.types, ByType), Sort(b.types, ByType);
    SameElements(a.types, s);
    SameElements(b.types, r);
    var i :| 0 <= i < |s| && s[i] == d;
    e := r[i];
    assert e in r;
  }

  lemma CounterpartBack(a: Model, b: Model, e: TypeDefinition) returns (d: TypeDefinition)
    requires ModelsEqual(a, b) && e in b.types
    ensures d in a.types && SameDefinition(d, e)
  {
    var s, r := Sort(a.types, ByType), Sort(b.types, ByType);
    SameElements(a.types, s);
    SameElements(b.types, r);
    var i :| 0 <= i < |r| && r[i] == e;
    d := s[i];
    assert d in s;
  }

  /** Models that compare equal define a type alike, if the second defines it once at most. */
  lemma EqualIsAlike(a: Model, b: Model, t: string)
    requires ModelsEqual(a, b) && Once(b.types, t)
    ensures Alike(DefOf(a.types, t), DefOf(b.types, t))
  {
    FoundIsThere(a.types, t);
    FoundIsThere(b.types, t);
    if DefOf(a.types, t).Some? {
      var e := Counterpart(a, b, DefOf(a.types, t).value);
      FoundOnly(b.types, e);
    } else if DefOf(b.types, t).Some? {
      var d := CounterpartBack(a, b, DefOf(b.types, t).value);
      FoundSome(a.types, d);
    }
  }

  function TypeNames(types: seq<TypeDefinition>): (names: seq<string>)
    ensures |names| == |types| && forall i :: 0 <= i < |types| ==> names[i] == types[i].typ
  {
    seq(|types|, i requires 0 <= i < |types| => types[i].typ)
  }

  lemma TypesSort(types: seq<TypeDefinition>)
    ensures Sorted(TypeNames(Sort(types, ByType)), StringLe)
  {
    StringOrder();
    assert TotalPreorder(ByType);
    SortSorts(types, ByType);
  }

  lemma SortKeepsOnce(types: seq<TypeDefinition>)
    requires DistinctTypes(types)
    ensures Distinct(TypeNames(Sort(types, ByType)))
    ensures forall d :: d in Sort(types, ByType) ==> DefOf(types, d.typ) == Some(d)
  {
    var s := Sort(types, ByType);
    SameElements(types, s);
    SortKeepsDistinct(types, s);
    forall d | d in s
      ensures DefOf(types, d.typ) == Some(d)
    {
      FoundOnly(types, d);
    }
    forall i, j | 0 <= i < j < |s|
      ensures s[i].typ != s[j].typ
    {
      assert s[i] in s && s[j] in s;
    }
  }

  lemma SortedNames(types: seq<TypeDefinition>, t: string)
    requires DistinctTypes(types)
    ensures t in TypeNames(Sort(types, ByType)) <==> DefOf(types, t).Some?
  {
    var s := Sort(types, ByType);
    SameElements(types, s);
    if DefOf(types, t).Some? {
      FoundIsThere(types, t);
      NamedIn(s, DefOf(types, t).value);
    }
    if t in TypeNames(s) {
      SortKeepsOnce(types);
      var i :| 0 <= i < |s| && TypeNames(s)[i] == t;
      assert s[i] in s;
    }
  }

  lemma NamedIn(types: seq<TypeDefinition>, d: TypeDefinition)
    requires d in types
    ensures d.typ in TypeNames(types)
  {
    var i :| 0 <= i < |types| && types[i] == d;
    assert TypeNames(types)[i] == d.typ;
  }

  /** Both orders have the same types at the same places. */
  lemma AlikeSortsAlike(a: Model, b: Model)
    requires DistinctTypes(a.types) && DistinctTypes(b.types)
    requires forall t :: DefOf(a.types, t).Some? <==> DefOf(b.types, t).Some?
    ensures TypeNames(Sort(a.types, ByType)) == TypeNames(Sort(b.types, ByType))
  {
    var s, r := TypeNames(Sort(a.types, ByType)), TypeNames(Sort(b.types, ByType));
    forall t
      ensures t in s <==> t in r
    {
      SortedNames(a.types, t);
      SortedNames(b.types, t);
    }
    TypesSort(a.types);
    TypesSort(b.types);
    SortKeepsOnce(a.types);
    SortKeepsOnce(b.types);
    CanonicalUnique(s, r);
    CanonicalUnique(r, r);
  }

  /** One schema, the same conditions, and every type defined alike. */
  ghost predicate SameModel(a: Model, b: Model) {
    a.schema == b.schema && a.conditions == b.conditions && forall t :: Alike(DefOf(a.types, t), DefOf(b.types, t))
  }

  /** Models of distinct types compare equal exactly when they are the same but for orders. */
  lemma EqualIffSame(a: Model, b: Model)
    requires DistinctTypes(a.types) && DistinctTypes(b.types)
    ensures ModelsEqual(a, b) <==> SameModel(a, b)
  {
    if ModelsEqual(a, b) {
      forall t
        ensures Alike(DefOf(a.types, t), DefOf(b.types, t))
      {
        EqualIsAlike(a, b, t);
      }
    }
    if SameModel(a, b) {
      AlikeIsEqual(a, b);
    }
  }

  lemma AlikeIsEqual(a: Model, b: Model)
    requires DistinctTypes(a.types) && DistinctTypes(b.types) && SameModel(a, b)
    ensures ModelsEqual(a, b)
  {
    var s, r := Sort(a.types, ByType), Sort(b.types, ByType);
    AlikeSortsAlike(a, b);
    assert |TypeNames(s)| == |TypeNames(r)|;
    forall i | 0 <= i < |s|
      ensures SameDefinition(s[i], r[i])
    {
      assert s[i].typ == TypeNames(s)[i] == TypeNames(r)[i] == r[i].typ;
      assert s[i] in s && r[i] in r;
      SortKeepsOnce(a.types);
      SortKeepsOnce(b.types);
      assert Alike(DefOf(a.types, s[i].typ), DefOf(b.types, r[i].typ));
    }
  }

  /** What one reconcile leaves in the store. */
  function Settled(current: Model, expected: Model): Model {
    if ModelsEqual(current, Merge(current, expected)) then current else Merge(current, expected)
  }

  lemma MergedOnce(current: Model, expected: Model, t: string)
    requires Generated(expected) && '/' in t
    ensures Once(Merge(current, expected).types, t)
  {
    MergeIs(current, expected);
    KeptIsSlashless(current.types);
  }

  lemma NotKeptHasSlash(d: TypeDefinition)
    ensures HandWritten(d) <==> '/' !in d.typ
  {
    SystemTypesHaveSlash();
  }

  lemma FoundLast(init: seq<TypeDefinition>, last: TypeDefinition, t: string)
    ensures DefOf(init + [last], t) == if last.typ == t then Some(last) else DefOf(init, t)
  {
    assert (init + [last])[..|init|] == init;
  }

  lemma KeptServesMore(init: seq<TypeDefinition>, last: TypeDefinition, t: string)
    requires '/' !in t && DefOf(Kept(init), t) == DefOf(init, t)
    ensures DefOf(Kept(init + [last]), t) == DefOf(init + [last], t)
  {
    KeptOfConcat(init, [last]);
    KeptOfOne(last);
    NotKeptHasSlash(last);
    FoundLast(init, last, t);
    FoundLast(Kept(init), last, t);
    assert Kept(init) + [] == Kept(init);
  }

  lemma Regroup(first: seq<TypeDefinition>, rest: seq<TypeDefinition>)
    requires rest != []
    ensures first + [rest[0]] + rest[1..] == first + rest
  {
  }

  /** What is kept defines every slashless type as before, if it does so for the first ones. */
  lemma {:induction false} KeptServes(first: seq<TypeDefinition>, rest: seq<TypeDefinition>, t: string)
    requires '/' !in t && DefOf(Kept(first), t) == DefOf(first, t)
    ensures DefOf(Kept(first + rest), t) == DefOf(first + rest, t)
    decreases rest
  {
    if rest == [] {
      assert first + rest == first;
    } else {
      KeptServesMore(first, rest[0], t);
      KeptServes(first + [rest[0]], rest[1..], t);
      Regroup(first, rest);
    }
  }

  /**
   What a reconcile leaves: for every type with a slash exactly the relations, the
   usersets and the user types of the expected model, and no type that it does not
   have; every other type, and the conditions, as they were.
   */
  ghost predicate Serves(settled: Model, current: Model, expected: Model) {
    && settled.schema == expected.schema && settled.conditions == current.conditions
    && (forall t :: '/' in t ==> Alike(DefOf(settled.types, t), DefOf(expected.types, t)))
    && (forall t :: '/' !in t ==> DefOf(settled.types, t) == DefOf(current.types, t))
  }

  lemma MergedServes(current: Model, expected: Model)
    requires Generated(expected)
    ensures Serves(Merge(current, expected), current, expected)
  {
    MergeIs(current, expected);
    forall t | '/' in t
      ensures DefOf(Merge(current, expected).types, t) == DefOf(expected.types, t)
    {
      MergeServes(current, expected, t);
    }
    forall t | '/' !in t
      ensures DefOf(Merge(current, expected).types, t) == DefOf(current.types, t)
    {
      DefOfConcat(Kept(current.types), expected.types, t);
      KeptServes([], current.types, t);
      assert [] + current.types == current.types;
      FoundIsThere(expected.types, t);
    }
  }

  lemma SettledServes(current: Model, expected: Model)
    requires Generated(expected)
    ensures Serves(Settled(current, expected), current, expected)
  {
    MergedServes(current, expected);
    if ModelsEqual(current, Merge(current, expected)) {
      forall t | '/' in t
        ensures Alike(DefOf(current.types, t), DefOf(expected.types, t))
      {
        MergedOnce(current, expected, t);
        EqualIsAlike(current, Merge(current, expected), t);
        MergeServes(current, expected, t);
      }
    }
  }

  lemma SettledStays(current: Model, expected: Model)
    requires Generated(expected)
    ensures ModelsEqual(Settled(current, expected), Merge(Settled(current, expected), expected))
  {
    MergeIdempotent(current, expected);
  }

  /** After one reconcile a second one, from any listing of the same registrations, writes nothing. */
  lemma SecondReconcileWritesNothing(current: Model, prs: seq<R.ProtectedResource>, others: seq<R.ProtectedResource>,
                                     g: R.Graph, h: R.Graph, on: bool, hash: Hash)
    requires multiset(prs) == multiset(others) && DistinctNames(prs)
    requires R.SlashlessTypes(prs) && NoSystemTypes(prs)
    requires R.Describes(g, InOrder(prs)) && R.Describes(h, InOrder(others))
    requires R.ResourceGraphOf(g, on).Ok?
    ensures R.ResourceGraphOf(h, on).Ok?
    ensures var settled := Settled(current, Expected(prs, g, on, hash));
      ModelsEqual(settled, Merge(settled, Expected(others, h, on, hash)))
  {
    SortedIsSame(prs);
    DescribedIsSound(g, InOrder(prs));
    ExpectedIsOrderless(prs, others, g, h, on, hash);
    ExpectedIsGenerated(prs, g, on, hash);
    SettledStays(current, Expected(prs, g, on, hash));
  }

  datatype Outcome = UpToDate | Written | Failed

  datatype StoredModel = StoredModel(id: string, model: Model)

  /** What the calls of one reconcile come to: the read, the write with its new ID, and the publication of the ID. */
  datatype Replies = Replies(read: bool, written: Option<string>, published: bool)

  /** The newest authorization model of the store, if it has one, and the model ID in the ConfigMap. */
  class ModelStore {
    var latest: Option<StoredModel>
    var published: string
    var writes: nat

    /** A ConfigMap to publish to is configured. */
    const publishes: bool

    constructor (publishes: bool)
      ensures this.publishes == publishes && latest == None && published == "" && writes == 0
    {
      this.publishes := publishes;
      latest, published, writes := None, "", 0;
    }

    function Current(): Model
      reads this
    {
      if latest.Some? then latest.value.model else Model("", [], map[])
    }

    function CurrentID(): string
      reads this
    {
      if latest.Some? then latest.value.id else ""
    }

    method Publish(id: string, answered: bool) returns (ok: bool)
      modifies this`published
      ensures ok <==> answered || !publishes || id == ""
      ensures published == if ok && publishes && id != "" then id else old(published)
    {
      if !publishes || id == "" {
        return true;
      }
      if answered {
        published := id;
      }
      return answered;
    }

    /** Writes the merged model if it differs, and publishes the ID of what the store then has. */
    method Settle(merged: Model, replies: Replies) returns (outcome: Outcome)
      modifies this
      ensures ModelsEqual(old(Current()), merged) ==>
        && latest == old(latest) && writes == old(writes)
        && outcome == if publishes && old(CurrentID()) != "" && !replies.published then Failed else UpToDate
      ensures !ModelsEqual(old(Current()), merged) && replies.written.None? ==>
        outcome == Failed && Unchanged(old(latest), old(published), old(writes))
      ensures !ModelsEqual(old(Current()), merged) && replies.written.Some? ==>
        && latest == Some(StoredModel(replies.written.value, merged)) && writes == old(writes) + 1
        && outcome == if publishes && replies.written.value != "" && !replies.published then Failed else Written
      ensures outcome != Failed && publishes && CurrentID() != "" ==> published == CurrentID()
      ensures published == old(published) || (outcome != Failed && publishes && published == CurrentID())
    {
      if ModelsEqual(Current(), merged) {
        var known := Publish(CurrentID(), replies.published);
        return if known then UpToDate else Failed;
      }
      if replies.written.None? {
        return Failed;
      }
      latest, writes := Some(StoredModel(replies.written.value, merged)), writes + 1;
      var known := Publish(replies.written.value, replies.published);
      return if known then Written else Failed;
    }

    /**
     Settles the store's model on the merge of what it has and what the
     registrations give, and publishes its ID. A failed read, build or write
     changes nothing; a failed publication leaves the model settled.
     */
    method ReconcileAuthorizationModel(prs: seq<R.ProtectedResource>, on: bool, hash: Hash, replies: Replies)
      returns (outcome: Outcome, ghost g: R.Graph)
      requires R.SlashlessTypes(prs) && NoSystemTypes(prs)
      modifies this
      ensures prs != [] && replies.read ==> R.Describes(g, InOrder(prs))
      ensures !Builds(prs, g, on, replies) ==> outcome == Failed && Unchanged(old(latest), old(published), old(writes))
      ensures Builds(prs, g, on, replies) && ModelsEqual(old(Current()), Merge(old(Current()), Expected(prs, g, on, hash))) ==>
        && latest == old(latest) && writes == old(writes)
        && outcome == if publishes && old(CurrentID()) != "" && !replies.published then Failed else UpToDate
      ensures Builds(prs, g, on, replies) && !ModelsEqual(old(Current()), Merge(old(Current()), Expected(prs, g, on, hash))) ==>
        if replies.written.None? then outcome == Failed && Unchanged(old(latest), old(published), old(writes))
        else
          && latest == Some(StoredModel(replies.written.value, Merge(old(Current()), Expected(prs, g, on, hash))))
          && writes == old(writes) + 1
          && outcome == if publishes && replies.written.value != "" && !replies.published then Failed else Written
      ensures outcome != Failed ==> Current() == Settled(old(Current()), Expected(prs, g, on, hash))
      ensures outcome != Failed ==> Serves(Current(), old(Current()), Expected(prs, g, on, hash))
      ensures outcome != Failed && publishes && CurrentID() != "" ==> published == CurrentID()
      ensures published == old(published) || (outcome != Failed && publishes && published == CurrentID())
    {
      if !replies.read {
        return Failed, R.Graph(map[], map[], []);
      }
      var current := Current();
      var built;
      built, g := CreateExpectedAuthorizationModel(prs, on, hash);
      if !built.Ok? {
        return Failed, g;
      }
      SortedIsSame(prs);
      if prs != [] {
        DescribedIsSound(g, InOrder(prs));
      }
      ExpectedIsGenerated(prs, g, on, hash);
      SettledServes(current, Expected(prs, g, on, hash));
      var merged := MergeModels(current, built.value);
      outcome := Settle(merged, replies);
    }

    predicate Unchanged(wasLatest: Option<StoredModel>, wasPublished: string, wasWrites: nat)
      reads this
    {
      latest == wasLatest && published == wasPublished && writes == wasWrites
    }
  }

  /** The model could be read, and the expected one built. */
  predicate Builds(prs: seq<R.ProtectedResource>, g: R.Graph, on: bool, replies: Replies) {
    replies.read && (prs == [] || R.ResourceGraphOf(g, on).Ok?)
  }
}
