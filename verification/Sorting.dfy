/**
 Sorting and duplicate removal, as the controllers use them: Go's sort package,
 and its byte order on strings.
 */
module Sorting {

  /** Enough to sort by: values may tie. */
  ghost predicate TotalPreorder<T(!new)>(le: (T, T) -> bool) {
    && (forall x :: le(x, x))
    && (forall x, y, z :: le(x, y) && le(y, z) ==> le(x, z))
    && (forall x, y :: le(x, y) || le(y, x))
  }

  ghost predicate TotalOrder<T(!new)>(le: (T, T) -> bool) {
    TotalPreorder(le) && TieFree(le)
  }

  /** No two different values tie. */
  ghost predicate TieFree<T(!new)>(le: (T, T) -> bool) {
    forall x, y :: le(x, y) && le(y, x) ==> x == y
  }

  ghost predicate Sorted<T>(s: seq<T>, le: (T, T) -> bool) {
    forall i, j :: 0 <= i < j < |s| ==> le(s[i], s[j])
  }

  predicate Distinct<T(==)>(s: seq<T>) {
    forall i, j :: 0 <= i < j < |s| ==> s[i] != s[j]
  }

  function Insert<T>(x: T, s: seq<T>, le: (T, T) -> bool): (r: seq<T>)
    ensures multiset(r) == multiset(s) + multiset{x}
  {
    if s == [] then [x]
    else if le(x, s[0]) then [x] + s
    else
      assert s == [s[0]] + s[1..];
      [s[0]] + Insert(x, s[1..], le)
  }

  function Sort<T>(s: seq<T>, le: (T, T) -> bool): (r: seq<T>)
    ensures multiset(r) == multiset(s)
  {
    if s == [] then []
    else
      assert s == [s[0]] + s[1..];
      Insert(s[0], Sort(s[1..], le), le)
  }

  lemma SameElements<T>(s: seq<T>, r: seq<T>)
    requires multiset(s) == multiset(r)
    ensures |s| == |r| && forall x :: x in s <==> x in r
  {
    assert |multiset(s)| == |s| && |multiset(r)| == |r|;
    assert forall x :: x in s <==> x in multiset(s);
    assert forall x :: x in r <==> x in multiset(r);
  }

  lemma {:induction false} InsertSorts<T(!new)>(x: T, s: seq<T>, le: (T, T) -> bool)
    requires TotalPreorder(le) && Sorted(s, le)
    ensures Sorted(Insert(x, s, le), le)
  {
    if s != [] && !le(x, s[0]) {
      InsertSorts(x, s[1..], le);
      var rest := Insert(x, s[1..], le);
      assert multiset(rest) == multiset(s[1..] + [x]);
      SameElements(rest, s[1..] + [x]);
      forall j | 0 <= j < |rest|
        ensures le(s[0], rest[j])
      {
        assert rest[j] in rest;
        assert rest[j] in s[1..] || rest[j] == x;
      }
    }
  }

  lemma {:induction false} SortSorts<T(!new)>(s: seq<T>, le: (T, T) -> bool)
    requires TotalPreorder(le)
    ensures Sorted(Sort(s, le), le)
  {
    if s != [] {
      SortSorts(s[1..], le);
      InsertSorts(s[0], Sort(s[1..], le), le);
    }
  }

  lemma HeadsMeet<T(!new)>(s: seq<T>, r: seq<T>, le: (T, T) -> bool)
    requires Sorted(s, le) && Sorted(r, le) && s != [] && r != [] && s[0] in r && r[0] in s
    requires forall x, y :: x in s && y in s && le(x, y) && le(y, x) ==> x == y
    ensures s[0] == r[0]
  {
    var i :| 0 <= i < |r| && r[i] == s[0];
    var j :| 0 <= j < |s| && s[j] == r[0];
    assert i > 0 ==> le(r[0], r[i]);
    assert j > 0 ==> le(s[0], s[j]);
  }

  lemma TailsMatch<T(!new)>(s: seq<T>, r: seq<T>)
    requires multiset(s) == multiset(r) && s != [] && r != [] && s[0] == r[0]
    ensures multiset(s[1..]) == multiset(r[1..])
  {
    assert s == [s[0]] + s[1..] && r == [r[0]] + r[1..];
    assert multiset(s[1..]) == multiset(s) - multiset{s[0]};
    assert multiset(r[1..]) == multiset(r) - multiset{r[0]};
  }

  /** A sorted sequence is determined by its elements, when no two of them tie. */
  lemma {:induction false} SortedUnique<T(!new)>(s: seq<T>, r: seq<T>, le: (T, T) -> bool)
    requires Sorted(s, le) && Sorted(r, le) && multiset(s) == multiset(r)
    requires forall x, y :: x in s && y in s && le(x, y) && le(y, x) ==> x == y
    ensures s == r
  {
    SameElements(s, r);
    if s != [] {
      assert s[0] in s && r[0] in r;
      HeadsMeet(s, r, le);
      TailsMatch(s, r);
      SortedUnique(s[1..], r[1..], le);
      assert s == [s[0]] + s[1..] == [r[0]] + r[1..] == r;
    } else {
      assert r == [];
    }
  }

  /** Every element of `s`, at its first place. */
  function Dedup<T(==, !new)>(s: seq<T>): (r: seq<T>)
    ensures forall x :: x in r <==> x in s
    ensures Distinct(r)
  {
    if s == [] then []
    else
      var n := |s| - 1;
      var before := Dedup(s[..n]);
      assert forall x :: x in s <==> x in s[..n] || x == s[n];
      if s[n] in before then before else before + [s[n]]
  }

  lemma SortKeepsDistinct<T(!new)>(s: seq<T>, r: seq<T>)
    requires Distinct(s) && multiset(s) == multiset(r)
    ensures Distinct(r)
  {
    forall i, j | 0 <= i < j < |r|
      ensures r[i] != r[j]
    {
      if r[i] == r[j] {
        TwiceInMultiset(r, i, j);
        OnceInMultiset(s, r[i]);
      }
    }
  }

  lemma TwiceInMultiset<T>(r: seq<T>, i: nat, j: nat)
    requires i < j < |r| && r[i] == r[j]
    ensures multiset(r)[r[i]] >= 2
  {
    assert r == r[..j] + [r[j]] + r[j + 1..];
    assert r[..j][i] == r[i];
    assert multiset(r[..j])[r[i]] >= 1;
  }

  lemma {:induction false} OnceInMultiset<T>(s: seq<T>, x: T)
    requires Distinct(s)
    ensures multiset(s)[x] <= 1
  {
    if s != [] {
      OnceInMultiset(s[1..], x);
      assert s == [s[0]] + s[1..];
      if s[0] == x {
        assert x !in s[1..];
      }
    }
  }

  // ---- The order of strings

  predicate StringLe(a: string, b: string) {
    a == "" || (b != "" && (a[0] < b[0] || (a[0] == b[0] && StringLe(a[1..], b[1..]))))
  }

  /** At the first place where they differ, if they do, `a` has the smaller character, or has ended. */
  ghost predicate Precedes(a: string, b: string) {
    a <= b || exists i :: 0 <= i < |a| && i < |b| && a[..i] == b[..i] && a[i] < b[i]
  }

  lemma {:induction false} StringLeMeans(a: string, b: string)
    ensures StringLe(a, b) <==> Precedes(a, b)
  {
    if a != "" && b != "" {
      StringLeMeans(a[1..], b[1..]);
      if a[0] == b[0] {
        FirstAlike(a, b);
      } else {
        assert a[..0] == b[..0];
        if i :| 0 <= i < |a| && i < |b| && a[..i] == b[..i] && a[i] < b[i] {
          assert i > 0 ==> a[..i][0] == b[..i][0];
        }
      }
    }
  }

  lemma FirstAlike(a: string, b: string)
    requires a != "" && b != "" && a[0] == b[0]
    ensures Precedes(a, b) <==> Precedes(a[1..], b[1..])
  {
    assert a == [a[0]] + a[1..] && b == [b[0]] + b[1..];
    if i :| 0 <= i < |a| && i < |b| && a[..i] == b[..i] && a[i] < b[i] {
      assert a[1..][..i - 1] == a[..i][1..] == b[..i][1..] == b[1..][..i - 1];
      assert a[1..][i - 1] < b[1..][i - 1];
    }
    if i :| 0 <= i < |a[1..]| && i < |b[1..]| && a[1..][..i] == b[1..][..i] && a[1..][i] < b[1..][i] {
      assert a[..i + 1] == [a[0]] + a[1..][..i] && b[..i + 1] == [b[0]] + b[1..][..i];
      assert a[i + 1] < b[i + 1];
    }
  }

  /** By induction on the strings. */
  lemma StringLaws(a: string, b: string, c: string)
    ensures StringLe(a, a) && (StringLe(a, b) || StringLe(b, a))
    ensures StringLe(a, b) && StringLe(b, a) ==> a == b
    ensures StringLe(a, b) && StringLe(b, c) ==> StringLe(a, c)
  {
  }

  lemma StringOrder()
    ensures TotalOrder(StringLe)
  {
    forall a, b, c: string
      ensures StringLe(a, a) && (StringLe(a, b) || StringLe(b, a))
      ensures StringLe(a, b) && StringLe(b, a) ==> a == b
      ensures StringLe(a, b) && StringLe(b, c) ==> StringLe(a, c)
    {
      StringLaws(a, b, c);
    }
  }

  /** Pairs of strings, by the first and then by the second. */
  predicate PairLe(a: (string, string), b: (string, string)) {
    if a.0 != b.0 then StringLe(a.0, b.0) else StringLe(a.1, b.1)
  }

  lemma PairLaws(a: (string, string), b: (string, string), c: (string, string))
    ensures PairLe(a, a) && (PairLe(a, b) || PairLe(b, a))
    ensures PairLe(a, b) && PairLe(b, a) ==> a == b
    ensures PairLe(a, b) && PairLe(b, c) ==> PairLe(a, c)
  {
    StringLaws(a.0, b.0, c.0);
    StringLaws(a.1, b.1, c.1);
  }

  function SortStrings(s: seq<string>): (r: seq<string>)
    ensures multiset(r) == multiset(s)
  {
    Sort(s, StringLe)
  }

  /** Duplicates removed, then sorted: a sequence that depends only on the set of elements. */
  function Canonical(s: seq<string>): seq<string> {
    SortStrings(Dedup(s))
  }

  lemma CanonicalIs(s: seq<string>)
    ensures Sorted(Canonical(s), StringLe) && Distinct(Canonical(s))
    ensures forall x :: x in Canonical(s) <==> x in s
  {
    StringOrder();
    SortSorts(Dedup(s), StringLe);
    SortKeepsDistinct(Dedup(s), Canonical(s));
    SameElements(Dedup(s), Canonical(s));
  }

  lemma {:induction false} DistinctSameElements<T(!new)>(s: seq<T>, r: seq<T>)
    requires Distinct(s) && Distinct(r) && forall x :: x in s <==> x in r
    ensures multiset(s) == multiset(r)
  {
    forall x
      ensures multiset(s)[x] == multiset(r)[x]
    {
      OnceInMultiset(s, x);
      OnceInMultiset(r, x);
      assert (x in multiset(s) <==> x in s) && (x in multiset(r) <==> x in r);
    }
  }

  /** A sorted, duplicate-free sequence of strings is the canonical one of its elements. */
  lemma CanonicalUnique(s: seq<string>, r: seq<string>)
    requires Sorted(s, StringLe) && Distinct(s) && forall x :: x in s <==> x in r
    ensures s == Canonical(r)
  {
    CanonicalIs(r);
    DistinctSameElements(s, Canonical(r));
    StringOrder();
    SortedUnique(s, Canonical(r), StringLe);
  }
}
