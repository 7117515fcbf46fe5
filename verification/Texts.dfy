/** JavaScript strings as sequences of 16-bit code units, their default order,
    and the stable sort of the language's arrays. */
module Texts {
  import opened Common

  type CodeUnit = u: nat | u < 0x1_0000

  type Text = seq<CodeUnit>

  /** The order `Array.prototype.sort` uses by default. */
  predicate Before(a: Text, b: Text) {
    b != [] && (a == [] || a[0] < b[0] || (a[0] == b[0] && Before(a[1..], b[1..])))
  }

  lemma {:induction false} BeforeIrreflexive(a: Text)
    ensures !Before(a, a)
  {
    if a != [] { BeforeIrreflexive(a[1..]); }
  }

  lemma {:induction false} BeforeTransitive(a: Text, b: Text, c: Text)
    requires Before(a, b) && Before(b, c)
    ensures Before(a, c)
  {
    if a != [] && a[0] == b[0] == c[0] { BeforeTransitive(a[1..], b[1..], c[1..]); }
  }

  lemma {:induction false} BeforeTotal(a: Text, b: Text)
    ensures Before(a, b) || a == b || Before(b, a)
  {
    if a != [] && b != [] && a[0] == b[0] {
      BeforeTotal(a[1..], b[1..]);
      if a[1..] == b[1..] { assert a == [a[0]] + a[1..] && b == [b[0]] + b[1..]; }
    }
  }

  // ---------------------------------------------------------------------
  // Stable sorting by a comparison

  function Insert<T>(x: T, sorted: seq<T>, before: (T, T) -> bool): seq<T> {
    if sorted == [] || !before(x, sorted[|sorted| - 1]) then sorted + [x]
    else Insert(x, sorted[..|sorted| - 1], before) + [sorted[|sorted| - 1]]
  }

  function SortBy<T>(s: seq<T>, before: (T, T) -> bool): seq<T> {
    if s == [] then []
    else Insert(s[|s| - 1], SortBy(s[..|s| - 1], before), before)
  }

  ghost predicate Sorted<T>(s: seq<T>, before: (T, T) -> bool) {
    forall i, j :: 0 <= i < j < |s| ==> !before(s[j], s[i])
  }

  /** `before` is a strict weak order, as sorting demands. */
  ghost predicate Ordering<T(!new)>(before: (T, T) -> bool) {
    && (forall x, y :: before(x, y) ==> !before(y, x))
    && (forall x, y, z :: before(x, y) && !before(z, y) ==> before(x, z))
  }

  lemma {:induction false} InsertPermutes<T>(x: T, sorted: seq<T>, before: (T, T) -> bool)
    ensures multiset(Insert(x, sorted, before)) == multiset(sorted) + multiset{x}
  {
    if sorted != [] && before(x, sorted[|sorted| - 1]) {
      var init := sorted[..|sorted| - 1];
      InsertPermutes(x, init, before);
      assert sorted == init + [sorted[|sorted| - 1]];
    }
  }

  lemma {:induction false} SortPermutes<T>(s: seq<T>, before: (T, T) -> bool)
    ensures multiset(SortBy(s, before)) == multiset(s) && |SortBy(s, before)| == |s|
  {
    if s != [] {
      var init := s[..|s| - 1];
      SortPermutes(init, before);
      InsertPermutes(s[|s| - 1], SortBy(init, before), before);
      assert s == init + [s[|s| - 1]];
    }
    assert |multiset(SortBy(s, before))| == |multiset(s)|;
  }

  lemma {:induction false} InsertSorts<T(!new)>(x: T, sorted: seq<T>, before: (T, T) -> bool)
    requires Ordering(before) && Sorted(sorted, before)
    ensures Sorted(Insert(x, sorted, before), before)
  {
    if sorted != [] && before(x, sorted[|sorted| - 1]) {
      var init, last := sorted[..|sorted| - 1], sorted[|sorted| - 1];
      InsertSorts(x, init, before);
      InsertPermutes(x, init, before);
      var r := Insert(x, init, before);
      forall i | 0 <= i < |r|
        ensures !before(last, r[i])
      {
        assert r[i] in multiset(r);
        if r[i] != x {
          assert r[i] in init;
        }
      }
    }
  }

  lemma {:induction false} SortSorts<T(!new)>(s: seq<T>, before: (T, T) -> bool)
    requires Ordering(before)
    ensures Sorted(SortBy(s, before), before)
  {
    if s != [] {
      SortSorts(s[..|s| - 1], before);
      InsertSorts(s[|s| - 1], SortBy(s[..|s| - 1], before), before);
    }
  }

  function SortTexts(s: seq<Text>): seq<Text> {
    SortBy(s, Before)
  }

  lemma {:induction false} BeforeIsOrdering()
    ensures Ordering(Before)
  {
    forall x, y | Before(x, y)
      ensures !Before(y, x)
    {
      if Before(y, x) { BeforeTransitive(x, y, x); BeforeIrreflexive(x); }
    }
    forall x, y, z | Before(x, y) && !Before(z, y)
      ensures Before(x, z)
    {
      BeforeTotal(z, y);
      if z != y { BeforeTransitive(x, y, z); }
    }
  }

  lemma SortTextsSorts(s: seq<Text>)
    ensures Sorted(SortTexts(s), Before) && multiset(SortTexts(s)) == multiset(s) && |SortTexts(s)| == |s|
  {
    BeforeIsOrdering();
    SortSorts(s, Before);
    SortPermutes(s, Before);
  }

  lemma SameMultisetSameElements<T>(s: seq<T>, t: seq<T>)
    requires multiset(s) == multiset(t)
    ensures forall x :: x in s <==> x in t
  {
    forall x
      ensures x in s <==> x in t
    {
      assert x in s <==> x in multiset(s);
      assert x in t <==> x in multiset(t);
    }
  }

  lemma RepeatCountsTwice<T>(t: seq<T>, i: nat, j: nat)
    requires i < j < |t|
    ensures t[i] == t[j] ==> multiset(t)[t[i]] >= 2
  {
    assert t == t[..j] + t[j..];
    assert t[i] in t[..j] && t[j] in t[j..];
  }

  lemma PermutationKeepsDistinct<T>(s: seq<T>, t: seq<T>)
    requires multiset(s) == multiset(t) && Distinct(s)
    ensures Distinct(t)
  {
    forall i, j | 0 <= i < j < |t|
      ensures t[i] != t[j]
    {
      DistinctCountsOnce(s, t[i]);
      RepeatCountsTwice(t, i, j);
    }
  }

  lemma {:induction false} DistinctCountsOnce<T>(s: seq<T>, x: T)
    requires Distinct(s)
    ensures multiset(s)[x] <= 1
  {
    if s != [] {
      var init := s[..|s| - 1];
      DistinctCountsOnce(init, x);
      assert s == init + [s[|s| - 1]];
      if s[|s| - 1] == x { assert x !in init; assert x !in multiset(init); }
    }
  }

  // ---------------------------------------------------------------------
  // Sorting is stable

  /** `s` is what is left of `t` when some entries are removed. */
  ghost predicate InOrderOf<T(!new)>(s: seq<T>, t: seq<T>) {
    s == [] || (t != [] && (InOrderOf(s, t[..|t| - 1]) || (s[|s| - 1] == t[|t| - 1] && InOrderOf(s[..|s| - 1], t[..|t| - 1]))))
  }

  lemma {:induction false} HasMember<T(!new)>(s: seq<T>, c: T)
    ensures InOrderOf([c], s) <==> c in s
  {
    if s != [] {
      HasMember(s[..|s| - 1], c);
      assert s == s[..|s| - 1] + [s[|s| - 1]] && [c][..0] == [];
    }
  }

  lemma PairInOrder<T(!new)>(s: seq<T>, last: T, c: T, d: T)
    ensures InOrderOf([c, d], s + [last]) <==> InOrderOf([c, d], s) || (d == last && c in s)
  {
    HasMember(s, c);
    assert (s + [last])[..|s|] == s && [c, d][..1] == [c];
  }

  lemma {:induction false} InsertIsStable<T(!new)>(x: T, sorted: seq<T>, before: (T, T) -> bool, c: T, d: T)
    requires Ordering(before) && Sorted(sorted, before) && !before(c, d) && !before(d, c) && c != d
    ensures InOrderOf([c, d], sorted) || (x == d && c in sorted) ==> InOrderOf([c, d], Insert(x, sorted, before))
  {
    if sorted == [] || !before(x, sorted[|sorted| - 1]) {
      PairInOrder(sorted, x, c, d);
    } else {
      var init, last := sorted[..|sorted| - 1], sorted[|sorted| - 1];
      InsertIsStable(x, init, before, c, d);
      assert sorted == init + [last];
      PairInOrder(init, last, c, d);
      PairInOrder(Insert(x, init, before), last, c, d);
      InsertPermutes(x, init, before);
      SameMultisetSameElements(Insert(x, init, before), init + [x]);
    }
  }

  /** Elements that neither comes before the other keep their order. */
  lemma {:induction false} SortIsStable<T(!new)>(s: seq<T>, before: (T, T) -> bool, c: T, d: T)
    requires Ordering(before) && !before(c, d) && !before(d, c) && c != d && InOrderOf([c, d], s)
    ensures InOrderOf([c, d], SortBy(s, before))
  {
    var init, last := s[..|s| - 1], s[|s| - 1];
    assert s == init + [last];
    PairInOrder(init, last, c, d);
    SortSorts(init, before);
    SortPermutes(init, before);
    SameMultisetSameElements(init, SortBy(init, before));
    if InOrderOf([c, d], init) { SortIsStable(init, before, c, d); }
    InsertIsStable(last, SortBy(init, before), before, c, d);
  }

  /** The insertion-ordered set of a list. */
  function Dedupe(s: seq<Text>): (r: seq<Text>)
    ensures Distinct(r) && forall f :: f in r <==> f in s
  {
    if s == [] then []
    else
      var r := Dedupe(s[..|s| - 1]);
      if s[|s| - 1] in r then r else r + [s[|s| - 1]]
  }

  function Ascii(s: string): (t: Text)
    ensures |t| == |s|
  {
    seq(|s|, i requires 0 <= i < |s| => if s[i] as int < 0x1_0000 then s[i] as int else 0)
  }
}
