/** Choosing which ranked files go into the context: pinned files first, then
    the others by density, within a number of files and a number of bytes. */
module ContextTrim {
  import opened Common
  import opened Texts

  /** A file's size in bytes, at least one; unreadable files count as infinite. */
  datatype Size = Finite(bytes: nat) | Infinite

  datatype Candidate = Candidate(path: Text, pinned: bool, size: Size)

  function Plus(a: Size, b: Size): Size {
    if a.Finite? && b.Finite? then Finite(a.bytes + b.bytes) else Infinite
  }

  predicate Exceeds(a: Size, limit: int) {
    a.Infinite? || a.bytes > limit
  }

  /** The source's order of optional files is by density; any comparison will do. */
  type Denser = (Candidate, Candidate) -> bool

  datatype Limits = Limits(files: int, bytes: int)

  /** What the selection loops have chosen, and the bytes counted for it. */
  datatype Choice = Choice(selected: seq<Candidate>, total: Size)

  function Pinned(c: seq<Candidate>): seq<Candidate> {
    if c == [] then [] else Pinned(c[..|c| - 1]) + if c[|c| - 1].pinned then [c[|c| - 1]] else []
  }

  function Optional(c: seq<Candidate>): seq<Candidate> {
    if c == [] then [] else Optional(c[..|c| - 1]) + if c[|c| - 1].pinned then [] else [c[|c| - 1]]
  }

  predicate Fits(choice: Choice, c: Candidate, limits: Limits) {
    && |choice.selected| < limits.files
    && (c.pinned || choice.selected == [] || !Exceeds(Plus(choice.total, c.size), limits.bytes))
  }

  function Take(choice: Choice, c: Candidate): Choice {
    Choice(choice.selected + [c], Plus(choice.total, c.size))
  }

  function Consider(offered: seq<Candidate>, limits: Limits): Choice {
    if offered == [] then Choice([], Finite(0))
    else
      var before, c := Consider(offered[..|offered| - 1], limits), offered[|offered| - 1];
      if Fits(before, c, limits) then Take(before, c) else before
  }

  /** The order in which candidates are offered. */
  function Offered(ranked: seq<Candidate>, denser: Denser): seq<Candidate> {
    Pinned(ranked) + SortBy(Optional(ranked), denser)
  }

  function Chosen(ranked: seq<Candidate>, limits: Limits, denser: Denser): Choice {
    Consider(Offered(ranked, denser), limits)
  }

  /** The ranked candidates that are, or are not, among `selected`, in rank order. */
  function Keep(ranked: seq<Candidate>, selected: seq<Candidate>, wanted: bool): seq<Candidate> {
    if ranked == [] then []
    else
      var last := ranked[|ranked| - 1];
      Keep(ranked[..|ranked| - 1], selected, wanted) + if (last in selected) == wanted then [last] else []
  }

  /** The result: what is read and what is trimmed, both by rank, and the bytes. */
  datatype Selection = Selection(selected: seq<Candidate>, trimmed: seq<Candidate>, bytes: Size)

  function Trimmed(ranked: seq<Candidate>, limits: Limits, denser: Denser): Selection {
    var choice := Chosen(ranked, limits, denser);
    Selection(Keep(ranked, choice.selected, true), Keep(ranked, choice.selected, false), choice.total)
  }

  // ---------------------------------------------------------------------

  /** The ranking lists each path once. */
  ghost predicate DistinctPaths(c: seq<Candidate>) {
    forall i, j | 0 <= i < j < |c| :: c[i].path != c[j].path
  }

  function SumOf(c: seq<Candidate>): Size {
    if c == [] then Finite(0) else Plus(SumOf(c[..|c| - 1]), c[|c| - 1].size)
  }

  lemma {:induction false} SumPermutes(c: seq<Candidate>, d: seq<Candidate>)
    requires multiset(c) == multiset(d)
    ensures SumOf(c) == SumOf(d)
  {
    if c == [] {
      assert |multiset(d)| == 0;
      assert d == [];
    } else {
      var last := c[|c| - 1];
      assert c == c[..|c| - 1] + [last];
      assert last in multiset(d);
      var k :| 0 <= k < |d| && d[k] == last;
      var rest := d[..k] + d[k + 1..];
      assert d == d[..k] + [last] + d[k + 1..];
      assert multiset(c) == multiset(c[..|c| - 1]) + multiset{last} && multiset(d) == multiset(rest) + multiset{last};
      assert multiset(c[..|c| - 1]) == multiset(c) - multiset{last} == multiset(rest);
      SumPermutes(c[..|c| - 1], rest);
      SumWithout(d, k);
    }
  }

  lemma {:induction false} SumWithout(d: seq<Candidate>, k: nat)
    requires k < |d|
    ensures SumOf(d) == Plus(SumOf(d[..k] + d[k + 1..]), d[k].size)
  {
    if k == |d| - 1 {
      assert d[..k] + d[k + 1..] == d[..k];
    } else {
      var init := d[..|d| - 1];
      SumWithout(init, k);
      var rest := d[..k] + d[k + 1..];
      assert rest[..|rest| - 1] == init[..k] + init[k + 1..];
    }
  }

  lemma {:induction false} OfferedConserves(ranked: seq<Candidate>)
    ensures multiset(Pinned(ranked)) + multiset(Optional(ranked)) == multiset(ranked)
    ensures (forall c | c in Pinned(ranked) :: c.pinned) && forall c | c in Optional(ranked) :: !c.pinned
  {
    if ranked != [] {
      OfferedConserves(ranked[..|ranked| - 1]);
      assert ranked == ranked[..|ranked| - 1] + [ranked[|ranked| - 1]];
    }
  }

  lemma OfferedPermutes(ranked: seq<Candidate>, denser: Denser)
    ensures multiset(Offered(ranked, denser)) == multiset(ranked)
    ensures PinnedFirst(Offered(ranked, denser))
  {
    OfferedConserves(ranked);
    SortPermutes(Optional(ranked), denser);
    SameMultisetSameElements(Optional(ranked), SortBy(Optional(ranked), denser));
    var offered, n := Offered(ranked, denser), |Pinned(ranked)|;
    forall k | n <= k < |offered| ensures !offered[k].pinned { assert offered[k] in SortBy(Optional(ranked), denser); }
    forall k | 0 <= k < n ensures offered[k].pinned { assert offered[k] in Pinned(ranked); }
  }

  ghost predicate PinnedFirst(offered: seq<Candidate>) {
    forall i, j | 0 <= i < j < |offered| && offered[j].pinned :: offered[i].pinned
  }

  /** A refused candidate would still not fit at the end. */
  ghost predicate Refused(choice: Choice, c: Candidate, limits: Limits) {
    || |choice.selected| >= limits.files
    || (!c.pinned && choice.selected != [] && Exceeds(Plus(choice.total, c.size), limits.bytes))
  }

  /** Over budget only by pinned files, or by one file that came first. */
  ghost predicate Excused(choice: Choice, limits: Limits) {
    Exceeds(choice.total, limits.bytes) ==>
      (forall c | c in choice.selected :: c.pinned) || |choice.selected| <= 1
  }

  lemma {:induction false} ConsiderCounts(offered: seq<Candidate>, limits: Limits)
    ensures var choice := Consider(offered, limits);
            && choice.total == SumOf(choice.selected)
            && |choice.selected| <= Max(0, limits.files)
            && forall c | c in choice.selected :: c in offered
  {
    if offered != [] {
      var init, c := offered[..|offered| - 1], offered[|offered| - 1];
      ConsiderCounts(init, limits);
      var before := Consider(init, limits);
      assert (before.selected + [c])[..|before.selected|] == before.selected;
    }
  }

  lemma {:induction false} ConsiderIsExcused(offered: seq<Candidate>, limits: Limits)
    requires PinnedFirst(offered)
    ensures Excused(Consider(offered, limits), limits)
  {
    if offered != [] {
      var init, c := offered[..|offered| - 1], offered[|offered| - 1];
      ConsiderIsExcused(init, limits);
      ConsiderCounts(init, limits);
      if c.pinned {
        forall d | d in init ensures d.pinned {
          var i :| 0 <= i < |init| && init[i] == d;
          assert offered[i] == d && offered[|offered| - 1].pinned;
        }
      }
    }
  }

  lemma StillRefused(before: Choice, after: Choice, c: Candidate, limits: Limits, d: Candidate)
    requires Refused(before, d, limits) && (after == before || after == Take(before, c))
    ensures Refused(after, d, limits)
  {
  }

  lemma {:induction false} ConsiderIsMaximal(offered: seq<Candidate>, limits: Limits, d: Candidate)
    requires d in offered
    ensures var choice := Consider(offered, limits);
            d in choice.selected || Refused(choice, d, limits)
  {
    var init, c := offered[..|offered| - 1], offered[|offered| - 1];
    var before := Consider(init, limits);
    if d in init {
      ConsiderIsMaximal(init, limits, d);
      if d !in before.selected { StillRefused(before, Consider(offered, limits), c, limits, d); }
    } else {
      assert d == c;
    }
  }

  lemma {:induction false} KeepPartition(ranked: seq<Candidate>, selected: seq<Candidate>)
    ensures multiset(Keep(ranked, selected, true)) + multiset(Keep(ranked, selected, false)) == multiset(ranked)
  {
    if ranked != [] {
      var init, last := ranked[..|ranked| - 1], ranked[|ranked| - 1];
      KeepPartition(init, selected);
      assert ranked == init + [last];
      var inside, outside := Keep(init, selected, true), Keep(init, selected, false);
      if last in selected {
        assert Keep(ranked, selected, true) == inside + [last] && Keep(ranked, selected, false) == outside;
      } else {
        assert Keep(ranked, selected, true) == inside && Keep(ranked, selected, false) == outside + [last];
      }
    }
  }

  lemma {:induction false} KeepExact(ranked: seq<Candidate>, selected: seq<Candidate>, wanted: bool)
    ensures forall c :: c in Keep(ranked, selected, wanted) <==> c in ranked && (c in selected) == wanted
  {
    if ranked != [] {
      KeepExact(ranked[..|ranked| - 1], selected, wanted);
      assert ranked == ranked[..|ranked| - 1] + [ranked[|ranked| - 1]];
    }
  }

  lemma {:induction false} KeepInOrder(ranked: seq<Candidate>, selected: seq<Candidate>, wanted: bool)
    ensures InOrderOf(Keep(ranked, selected, wanted), ranked)
  {
    if ranked != [] {
      KeepInOrder(ranked[..|ranked| - 1], selected, wanted);
      var init, last := Keep(ranked[..|ranked| - 1], selected, wanted), ranked[|ranked| - 1];
      if (last in selected) == wanted {
        assert (init + [last])[..|init + [last]| - 1] == init;
        assert Keep(ranked, selected, wanted) == init + [last];
      } else {
        assert Keep(ranked, selected, wanted) == init;
      }
    }
  }

  lemma {:induction false} KeepDistinct(ranked: seq<Candidate>, selected: seq<Candidate>)
    requires Distinct(ranked)
    ensures Distinct(Keep(ranked, selected, true))
  {
    if ranked != [] {
      KeepDistinct(ranked[..|ranked| - 1], selected);
      KeepExact(ranked[..|ranked| - 1], selected, true);
      var kept := Keep(ranked[..|ranked| - 1], selected, true);
      assert forall i | 0 <= i < |kept| :: kept[i] in kept;
    }
  }

  lemma {:induction false} ConsiderDistinct(offered: seq<Candidate>, limits: Limits)
    requires Distinct(offered)
    ensures Distinct(Consider(offered, limits).selected)
    ensures forall c | c in Consider(offered, limits).selected :: c in offered
  {
    if offered != [] {
      ConsiderDistinct(offered[..|offered| - 1], limits);
      var kept := Consider(offered[..|offered| - 1], limits).selected;
      assert forall i | 0 <= i < |kept| :: kept[i] in kept;
    }
  }

  lemma SelectedPermutes(ranked: seq<Candidate>, limits: Limits, denser: Denser)
    requires Distinct(ranked)
    ensures multiset(Trimmed(ranked, limits, denser).selected) == multiset(Chosen(ranked, limits, denser).selected)
  {
    var choice, kept := Chosen(ranked, limits, denser), Trimmed(ranked, limits, denser).selected;
    OfferedPermutes(ranked, denser);
    SameMultisetSameElements(ranked, Offered(ranked, denser));
    PermutationKeepsDistinct(ranked, Offered(ranked, denser));
    ConsiderDistinct(Offered(ranked, denser), limits);
    KeepExact(ranked, choice.selected, true);
    KeepDistinct(ranked, choice.selected);
    forall c ensures multiset(kept)[c] == multiset(choice.selected)[c] {
      DistinctCountsOnce(kept, c);
      DistinctCountsOnce(choice.selected, c);
      assert c in kept <==> c in multiset(kept);
      assert c in choice.selected <==> c in multiset(choice.selected);
    }
  }

  /** The selection splits the candidates into two lists that keep their rank
      order, stays within the number of files, reports the exact sum of the sizes
      selected, and is over the byte limit only by pinned files or one single
      file. No trimmed file could be added within the limits. */
  lemma SelectionIsExactAndMaximal(ranked: seq<Candidate>, limits: Limits, denser: Denser)
    requires DistinctPaths(ranked)
    ensures var s := Trimmed(ranked, limits, denser);
            && multiset(s.selected) + multiset(s.trimmed) == multiset(ranked)
            && InOrderOf(s.selected, ranked) && InOrderOf(s.trimmed, ranked)
            && |s.selected| <= Max(0, limits.files)
            && s.bytes == SumOf(s.selected)
            && (Exceeds(s.bytes, limits.bytes) ==> (forall c | c in s.selected :: c.pinned) || |s.selected| <= 1)
            && forall c | c in s.trimmed :: |s.selected| >= limits.files || Exceeds(Plus(s.bytes, c.size), limits.bytes)
  {
    var choice, s, offered := Chosen(ranked, limits, denser), Trimmed(ranked, limits, denser), Offered(ranked, denser);
    OfferedPermutes(ranked, denser);
    SameMultisetSameElements(ranked, offered);
    ConsiderCounts(offered, limits);
    ConsiderIsExcused(offered, limits);
    SelectedPermutes(ranked, limits, denser);
    SumPermutes(s.selected, choice.selected);
    SameMultisetSameElements(s.selected, choice.selected);
    assert |multiset(s.selected)| == |multiset(choice.selected)|;
    KeepPartition(ranked, choice.selected);
    KeepExact(ranked, choice.selected, false);
    KeepInOrder(ranked, choice.selected, true);
    KeepInOrder(ranked, choice.selected, false);
    forall c | c in s.trimmed
      ensures |s.selected| >= limits.files || Exceeds(Plus(s.bytes, c.size), limits.bytes)
    {
      ConsiderIsMaximal(offered, limits, c);
    }
  }

  /** Every pinned file is selected before any other, so one is trimmed only when
      pinned files alone fill the context. */
  lemma {:induction false} ConsiderPinnedFirst(offered: seq<Candidate>, limits: Limits, d: Candidate)
    requires PinnedFirst(offered) && d in offered && d.pinned && d !in Consider(offered, limits).selected
    ensures forall c | c in Consider(offered, limits).selected :: c.pinned
  {
    var init, c := offered[..|offered| - 1], offered[|offered| - 1];
    var before := Consider(init, limits);
    ConsiderCounts(offered, limits);
    if d in init {
      ConsiderPinnedFirst(init, limits, d);
      ConsiderIsMaximal(init, limits, d);
    } else {
      assert d == c;
      forall e | e in Consider(offered, limits).selected ensures e.pinned {
        var i :| 0 <= i < |offered| && offered[i] == e;
      }
    }
  }

  // ---------------------------------------------------------------------
  // Which files are selected, one by one

  /** Sizes add up; one unreadable file makes the sum infinite. */
  lemma {:induction false} SumExact(c: seq<Candidate>)
    ensures SumOf(c) == Infinite <==> exists i :: 0 <= i < |c| && c[i].size == Infinite
    ensures c != [] && SumOf(c).Finite? ==>
              var before, last := SumOf(c[..|c| - 1]), c[|c| - 1].size;
              before.Finite? && last.Finite? && SumOf(c).bytes == before.bytes + last.bytes
    ensures SumOf([]) == Finite(0)
  {
    if c != [] {
      SumExact(c[..|c| - 1]);
      if i :| 0 <= i < |c| && c[i].size == Infinite {
        if i < |c| - 1 { assert c[..|c| - 1][i] == c[i]; }
      }
    }
  }

  /** All of them together are of known size and within the limit. */
  predicate Within(c: seq<Candidate>, bytes: int) {
    SumOf(c).Finite? && SumOf(c).bytes <= bytes
  }

  /** Files are offered pinned ones first, by rank, and then the others, the denser
      before the less dense and by rank among equals. */
  lemma OfferedInOrder(ranked: seq<Candidate>, denser: Denser)
    requires Ordering(denser)
    ensures var offered, n := Offered(ranked, denser), |Pinned(ranked)|;
            && multiset(offered) == multiset(ranked)
            && (forall k | 0 <= k < |offered| :: offered[k].pinned <==> k < n)
            && InOrderOf(offered[..n], ranked) && Sorted(offered[n..], denser)
            && forall c, d | !denser(c, d) && !denser(d, c) && c != d ::
                 InOrderOf([c, d], Optional(ranked)) ==> InOrderOf([c, d], offered[n..])
  {
    OfferedPermutes(ranked, denser);
    OptionalIsNotPinned(ranked, denser);
    PinnedInOrder(ranked);
    SortSorts(Optional(ranked), denser);
    var offered, n := Offered(ranked, denser), |Pinned(ranked)|;
    assert offered[..n] == Pinned(ranked) && offered[n..] == SortBy(Optional(ranked), denser);
    forall c, d | !denser(c, d) && !denser(d, c) && c != d && InOrderOf([c, d], Optional(ranked))
      ensures InOrderOf([c, d], offered[n..])
    {
      SortIsStable(Optional(ranked), denser, c, d);
    }
  }

  lemma {:induction false} PinnedInOrder(ranked: seq<Candidate>)
    ensures InOrderOf(Pinned(ranked), ranked)
  {
    if ranked != [] {
      var init, last := ranked[..|ranked| - 1], ranked[|ranked| - 1];
      PinnedInOrder(init);
      if last.pinned {
        assert (Pinned(init) + [last])[..|Pinned(init)|] == Pinned(init);
      } else {
        assert Pinned(ranked) == Pinned(init);
      }
    }
  }

  lemma {:induction false} KeepSame(s: seq<Candidate>, a: seq<Candidate>, b: seq<Candidate>, wanted: bool)
    requires forall c | c in s :: c in a <==> c in b
    ensures Keep(s, a, wanted) == Keep(s, b, wanted)
  {
    if s != [] {
      assert s[|s| - 1] in s && forall c | c in s[..|s| - 1] :: c in s;
      KeepSame(s[..|s| - 1], a, b, wanted);
    }
  }

  lemma {:induction false} ConsiderKeeps(offered: seq<Candidate>, limits: Limits)
    requires Distinct(offered)
    ensures Keep(offered, Consider(offered, limits).selected, true) == Consider(offered, limits).selected
  {
    if offered != [] {
      var init, c := offered[..|offered| - 1], offered[|offered| - 1];
      ConsiderKeeps(init, limits);
      ConsiderCounts(init, limits);
      KeepSame(init, Consider(init, limits).selected, Consider(offered, limits).selected, true);
    }
  }

  /** A file that is offered after those before it in `offered` is selected if and
      only if there is room for one more and it is pinned, the first, or fits with
      those selected before it. */
  lemma {:induction false} SelectedExactly(offered: seq<Candidate>, limits: Limits, k: nat)
    requires Distinct(offered) && k < |offered|
    ensures var selected := Consider(offered, limits).selected;
            var before := Keep(offered[..k], selected, true);
            offered[k] in selected <==>
              |before| < limits.files && (offered[k].pinned || before == [] || Within(before + [offered[k]], limits.bytes))
    decreases |offered|
  {
    var init, c := offered[..|offered| - 1], offered[|offered| - 1];
    ConsiderCounts(init, limits);
    var before, after := Consider(init, limits).selected, Consider(offered, limits).selected;
    assert c !in init;
    if k < |init| {
      SelectedExactly(init, limits, k);
      assert init[..k] == offered[..k] && init[k] in init;
      assert forall d | d in offered[..k] :: d in init;
      KeepSame(offered[..k], before, after, true);
    } else {
      ConsiderKeeps(init, limits);
      assert offered[..k] == init;
      KeepSame(init, before, after, true);
      assert (before + [c])[..|before|] == before;
    }
  }

  // ---------------------------------------------------------------------

  lemma ConsiderNext(offered: seq<Candidate>, limits: Limits, n: nat)
    requires n < |offered|
    ensures var before := Consider(offered[..n], limits);
            Consider(offered[..n + 1], limits) == if Fits(before, offered[n], limits) then Take(before, offered[n]) else before
  {
    assert offered[..n + 1][..n] == offered[..n];
  }

  method TakePinned(pinned: seq<Candidate>, limits: Limits) returns (choice: Choice)
    requires forall k | 0 <= k < |pinned| :: pinned[k].pinned
    ensures choice == Consider(pinned, limits)
  {
    choice := Choice([], Finite(0));
    for k := 0 to |pinned|
      invariant choice == Consider(pinned[..k], limits)
    {
      ConsiderNext(pinned, limits, k);
      if |choice.selected| >= limits.files { continue; }
      choice := Take(choice, pinned[k]);
    }
    assert pinned[..|pinned|] == pinned;
  }

  method TakeOptional(ghost before: seq<Candidate>, first: Choice, optional: seq<Candidate>, limits: Limits) returns (choice: Choice)
    requires first == Consider(before, limits) && forall k | 0 <= k < |optional| :: !optional[k].pinned
    ensures choice == Consider(before + optional, limits)
  {
    choice := first;
    ghost var offered := before + optional;
    assert offered[..|before|] == before;
    for k := 0 to |optional|
      invariant choice == Consider(offered[..|before| + k], limits)
    {
      ConsiderNext(offered, limits, |before| + k);
      if |choice.selected| >= limits.files { continue; }
      if |choice.selected| > 0 && Exceeds(Plus(choice.total, optional[k].size), limits.bytes) { continue; }
      choice := Take(choice, optional[k]);
    }
    assert offered[..|offered|] == offered;
  }

  lemma OptionalIsNotPinned(ranked: seq<Candidate>, denser: Denser)
    ensures forall k | 0 <= k < |Pinned(ranked)| :: Pinned(ranked)[k].pinned
    ensures forall k | 0 <= k < |SortBy(Optional(ranked), denser)| :: !SortBy(Optional(ranked), denser)[k].pinned
  {
    OfferedConserves(ranked);
    SortPermutes(Optional(ranked), denser);
    SameMultisetSameElements(Optional(ranked), SortBy(Optional(ranked), denser));
  }

  method TrimRankedCandidatesByBudget(ranked: seq<Candidate>, limits: Limits, denser: Denser) returns (s: Selection)
    requires DistinctPaths(ranked)
    ensures s == Trimmed(ranked, limits, denser)
  {
    var pinned, optional := Pinned(ranked), SortBy(Optional(ranked), denser);
    OptionalIsNotPinned(ranked, denser);
    var choice := TakePinned(pinned, limits);
    choice := TakeOptional(pinned, choice, optional, limits);
    s := Selection(Keep(ranked, choice.selected, true), Keep(ranked, choice.selected, false), choice.total);
  }
}
