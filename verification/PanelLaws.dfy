/** Which findings a panel takes for one defect, and what that makes block. */
module PanelLaws {
  import opened Common
  import opened Texts
  import opened ReviewIssues
  import opened ReviewPanel

  /** Two findings close enough to be one defect: same file, same folded category,
      and both without a line or at most three lines apart. */
  predicate Near(fold: Fold, a: Issue, b: Issue) {
    && a.path == b.path && fold(a.category) == fold(b.category)
    && (a.line.Some? <==> b.line.Some?)
    && (a.line.Some? ==> a.line.value - b.line.value <= 3 && b.line.value - a.line.value <= 3)
  }

  lemma NearIsSameDefect(fold: Fold, a: Issue, b: Issue)
    ensures Near(fold, a, b) <==> IsSameDefect(fold, a, b)
  {
  }

  lemma FindNear(fold: Fold, buckets: seq<Bucket>, i: Issue) returns (k: nat)
    ensures k <= |buckets| && forall j | 0 <= j < k :: !Near(fold, Lead(buckets[j]), i)
    ensures k < |buckets| ==> Near(fold, Lead(buckets[k]), i)
  {
    k := 0;
    while k < |buckets| && !Near(fold, Lead(buckets[k]), i)
      invariant k <= |buckets| && forall j | 0 <= j < k :: !Near(fold, Lead(buckets[j]), i)
    {
      k := k + 1;
    }
  }

  /** A finding joins the first group whose lead is near it, and opens a new group
      at the end only when no lead is. */
  lemma JoinsFirstNear(fold: Fold, findings: seq<Finding>, f: Finding) returns (k: nat)
    ensures var before, after := Buckets(fold, findings), Buckets(fold, findings + [f]);
            && k <= |before| && (forall i | 0 <= i < k :: !Near(fold, Lead(before[i]), f.issue))
            && (k < |before| ==> Near(fold, Lead(before[k]), f.issue))
            && after == if k < |before| then before[k := before[k] + [f]] else before + [[f]]
  {
    var before := Buckets(fold, findings);
    assert (findings + [f])[..|findings|] == findings;
    k := FindNear(fold, before, f.issue);
    forall i: nat | i <= k && i < |before|
      ensures Near(fold, Lead(before[i]), f.issue) <==> IsSameDefect(fold, Lead(before[i]), f.issue)
    {
      NearIsSameDefect(fold, Lead(before[i]), f.issue);
    }
    PutAt(fold, before, f, k);
  }

  /** The lead of a group is the first of its gravest findings. */
  lemma {:induction false} LeadIsFirstGravest(b: Bucket) returns (k: nat)
    ensures k < |b| && Lead(b) == b[k].issue
    ensures forall i | 0 <= i < k :: Below(b[i].issue.severity, b[k].issue.severity)
    ensures forall i | k <= i < |b| :: !Below(b[k].issue.severity, b[i].issue.severity)
  {
    if |b| == 1 {
      k := 0;
    } else {
      var init: Bucket, last := b[..|b| - 1], b[|b| - 1].issue;
      k := LeadIsFirstGravest(init);
      assert forall i | 0 <= i < |init| :: init[i] == b[i];
      if Below(b[k].issue.severity, last.severity) { k := |b| - 1; }
    }
  }

  predicate Below(a: Severity, b: Severity) {
    a != High && b != Low && a != b
  }

  lemma TwoFindings(fold: Fold, a: Finding, b: Finding)
    ensures Buckets(fold, [a, b]) == if Near(fold, a.issue, b.issue) then [[a, b]] else [[a], [b]]
  {
    var none := JoinsFirstNear(fold, [], a);
    assert [] + [a] == [a];
    var k := JoinsFirstNear(fold, [a], b);
    assert [a] + [b] == [a, b];
  }

  predicate Serious(i: Issue) {
    i.severity == Medium || i.severity == High
  }

  /** A group that a quorum of two lets block. */
  ghost predicate PairBlocks(b: Bucket) {
    |Voices(b)| >= 2 && exists m :: m in b && Serious(m.issue)
  }

  lemma PairOfLenses(a: Finding, b: Finding)
    requires a.lens != b.lens
    ensures !PairBlocks([a]) && !PairBlocks([b])
    ensures PairBlocks([a, b]) <==> Serious(a.issue) || Serious(b.issue)
  {
    assert Voices([a]) == {a.lens} && Voices([b]) == {b.lens} && Voices([a, b]) == {a.lens, b.lens};
    assert a in [a, b] && b in [a, b];
  }

  lemma MergeBlocksByPairs(fold: Fold, perLens: seq<Answered>)
    ensures PanelBlocks(fold, perLens, 2) <==> SomeBlocks(Buckets(fold, AllFindings(perLens)))
  {
    MergeIsExact(fold, perLens, 2);
    assert forall i: Issue :: IsBlocking(i) <==> Serious(i);
  }

  ghost predicate SomeBlocks(buckets: seq<Bucket>) {
    exists b :: b in buckets && PairBlocks(b)
  }

  lemma SomeOfFew(x: Bucket, y: Bucket)
    ensures SomeBlocks([x]) <==> PairBlocks(x)
    ensures SomeBlocks([x, y]) <==> PairBlocks(x) || PairBlocks(y)
  {
    assert [x][0] in [x] && [x, y][0] in [x, y] && [x, y][1] in [x, y];
  }

  lemma PairBucketsBlock(fold: Fold, a: Finding, b: Finding)
    requires a.lens != b.lens
    ensures SomeBlocks(Buckets(fold, [a, b])) <==> Near(fold, a.issue, b.issue) && (Serious(a.issue) || Serious(b.issue))
  {
    TwoFindings(fold, a, b);
    PairOfLenses(a, b);
    if Near(fold, a.issue, b.issue) { SomeOfFew([a, b], [b]); } else { SomeOfFew([a], [b]); }
  }

  ghost predicate PanelBlocks(fold: Fold, perLens: seq<Answered>, quorum: int) {
    exists v :: v in Merge(fold, perLens, quorum) && Serious(v.issue)
  }

  /** Two findings of two lenses, the others answering nothing: under a quorum of
      two they block exactly when they are near each other and one is serious. */
  lemma TwoLensesBlockWhenNear(fold: Fold, perLens: seq<Answered>, a: Finding, b: Finding)
    requires AllFindings(perLens) == [a, b] && a.lens != b.lens
    ensures PanelBlocks(fold, perLens, 2) <==> Near(fold, a.issue, b.issue) && (Serious(a.issue) || Serious(b.issue))
  {
    MergeBlocksByPairs(fold, perLens);
    PairBucketsBlock(fold, a, b);
  }

  /** What one group becomes: its lead as it is, or rated low when too few lenses
      agree; the lenses are those that raised it, once each and in order. */
  lemma VerdictTells(b: Bucket, quorum: int)
    ensures var v := Verdict(b, quorum);
            && (v.quorumMet <==> |Voices(b)| >= quorum)
            && v.issue == (if |Voices(b)| >= quorum then Lead(b) else Issue(Low, Lead(b).category, Lead(b).path, Lead(b).description, Lead(b).line))
            && Sorted(v.lenses, Before) && Distinct(v.lenses) && forall l :: l in v.lenses <==> l in Voices(b)
  {
    LensesAreVoices(b);
    SortTextsSorts(LensesOf(b));
    SameMultisetSameElements(LensesOf(b), SortTexts(LensesOf(b)));
    PermutationKeepsDistinct(LensesOf(b), SortTexts(LensesOf(b)));
  }

  /** The gravest verdicts come first: high before medium before low. */
  lemma MergedGravestFirst(fold: Fold, perLens: seq<Answered>, quorum: int)
    ensures var merged := Merge(fold, perLens, quorum);
            forall i, j | 0 <= i < j < |merged| :: !Below(merged[i].issue.severity, merged[j].issue.severity)
  {
    MergeIsExact(fold, perLens, quorum);
  }

  /** Verdicts of the same severity keep the order in which their groups were opened. */
  lemma MergedKeepsOrder(fold: Fold, perLens: seq<Answered>, quorum: int, v: Merged, w: Merged)
    requires v != w && v.issue.severity == w.issue.severity
    requires InOrderOf([v, w], Verdicts(quorum, Buckets(fold, AllFindings(perLens))))
    ensures InOrderOf([v, w], Merge(fold, perLens, quorum))
  {
    GraverIsOrdering();
    SortIsStable(Verdicts(quorum, Buckets(fold, AllFindings(perLens))), Graver, v, w);
  }

  /** The quorum that is asked for, or two, but never more than there are lenses. */
  lemma QuorumAsked(parsed: Option<int>, lenses: nat)
    ensures var q, asked := ResolveQuorum(parsed, lenses), parsed.Some? && parsed.value >= 1;
            && 1 <= q && (q <= lenses || q == 1)
            && (asked ==> q <= parsed.value && (q == parsed.value || q == lenses || q == 1))
            && (!asked ==> q == if lenses >= 2 then 2 else 1)
  {
  }

  /** Exactly the answers of the lenses that did not fail are merged, in order. */
  lemma {:induction false} AnsweringExact(lenses: seq<Text>, answers: seq<Option<seq<Issue>>>, a: Answered)
    requires |lenses| == |answers|
    ensures a in Answering(lenses, answers) <==> exists i :: 0 <= i < |lenses| && Answers(lenses, answers, i, a)
  {
    if lenses != [] {
      var n := |lenses| - 1;
      AnsweringExact(lenses[..n], answers[..n], a);
      if i :| 0 <= i < n && Answers(lenses[..n], answers[..n], i, a) { assert Answers(lenses, answers, i, a); }
      if i :| 0 <= i < n && Answers(lenses, answers, i, a) { assert Answers(lenses[..n], answers[..n], i, a); }
      if answers[n].Some? && a == Answered(lenses[n], answers[n].value) { assert Answers(lenses, answers, n, a); }
    }
  }

  lemma {:induction false} AnsweringCount(lenses: seq<Text>, answers: seq<Option<seq<Issue>>>)
    requires |lenses| == |answers|
    ensures |Answering(lenses, answers)| == |set i | 0 <= i < |answers| && answers[i].Some?|
  {
    if lenses != [] {
      var n := |lenses| - 1;
      AnsweringCount(lenses[..n], answers[..n]);
      var before, all := set i | 0 <= i < n && answers[..n][i].Some?, set i | 0 <= i < |answers| && answers[i].Some?;
      assert all == if answers[n].Some? then before + {n} else before;
    }
  }

  predicate Answers(lenses: seq<Text>, answers: seq<Option<seq<Issue>>>, i: nat, a: Answered)
    requires i < |lenses| == |answers|
  {
    answers[i] == Some(a.issues) && a.lens == lenses[i]
  }

  /** Each finding of each answer is merged, under its lens. */
  lemma {:induction false} AllFindingsExact(perLens: seq<Answered>)
    ensures forall f :: f in AllFindings(perLens) <==> exists a :: a in perLens && a.lens == f.lens && f.issue in a.issues
  {
    if perLens != [] {
      var init, last := perLens[..|perLens| - 1], perLens[|perLens| - 1];
      AllFindingsExact(init);
      assert perLens == init + [last];
      forall f
        ensures f in FindingsOf(last) <==> last.lens == f.lens && f.issue in last.issues
      {
        if last.lens == f.lens && f.issue in last.issues {
          var i :| 0 <= i < |last.issues| && last.issues[i] == f.issue;
          assert FindingsOf(last)[i] == f;
        }
        if f in FindingsOf(last) {
          var i :| 0 <= i < |FindingsOf(last)| && FindingsOf(last)[i] == f;
          assert last.issues[i] in last.issues;
        }
      }
    }
  }

  /** A panel fails only when every lens does; its quorum is then at most the number
      of lenses that answered. */
  lemma PanelExact(fold: Fold, lenses: seq<Text>, quorum: int, answers: seq<Option<seq<Issue>>>)
    requires |lenses| == |answers|
    ensures var panel, perLens := RunPanel(fold, lenses, quorum, answers), Answering(lenses, answers);
            && (panel.None? <==> forall i | 0 <= i < |answers| :: answers[i].None?)
            && (panel.Some? ==>
                  && panel.value.quorum <= quorum && panel.value.quorum <= |perLens|
                  && (panel.value.quorum == quorum || panel.value.quorum == |perLens|)
                  && panel.value.issues == Merge(fold, perLens, panel.value.quorum))
  {
    AnsweringCount(lenses, answers);
    var all := set i | 0 <= i < |answers| && answers[i].Some?;
    if i :| 0 <= i < |answers| && answers[i].Some? { assert i in all; }
  }
}
