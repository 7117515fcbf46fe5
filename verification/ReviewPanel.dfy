/** Merging the findings of several review lenses under a quorum. */
module ReviewPanel {
  import opened Common
  import opened Texts
  import opened ReviewIssues

  const DEFAULT_QUORUM := 2
  const LINE_PROXIMITY := 3

  /** One lens's answer, and one finding with the lens that raised it. */
  datatype Answered = Answered(lens: Text, issues: seq<Issue>)
  datatype Finding = Finding(lens: Text, issue: Issue)

  /** Trimming and case folding of categories, taken as given. */
  type Fold = Text -> Text

  function Rank(s: Severity): nat {
    match s
    case Low => 0
    case Medium => 1
    case High => 2
  }

  predicate IsSameDefect(fold: Fold, a: Issue, b: Issue) {
    && a.path == b.path && fold(a.category) == fold(b.category)
    && match (a.line, b.line)
       case (Some(l), Some(r)) => -LINE_PROXIMITY <= l - r <= LINE_PROXIMITY
       case (None, None) => true
       case _ => false
  }

  // ---------------------------------------------------------------------
  // What the merge means: findings are put into buckets, one per defect

  type Bucket = b: seq<Finding> | b != [] witness [Finding([], Issue(Low, [], [], [], None))]

  /** The issue that stands for a bucket: the first of the gravest. */
  function Lead(b: Bucket): Issue {
    if |b| == 1 then b[0].issue
    else
      var lead, last := Lead(b[..|b| - 1]), b[|b| - 1].issue;
      if Rank(last.severity) > Rank(lead.severity) then last else lead
  }

  function LensesOf(b: seq<Finding>): seq<Text> {
    Dedupe(seq(|b|, i requires 0 <= i < |b| => b[i].lens))
  }

  function Put(fold: Fold, buckets: seq<Bucket>, f: Finding): seq<Bucket> {
    if buckets == [] then [[f]]
    else if IsSameDefect(fold, Lead(buckets[0]), f.issue) then [buckets[0] + [f]] + buckets[1..]
    else [buckets[0]] + Put(fold, buckets[1..], f)
  }

  function Buckets(fold: Fold, findings: seq<Finding>): seq<Bucket> {
    if findings == [] then [] else Put(fold, Buckets(fold, findings[..|findings| - 1]), findings[|findings| - 1])
  }

  function FindingsOf(a: Answered): seq<Finding> {
    seq(|a.issues|, i requires 0 <= i < |a.issues| => Finding(a.lens, a.issues[i]))
  }

  function AllFindings(perLens: seq<Answered>): seq<Finding> {
    if perLens == [] then [] else AllFindings(perLens[..|perLens| - 1]) + FindingsOf(perLens[|perLens| - 1])
  }

  /** A merged finding with the lenses that agree on it. */
  datatype Merged = Merged(issue: Issue, lenses: seq<Text>, quorumMet: bool)

  function Judge(lead: Issue, lenses: seq<Text>, quorum: int): Merged {
    var met := |lenses| >= quorum;
    Merged(lead.(severity := if met then lead.severity else Low), SortTexts(lenses), met)
  }

  function Verdict(b: Bucket, quorum: int): Merged {
    Judge(Lead(b), LensesOf(b), quorum)
  }

  function Verdicts(quorum: int, buckets: seq<Bucket>): seq<Merged> {
    seq(|buckets|, i requires 0 <= i < |buckets| => Verdict(buckets[i], quorum))
  }

  predicate Graver(a: Merged, b: Merged) {
    Rank(a.issue.severity) > Rank(b.issue.severity)
  }

  function Merge(fold: Fold, perLens: seq<Answered>, quorum: int): seq<Merged> {
    SortBy(Verdicts(quorum, Buckets(fold, AllFindings(perLens))), Graver)
  }

  /** The quorum from the settings: a positive integer or the default, and never
      more than there are lenses. */
  function ResolveQuorum(parsed: Option<int>, lenses: nat): int {
    Min(if parsed.Some? && parsed.value > 0 then parsed.value else DEFAULT_QUORUM, Max(1, lenses))
  }

  /** The lenses that answered, in order; `None` is a lens that failed. */
  function Answering(lenses: seq<Text>, answers: seq<Option<seq<Issue>>>): seq<Answered>
    requires |lenses| == |answers|
  {
    if lenses == [] then []
    else
      var n := |lenses| - 1;
      Answering(lenses[..n], answers[..n]) + if answers[n].Some? then [Answered(lenses[n], answers[n].value)] else []
  }

  datatype PanelOutcome = PanelOutcome(issues: seq<Merged>, quorum: int)

  /** `None` when there are no lenses or every lens failed. */
  function RunPanel(fold: Fold, lenses: seq<Text>, quorum: int, answers: seq<Option<seq<Issue>>>): Option<PanelOutcome>
    requires |lenses| == |answers|
  {
    var perLens := Answering(lenses, answers);
    if perLens == [] then None
    else
      var effective := Min(quorum, |perLens|);
      Some(PanelOutcome(Merge(fold, perLens, effective), effective))
  }

  // ---------------------------------------------------------------------
  // Nothing is lost, nothing is counted twice

  function Contents(buckets: seq<Bucket>): seq<Finding> {
    if buckets == [] then [] else buckets[0] + Contents(buckets[1..])
  }

  lemma {:induction false} PutConserves(fold: Fold, buckets: seq<Bucket>, f: Finding)
    ensures multiset(Contents(Put(fold, buckets, f))) == multiset(Contents(buckets)) + multiset{f}
  {
    if buckets != [] {
      if IsSameDefect(fold, Lead(buckets[0]), f.issue) {
        assert ([buckets[0] + [f]] + buckets[1..])[1..] == buckets[1..];
      } else {
        PutConserves(fold, buckets[1..], f);
        assert ([buckets[0]] + Put(fold, buckets[1..], f))[1..] == Put(fold, buckets[1..], f);
      }
    } else {
      assert [[f]][1..] == [];
    }
  }

  /** Every finding goes into exactly one bucket. */
  lemma {:induction false} BucketsConserve(fold: Fold, findings: seq<Finding>)
    ensures multiset(Contents(Buckets(fold, findings))) == multiset(findings)
  {
    if findings != [] {
      var init, last := findings[..|findings| - 1], findings[|findings| - 1];
      assert findings == init + [last];
      BucketsConserve(fold, init);
      PutConserves(fold, Buckets(fold, init), last);
    }
  }

  /** The findings of a bucket agree on file, category and on having a line. */
  ghost predicate OneDefect(fold: Fold, b: Bucket) {
    forall m | m in b ::
      m.issue.path == Lead(b).path && fold(m.issue.category) == fold(Lead(b).category) && (m.issue.line.Some? <==> Lead(b).line.Some?)
  }

  lemma {:induction false} PutKeepsDefects(fold: Fold, buckets: seq<Bucket>, f: Finding)
    requires forall b | b in buckets :: OneDefect(fold, b)
    ensures forall b | b in Put(fold, buckets, f) :: OneDefect(fold, b)
  {
    if buckets != [] {
      assert buckets == [buckets[0]] + buckets[1..] && buckets[0] in buckets;
      if IsSameDefect(fold, Lead(buckets[0]), f.issue) {
        var grown: Bucket := buckets[0] + [f];
        assert grown[..|grown| - 1] == buckets[0];
        assert OneDefect(fold, grown);
      } else {
        PutKeepsDefects(fold, buckets[1..], f);
      }
    }
  }

  lemma {:induction false} BucketsHoldOneDefect(fold: Fold, findings: seq<Finding>)
    ensures forall b | b in Buckets(fold, findings) :: OneDefect(fold, b)
  {
    if findings != [] {
      BucketsHoldOneDefect(fold, findings[..|findings| - 1]);
      PutKeepsDefects(fold, Buckets(fold, findings[..|findings| - 1]), findings[|findings| - 1]);
    }
  }

  // ---------------------------------------------------------------------
  // Severity and quorum

  lemma {:induction false} LeadIsGravest(b: Bucket)
    ensures exists m :: m in b && m.issue == Lead(b)
    ensures forall m | m in b :: Rank(m.issue.severity) <= Rank(Lead(b).severity)
  {
    if |b| == 1 {
      assert b[0] in b;
    } else {
      var init: Bucket, last := b[..|b| - 1], b[|b| - 1];
      LeadIsGravest(init);
      assert b == init + [last];
      var m :| m in init && m.issue == Lead(init);
      assert m in b && last in b;
    }
  }

  /** The lenses that raised the findings of a bucket. */
  ghost function Voices(b: seq<Finding>): set<Text> {
    set m | m in b :: m.lens
  }

  lemma LensesAreVoices(b: seq<Finding>)
    ensures |LensesOf(b)| == |Voices(b)| && forall l :: l in LensesOf(b) <==> l in Voices(b)
  {
    var named := seq(|b|, i requires 0 <= i < |b| => b[i].lens);
    forall l
      ensures l in LensesOf(b) <==> l in Voices(b)
    {
      if l in Voices(b) {
        var m :| m in b && m.lens == l;
        var i :| 0 <= i < |b| && b[i] == m;
        assert named[i] == l;
      }
      if l in named {
        var i :| 0 <= i < |named| && named[i] == l;
        assert b[i] in b;
      }
    }
    DistinctCount(LensesOf(b));
    assert Voices(b) == Elements(LensesOf(b));
  }

  lemma {:induction false} DistinctCount(s: seq<Text>)
    requires Distinct(s)
    ensures |Elements(s)| == |s|
  {
    if s != [] {
      DistinctCount(s[..|s| - 1]);
      assert Elements(s) == Elements(s[..|s| - 1]) + {s[|s| - 1]};
    }
  }

  /** A merged finding blocks exactly when at least a quorum of distinct lenses
      raised it and one of them rated it above low. With a quorum its severity is
      the gravest any lens gave; without one it is low. */
  lemma BlocksExactlyByQuorum(b: Bucket, quorum: int)
    ensures var v := Verdict(b, quorum);
            && (v.quorumMet <==> |Voices(b)| >= quorum)
            && (IsBlocking(v.issue) <==> |Voices(b)| >= quorum && exists m :: m in b && IsBlocking(m.issue))
            && (v.quorumMet ==> exists m :: m in b && m.issue == v.issue)
            && (v.quorumMet ==> forall m | m in b :: Rank(m.issue.severity) <= Rank(v.issue.severity))
            && (!v.quorumMet ==> v.issue.severity == Low)
  {
    LeadIsGravest(b);
    LensesAreVoices(b);
    var lead :| lead in b && lead.issue == Lead(b);
    if |Voices(b)| >= quorum { assert Verdict(b, quorum).issue == Lead(b); }
  }

  lemma VerdictsBlock(buckets: seq<Bucket>, quorum: int)
    ensures (exists v :: v in Verdicts(quorum, buckets) && IsBlocking(v.issue)) <==>
            exists b :: b in buckets && |Voices(b)| >= quorum && exists m :: m in b && IsBlocking(m.issue)
  {
    var verdicts := Verdicts(quorum, buckets);
    if v :| v in verdicts && IsBlocking(v.issue) {
      var i :| 0 <= i < |verdicts| && verdicts[i] == v;
      BlocksExactlyByQuorum(buckets[i], quorum);
      assert buckets[i] in buckets;
    }
    if b :| b in buckets && |Voices(b)| >= quorum && exists m :: m in b && IsBlocking(m.issue) {
      var i :| 0 <= i < |buckets| && buckets[i] == b;
      BlocksExactlyByQuorum(b, quorum);
      assert verdicts[i] in verdicts;
    }
  }

  lemma GraverIsOrdering()
    ensures Ordering(Graver)
  {
  }

  /** The merged list holds one verdict for each bucket, gravest first, and it
      blocks the run exactly when some bucket has a quorum and a blocking finding. */
  lemma {:induction false} MergeIsExact(fold: Fold, perLens: seq<Answered>, quorum: int)
    ensures var buckets, merged := Buckets(fold, AllFindings(perLens)), Merge(fold, perLens, quorum);
            && multiset(Contents(buckets)) == multiset(AllFindings(perLens))
            && multiset(merged) == multiset(Verdicts(quorum, buckets)) && Sorted(merged, Graver)
            && ((exists v :: v in merged && IsBlocking(v.issue)) <==>
                exists b :: b in buckets && |Voices(b)| >= quorum && exists m :: m in b && IsBlocking(m.issue))
  {
    var buckets := Buckets(fold, AllFindings(perLens));
    BucketsConserve(fold, AllFindings(perLens));
    GraverIsOrdering();
    SortSorts(Verdicts(quorum, buckets), Graver);
    SortPermutes(Verdicts(quorum, buckets), Graver);
    SameMultisetSameElements(Verdicts(quorum, buckets), Merge(fold, perLens, quorum));
    VerdictsBlock(buckets, quorum);
  }

  lemma {:induction false} AnsweringKeepsOrder(lenses: seq<Text>, answers: seq<Option<seq<Issue>>>)
    requires |lenses| == |answers| && Distinct(lenses)
    ensures var perLens := Answering(lenses, answers);
            && |perLens| <= |lenses|
            && (forall i | 0 <= i < |perLens| :: perLens[i].lens in lenses)
            && forall i, j | 0 <= i < j < |perLens| :: perLens[i].lens != perLens[j].lens
  {
    if lenses != [] {
      var n := |lenses| - 1;
      AnsweringKeepsOrder(lenses[..n], answers[..n]);
    }
  }

  /** A finding raised by every lens that answered keeps its severity, however
      many lenses failed and whatever quorum is configured. */
  lemma {:induction false} UnanimousIsNeverDowngraded(fold: Fold, lenses: seq<Text>, quorum: int, answers: seq<Option<seq<Issue>>>, b: Bucket)
    requires |lenses| == |answers| && Distinct(lenses) && RunPanel(fold, lenses, quorum, answers).Some?
    requires forall a | a in Answering(lenses, answers) :: a.lens in Voices(b)
    ensures var v := Verdict(b, RunPanel(fold, lenses, quorum, answers).value.quorum);
            v.quorumMet && forall m | m in b :: Rank(m.issue.severity) <= Rank(v.issue.severity)
  {
    var perLens := Answering(lenses, answers);
    AnsweringKeepsOrder(lenses, answers);
    var ids := seq(|perLens|, i requires 0 <= i < |perLens| => perLens[i].lens);
    DistinctCount(ids);
    forall l | l in ids
      ensures l in Voices(b)
    {
      var i :| 0 <= i < |ids| && ids[i] == l;
      assert perLens[i] in perLens;
    }
    SubsetIsSmaller(Elements(ids), Voices(b));
    BlocksExactlyByQuorum(b, Min(quorum, |perLens|));
  }

  lemma {:induction false} SubsetIsSmaller(a: set<Text>, b: set<Text>)
    requires a <= b
    ensures |a| <= |b|
  {
    if x :| x in a { SubsetIsSmaller(a - {x}, b - {x}); }
  }

  /** With the configured quorum, a single lens can block only if it is the only
      one that answered, the only one there is, or the quorum was set to one. */
  lemma OneLensBlocksOnlyAlone(fold: Fold, lenses: seq<Text>, parsed: Option<int>, answers: seq<Option<seq<Issue>>>, b: Bucket)
    requires |lenses| == |answers| && RunPanel(fold, lenses, ResolveQuorum(parsed, |lenses|), answers).Some?
    requires |Voices(b)| == 1 && exists m :: m in b && IsBlocking(m.issue)
    ensures IsBlocking(Verdict(b, RunPanel(fold, lenses, ResolveQuorum(parsed, |lenses|), answers).value.quorum).issue) <==>
            |Answering(lenses, answers)| == 1 || |lenses| == 1 || parsed == Some(1)
  {
    BlocksExactlyByQuorum(b, Min(ResolveQuorum(parsed, |lenses|), |Answering(lenses, answers)|));
  }

  // ---------------------------------------------------------------------

  /** What the scan keeps of a bucket. */
  datatype Group = Group(issue: Issue, lensIds: seq<Text>, highestSeverity: Severity)

  function Summary(b: Bucket): Group {
    Group(Lead(b), LensesOf(b), Lead(b).severity)
  }

  ghost predicate Summarized(groups: seq<Group>, buckets: seq<Bucket>) {
    |groups| == |buckets| && forall i | 0 <= i < |groups| :: groups[i] == Summary(buckets[i])
  }

  lemma {:induction false} PutAt(fold: Fold, buckets: seq<Bucket>, f: Finding, k: nat)
    requires k <= |buckets|
    requires forall i | 0 <= i < k :: !IsSameDefect(fold, Lead(buckets[i]), f.issue)
    requires k < |buckets| ==> IsSameDefect(fold, Lead(buckets[k]), f.issue)
    ensures Put(fold, buckets, f) == if k < |buckets| then buckets[k := buckets[k] + [f]] else buckets + [[f]]
  {
    if k > 0 {
      PutAt(fold, buckets[1..], f, k - 1);
      assert buckets == [buckets[0]] + buckets[1..];
    }
  }

  lemma SummarySnoc(b: Bucket, f: Finding)
    ensures Lead(b + [f]) == if Rank(f.issue.severity) > Rank(Lead(b).severity) then f.issue else Lead(b)
    ensures LensesOf(b + [f]) == if f.lens in LensesOf(b) then LensesOf(b) else LensesOf(b) + [f.lens]
  {
    assert (b + [f])[..|b|] == b;
    var named := seq(|b|, i requires 0 <= i < |b| => b[i].lens);
    assert seq(|b + [f]|, i requires 0 <= i < |b + [f]| => (b + [f])[i].lens)[..|b|] == named;
  }

  /** One finding is added to the first group it matches, or opens a new one. */
  method AddFinding(fold: Fold, groups: seq<Group>, ghost buckets: seq<Bucket>, f: Finding) returns (r: seq<Group>)
    requires Summarized(groups, buckets)
    ensures Summarized(r, Put(fold, buckets, f))
  {
    var k := 0;
    while k < |groups| && !IsSameDefect(fold, groups[k].issue, f.issue)
      invariant 0 <= k <= |groups|
      invariant forall i | 0 <= i < k :: !IsSameDefect(fold, groups[i].issue, f.issue)
    {
      k := k + 1;
    }
    PutAt(fold, buckets, f, k);
    if k < |groups| {
      SummarySnoc(buckets[k], f);
      var existing := groups[k];
      var lensIds := if f.lens in existing.lensIds then existing.lensIds else existing.lensIds + [f.lens];
      if Rank(f.issue.severity) > Rank(existing.highestSeverity) {
        r := groups[k := Group(f.issue, lensIds, f.issue.severity)];
      } else {
        r := groups[k := existing.(lensIds := lensIds)];
      }
    } else {
      LensOfOne(f);
      r := groups + [Group(f.issue, [f.lens], f.issue.severity)];
    }
  }

  lemma LensOfOne(f: Finding)
    ensures LensesOf([f]) == [f.lens]
  {
    var named := seq(|[f]|, i requires 0 <= i < |[f]| => [f][i].lens);
    assert named == [f.lens] && named[..|named| - 1] == [];
    assert Dedupe([]) == [];
  }

  method AddAnswer(fold: Fold, groups: seq<Group>, ghost before: seq<Finding>, a: Answered) returns (r: seq<Group>)
    requires Summarized(groups, Buckets(fold, before))
    ensures Summarized(r, Buckets(fold, before + FindingsOf(a)))
  {
    r := groups;
    ghost var all := FindingsOf(a);
    assert before + all[..0] == before;
    for j := 0 to |a.issues|
      invariant Summarized(r, Buckets(fold, before + all[..j]))
    {
      var f := Finding(a.lens, a.issues[j]);
      assert before + all[..j + 1] == (before + all[..j]) + [f];
      assert ((before + all[..j]) + [f])[..|before| + j] == before + all[..j];
      r := AddFinding(fold, r, Buckets(fold, before + all[..j]), f);
    }
    assert all[..|a.issues|] == all;
  }

  method MergeReviews(fold: Fold, perLens: seq<Answered>, quorum: int) returns (merged: seq<Merged>)
    ensures merged == Merge(fold, perLens, quorum)
  {
    var groups: seq<Group> := [];
    for k := 0 to |perLens|
      invariant Summarized(groups, Buckets(fold, AllFindings(perLens[..k])))
    {
      groups := AddAnswer(fold, groups, AllFindings(perLens[..k]), perLens[k]);
      assert perLens[..k + 1][..k] == perLens[..k];
    }
    assert perLens[..|perLens|] == perLens;
    var verdicts := seq(|groups|, i requires 0 <= i < |groups| => Judge(groups[i].issue, groups[i].lensIds, quorum));
    assert verdicts == Verdicts(quorum, Buckets(fold, AllFindings(perLens)));
    merged := SortBy(verdicts, Graver);
  }
}
