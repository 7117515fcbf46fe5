/** Review findings: normalisation, merging without duplicates, and what blocks. */
module ReviewIssues {
  import opened Common
  import opened Texts

  datatype Severity = Low | Medium | High

  datatype Issue = Issue(severity: Severity, category: Text, path: Text, description: Text, line: Option<int>)

  /** A finding as a reviewer or a tool hands it over. `None` stands for a field
      that is missing or not of the expected type. */
  datatype RawIssue =
    | NotAnIssue
    | Raw(severity: Option<Severity>, category: Option<Text>, path: Option<Text>, description: Option<Text>, line: Option<int>)

  function OrElse<T>(o: Option<T>, d: T): T {
    if o.Some? then o.value else d
  }

  function NormalizeIssue(raw: RawIssue): Option<Issue> {
    match raw
    case NotAnIssue => None
    case Raw(severity, category, path, description, line) =>
      if OrElse(description, []) == [] then None
      else Some(Issue(OrElse(severity, Medium), OrElse(category, Ascii("bug")), OrElse(path, []), description.value, line))
  }

  function NormalizeAll(raws: seq<RawIssue>): seq<Issue> {
    if raws == [] then []
    else
      var last := NormalizeIssue(raws[|raws| - 1]);
      NormalizeAll(raws[..|raws| - 1]) + if last.Some? then [last.value] else []
  }

  function AsRaw(issue: Issue): RawIssue {
    Raw(Some(issue.severity), Some(issue.category), Some(issue.path), Some(issue.description), issue.line)
  }

  function AsRaws(issues: seq<Issue>): seq<RawIssue> {
    seq(|issues|, i requires 0 <= i < |issues| => AsRaw(issues[i]))
  }

  const BAR: Text := [124]

  function SeverityName(s: Severity): Text {
    match s
    case High => Ascii("high")
    case Medium => Ascii("medium")
    case Low => Ascii("low")
  }

  function Key(i: Issue): Text {
    SeverityName(i.severity) + BAR + i.category + BAR + i.path + BAR + i.description
  }

  function Keys(issues: seq<Issue>): set<Text> {
    set i | i in issues :: Key(i)
  }

  /** The first issue of each key, in order. */
  function FirstOfEachKey(issues: seq<Issue>): seq<Issue> {
    if issues == [] then []
    else
      var kept, last := FirstOfEachKey(issues[..|issues| - 1]), issues[|issues| - 1];
      if Key(last) in Keys(kept) then kept else kept + [last]
  }

  function MergeIssues(review: seq<RawIssue>, validation: seq<RawIssue>): seq<Issue> {
    FirstOfEachKey(NormalizeAll(validation + review))
  }

  function IsBlocking(i: Issue): bool {
    i.severity != Low
  }

  predicate HasBlockingIssues(issues: seq<Issue>) {
    exists i :: i in issues && IsBlocking(i)
  }

  /** A finding that must block: it says something, and its severity is high,
      medium or not given at all. */
  predicate Blocks(raw: RawIssue) {
    && raw.Raw? && raw.description.Some? && raw.description.value != []
    && (raw.severity == Some(High) || raw.severity == Some(Medium) || raw.severity == None)
  }

  predicate AnyBlocks(raws: seq<RawIssue>) {
    exists r :: r in raws && Blocks(r)
  }

  // ---------------------------------------------------------------------

  /** Keys are not injective, but colliding issues agree on their severity. */
  lemma SameKeySameSeverity(a: Issue, b: Issue)
    requires Key(a) == Key(b)
    ensures a.severity == b.severity
  {
    assert Key(a)[0] == SeverityName(a.severity)[0] && Key(b)[0] == SeverityName(b.severity)[0];
  }

  /** A key is made of the four fields that tell issues apart, with bars between. */
  lemma KeyExact(i: Issue)
    ensures var name := match i.severity
                        case High => Ascii("high")
                        case Medium => Ascii("medium")
                        case Low => Ascii("low");
            Key(i) == name + Ascii("|") + i.category + Ascii("|") + i.path + Ascii("|") + i.description
  {
    assert BAR == Ascii("|");
  }

  lemma {:induction false} FirstOfEachKeySubset(issues: seq<Issue>)
    ensures forall i | i in FirstOfEachKey(issues) :: i in issues
  {
    if issues != [] {
      var n := |issues| - 1;
      FirstOfEachKeySubset(issues[..n]);
      assert issues[n] in issues && forall i | i in issues[..n] :: i in issues;
    }
  }

  lemma KnownKeyDropped(init: seq<Issue>, last: Issue)
    requires Keys(FirstOfEachKey(init)) == Keys(init) && Key(last) in Keys(init)
    ensures FirstOfEachKey(init + [last]) == FirstOfEachKey(init) && Keys(init + [last]) == Keys(init)
  {
    assert (init + [last])[..|init|] == init;
    KeysSnoc(init, last);
  }

  lemma NewKeyKept(init: seq<Issue>, last: Issue)
    requires Keys(FirstOfEachKey(init)) == Keys(init) && Key(last) !in Keys(init)
    ensures FirstOfEachKey(init + [last]) == FirstOfEachKey(init) + [last]
  {
    assert (init + [last])[..|init|] == init;
  }

  /** Merging drops an issue only in favour of an earlier one of the same key. */
  lemma {:induction false} FirstOfEachKeyKeepsKeys(issues: seq<Issue>, kept: seq<Issue>)
    requires kept == FirstOfEachKey(issues)
    ensures Keys(kept) == Keys(issues)
  {
    if issues != [] {
      var init, last := issues[..|issues| - 1], issues[|issues| - 1];
      FirstOfEachKeyKeepsKeys(init, FirstOfEachKey(init));
      assert issues == init + [last];
      if Key(last) in Keys(init) {
        KnownKeyDropped(init, last);
      } else {
        NewKeyKept(init, last);
        KeysSnoc(init, last);
        KeysSnoc(FirstOfEachKey(init), last);
      }
    }
  }

  lemma KeysSnoc(issues: seq<Issue>, last: Issue)
    ensures Keys(issues + [last]) == Keys(issues) + {Key(last)}
  {
  }

  /** No two merged issues share a key. */
  lemma {:induction false} FirstOfEachKeyDistinct(issues: seq<Issue>)
    ensures forall j, k | 0 <= j < k < |FirstOfEachKey(issues)| ::
              Key(FirstOfEachKey(issues)[j]) != Key(FirstOfEachKey(issues)[k])
  {
    if issues != [] {
      var kept := FirstOfEachKey(issues[..|issues| - 1]);
      FirstOfEachKeyDistinct(issues[..|issues| - 1]);
      assert forall j | 0 <= j < |kept| :: kept[j] in kept && Key(kept[j]) in Keys(kept);
    }
  }

  lemma {:induction false} NormalizeAllExact(raws: seq<RawIssue>)
    ensures forall i :: i in NormalizeAll(raws) <==> exists r :: r in raws && NormalizeIssue(r) == Some(i)
  {
    if raws != [] {
      var init, last := raws[..|raws| - 1], raws[|raws| - 1];
      NormalizeAllExact(init);
      assert raws == init + [last];
    }
  }

  lemma {:induction false} NormalizingKeepsBlocking(raws: seq<RawIssue>)
    ensures HasBlockingIssues(NormalizeAll(raws)) <==> AnyBlocks(raws)
  {
    NormalizeAllExact(raws);
    forall r | r in raws
      ensures Blocks(r) <==> NormalizeIssue(r).Some? && IsBlocking(NormalizeIssue(r).value)
    {
      BlockingNormalForm(r);
    }
    if AnyBlocks(raws) {
      var r :| r in raws && Blocks(r);
      assert NormalizeIssue(r).value in NormalizeAll(raws);
    }
  }

  lemma BlockingNormalForm(r: RawIssue)
    ensures Blocks(r) <==> NormalizeIssue(r).Some? && IsBlocking(NormalizeIssue(r).value)
  {
  }

  /** What normalising keeps and what it fills in. */
  lemma NormalForm(r: RawIssue)
    ensures NormalizeIssue(r).None? <==> r.NotAnIssue? || r.description == None || r.description == Some([])
    ensures NormalizeIssue(r).Some? ==>
              var i := NormalizeIssue(r).value;
              && Some(i.description) == r.description && i.line == r.line
              && (r.severity == Some(i.severity) || (r.severity.None? && i.severity == Medium))
              && (r.category == Some(i.category) || (r.category.None? && i.category == Ascii("bug")))
              && (r.path == Some(i.path) || (r.path.None? && i.path == []))
  {
  }

  /** The issues that block are exactly those of high or medium severity. */
  lemma BlockingSeverities(issues: seq<Issue>)
    ensures HasBlockingIssues(issues) <==> exists i :: i in issues && (i.severity == High || i.severity == Medium)
  {
    if i :| i in issues && IsBlocking(i) { assert i.severity == High || i.severity == Medium; }
  }

  lemma FirstOfEachKeyKeepsBlocking(issues: seq<Issue>)
    ensures HasBlockingIssues(FirstOfEachKey(issues)) <==> HasBlockingIssues(issues)
  {
    FirstOfEachKeySubset(issues);
    FirstOfEachKeyKeepsKeys(issues, FirstOfEachKey(issues));
    if i :| i in issues && IsBlocking(i) {
      assert Key(i) in Keys(FirstOfEachKey(issues));
      var kept :| kept in FirstOfEachKey(issues) && Key(kept) == Key(i);
      SameKeySameSeverity(kept, i);
    }
  }

  /** Merging neither hides a blocking finding nor invents one. */
  lemma MergeKeepsBlocking(review: seq<RawIssue>, validation: seq<RawIssue>)
    ensures HasBlockingIssues(MergeIssues(review, validation)) <==> AnyBlocks(review) || AnyBlocks(validation)
  {
    FirstOfEachKeyKeepsBlocking(NormalizeAll(validation + review));
    NormalizingKeepsBlocking(validation + review);
    if r :| (r in review || r in validation) && Blocks(r) { assert r in validation + review; }
  }

  lemma AsRawsBlock(issues: seq<Issue>)
    requires forall i | i in issues :: i.description != []
    ensures AnyBlocks(AsRaws(issues)) <==> HasBlockingIssues(issues)
  {
    if AnyBlocks(AsRaws(issues)) {
      var r :| r in AsRaws(issues) && Blocks(r);
      var k :| 0 <= k < |AsRaws(issues)| && AsRaws(issues)[k] == r;
      assert issues[k] in issues && IsBlocking(issues[k]);
    }
    if HasBlockingIssues(issues) {
      var i :| i in issues && IsBlocking(i);
      var k :| 0 <= k < |issues| && issues[k] == i;
      assert AsRaws(issues)[k] in AsRaws(issues) && Blocks(AsRaws(issues)[k]);
    }
  }

  lemma NormalizedDescribed(raws: seq<RawIssue>)
    ensures forall i | i in NormalizeAll(raws) :: i.description != []
  {
    NormalizeAllExact(raws);
  }

  lemma MergedDescribed(review: seq<RawIssue>, validation: seq<RawIssue>)
    ensures forall i | i in MergeIssues(review, validation) :: i.description != []
  {
    NormalizedDescribed(validation + review);
    FirstOfEachKeySubset(NormalizeAll(validation + review));
  }

  /** Normalising an already normalised list changes nothing. */
  lemma NormalizeIdempotent(raws: seq<RawIssue>)
    ensures NormalizeAll(AsRaws(NormalizeAll(raws))) == NormalizeAll(raws)
  {
    NormalizedDescribed(raws);
    NormalizeDescribed(NormalizeAll(raws));
  }

  lemma {:induction false} NormalizeDescribed(issues: seq<Issue>)
    requires forall i | i in issues :: i.description != []
    ensures NormalizeAll(AsRaws(issues)) == issues
  {
    if issues != [] {
      NormalizeDescribed(issues[..|issues| - 1]);
      assert AsRaws(issues)[..|issues| - 1] == AsRaws(issues[..|issues| - 1]);
    }
  }

  /** The single pass with a set of seen keys computes the same list. */
  method MergeIssueLists(review: seq<RawIssue>, validation: seq<RawIssue>) returns (merged: seq<Issue>)
    ensures merged == MergeIssues(review, validation)
  {
    var all := NormalizeAll(validation + review);
    var seen: set<Text> := {};
    merged := [];
    for k := 0 to |all|
      invariant merged == FirstOfEachKey(all[..k]) && seen == Keys(merged)
    {
      assert all[..k + 1][..k] == all[..k];
      var key := Key(all[k]);
      if key !in seen {
        assert Keys(merged + [all[k]]) == seen + {key};
        seen, merged := seen + {key}, merged + [all[k]];
      }
    }
    assert all[..|all|] == all;
  }
}
