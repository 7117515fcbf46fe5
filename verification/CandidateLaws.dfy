/** Which paths count as safe, in which order files are kept, and what happens when
    a candidate is made safe a second time. */
module CandidateLaws {
  import opened Common
  import opened Texts
  import opened ReviewIssues
  import opened CandidateFiles

  // ---------------------------------------------------------------------
  // Paths

  /** A path is safe when it is not empty, does not begin at the root and has no two
      dots in a row. */
  lemma SafePathExact(p: Text)
    ensures SafePath(p) <==>
              p != [] && p[0] != 47 && forall i, j | 0 <= i < j < |p| && j == i + 1 :: !(p[i] == 46 && p[j] == 46)
  {
    if HasDotDot(p) {
      var i :| 0 <= i < |p| - 1 && p[i] == DOT && p[i + 1] == DOT;
      var j := i + 1;
      assert p[i] == 46 && p[j] == 46;
    }
  }

  /** So a path with ".." between slashes, or anywhere else, is never safe. */
  lemma ClimbingIsUnsafe(p: Text, i: nat, j: nat)
    requires i <= j <= |p| && p[i..j] == Ascii("..")
    ensures !SafePath(p)
  {
    assert |Ascii("..")| == 2 && p[i..j][0] == 46 && p[i..j][1] == 46;
    assert p[i] == DOT && p[i + 1] == DOT;
  }

  lemma {:induction false} SlashesDropped(p: Text) returns (k: nat)
    ensures k <= |p| && DropSlashes(p) == p[k..] && (forall i | 0 <= i < k :: p[i] == 47) && (k < |p| ==> p[k] != 47)
  {
    k := 0;
    if p != [] && p[0] == 47 {
      var rest := SlashesDropped(p[1..]);
      k := rest + 1;
      assert p[1..][rest..] == p[k..];
      assert forall i | 0 < i < k :: p[i] == p[1..][i - 1];
    }
  }

  /** Normalising turns backslashes into slashes and drops one leading "./" with all
      slashes that follow it, and nothing else. */
  lemma NormalizeExact(p: Text) returns (k: nat)
    ensures k <= |p| && NormalizePath(p) == ToPosix(p)[k..] && |ToPosix(p)| == |p|
    ensures forall i | 0 <= i < |p| :: ToPosix(p)[i] == if p[i] == 92 then 47 else p[i]
    ensures var q := ToPosix(p);
            if |q| >= 2 && q[0] == 46 && q[1] == 47
            then k >= 2 && (forall i | 1 <= i < k :: q[i] == 47) && (k < |q| ==> q[k] != 47)
            else k == 0
  {
    var q := ToPosix(p);
    k := 0;
    if |q| >= 2 && q[0] == DOT && q[1] == SLASH {
      var rest := SlashesDropped(q[1..]);
      k := rest + 1;
      assert q[1..][rest..] == q[k..];
      assert rest > 0 by { assert q[1..][0] == 47; }
      assert forall i | 1 <= i < k :: q[i] == q[1..][i - 1];
    }
  }

  /** What becomes of one entry of a generator's answer. */
  lemma JudgeExact(raw: RawFile, allowed: set<Text>)
    ensures var v := Judge(raw, allowed);
            match raw
            case NotAFile => v == Skip
            case RawFile(path, create, content) =>
              var p := NormalizePath(path);
              var wanted := SafePath(p) && (allowed == {} || p in allowed);
              && (v == Skip <==> !wanted)
              && (v == Reject <==> wanted && Vanishes(p))
              && (v.Keep? ==> v.file == GeneratedFile(p, create, content))
  {
    if raw.RawFile? { DropsToNothing(NormalizePath(raw.path)); }
  }

  /** A dot and slashes only: nothing is left of it when it is resolved. */
  predicate Vanishes(p: Text) {
    |p| >= 2 && p[0] == 46 && forall i | 1 <= i < |p| :: p[i] == 47
  }

  lemma DropsToNothing(p: Text)
    ensures p != [] ==> (DropDotSlash(p) == [] <==> Vanishes(p))
  {
    if |p| >= 2 && p[0] == DOT && p[1] == SLASH {
      var k := SlashesDropped(p[1..]);
      assert forall i | 1 <= i < |p| :: p[i] == p[1..][i - 1];
      if k < |p[1..]| { assert p[1..][k] == p[k + 1]; }
    }
  }

  // ---------------------------------------------------------------------
  // Order

  lemma SafeFilesSnoc(raws: seq<RawFile>, raw: RawFile, allowed: set<Text>)
    ensures SafeFiles(raws + [raw], allowed) ==
              match Judge(raw, allowed)
              case Skip => SafeFiles(raws, allowed)
              case Reject => None
              case Keep(f) => if SafeFiles(raws, allowed).Some? then Some(SafeFiles(raws, allowed).value + [f]) else None
  {
    assert (raws + [raw])[..|raws|] == raws;
  }

  lemma {:induction false} UpsertPaths(files: seq<GeneratedFile>, f: GeneratedFile)
    ensures PathsOf(Upsert(files, f)) == if f.path in PathsOf(files) then PathsOf(files) else PathsOf(files) + [f.path]
  {
    if files != [] {
      UpsertPaths(files[1..], f);
      assert PathsOf(files) == [files[0].path] + PathsOf(files[1..]);
      if files[0].path == f.path {
        assert PathsOf([f] + files[1..]) == [f.path] + PathsOf(files[1..]);
      } else {
        assert PathsOf([files[0]] + Upsert(files[1..], f)) == [files[0].path] + PathsOf(Upsert(files[1..], f));
      }
    }
  }

  /** Each path keeps the place at which it first came. */
  lemma {:induction false} DedupeKeepsPlaces(files: seq<GeneratedFile>)
    ensures PathsOf(DedupeByPath(files)) == Dedupe(PathsOf(files))
  {
    if files != [] {
      var init, last := files[..|files| - 1], files[|files| - 1];
      DedupeKeepsPlaces(init);
      UpsertPaths(DedupeByPath(init), last);
      assert PathsOf(files)[..|files| - 1] == PathsOf(init);
    }
  }

  /** The files kept are the first of them, as many as may be written. */
  lemma SanitizeExact(raws: seq<RawFile>, plan: Plan, limit: nat)
    ensures var safe, files := SafeFiles(raws, Elements(plan.writeTargets + plan.readFiles)), Sanitize(raws, plan, limit);
            && (files.None? <==> safe.None?)
            && (files.Some? ==>
                  var all := DedupeByPath(safe.value);
                  files.value <= all && |files.value| == if |all| < limit then |all| else limit)
  {
  }

  /** Every report is a high validation issue. */
  lemma {:induction false} ReportsAreHigh(files: seq<GeneratedFile>)
    ensures forall i | i in ValidateCandidateFiles(files) ::
              && i.severity == High && i.category == Ascii("validation") && i.line.None?
              && i.description == Ascii("Generator returned the same file path more than once.")
  {
    if files != [] { ReportsAreHigh(files[..|files| - 1]); }
  }

  ghost predicate Reported(issues: seq<Issue>, p: Text) {
    exists i :: i in issues && i.path == p
  }

  /** Every path given again is reported, and no other. */
  lemma {:induction false} RepeatsAreReported(files: seq<GeneratedFile>, p: Text)
    ensures Reported(ValidateCandidateFiles(files), p) <==> Repeated(files, p)
  {
    if files != [] {
      var init, last := files[..|files| - 1], files[|files| - 1];
      assert files == init + [last];
      RepeatsAreReported(init, p);
      RepeatedSnoc(init, last, p);
      var before := ValidateCandidateFiles(init);
      if last.path in PathsOf(init) {
        var issue := Issue(High, Ascii("validation"), last.path, REPEATED, None);
        assert ValidateCandidateFiles(files) == before + [issue];
        assert issue in before + [issue];
        if Reported(before, p) {
          var i :| i in before && i.path == p;
          assert i in before + [issue];
        }
      } else {
        assert ValidateCandidateFiles(files) == before + [];
      }
    }
  }

  ghost predicate Repeated(files: seq<GeneratedFile>, p: Text) {
    exists j, k :: 0 <= j < k < |files| && files[j].path == p && files[k].path == p
  }

  lemma RepeatedSnoc(init: seq<GeneratedFile>, last: GeneratedFile, p: Text)
    ensures Repeated(init + [last], p) <==> Repeated(init, p) || (p == last.path && p in PathsOf(init))
  {
    var files := init + [last];
    if Repeated(init, p) {
      var j, k :| 0 <= j < k < |init| && init[j].path == p && init[k].path == p;
      assert files[j].path == p && files[k].path == p;
    }
    if p == last.path && p in PathsOf(init) {
      var j :| 0 <= j < |init| && PathsOf(init)[j] == p;
      assert files[j].path == p && files[|init|].path == p;
    }
    if Repeated(files, p) {
      var j, k :| 0 <= j < k < |files| && files[j].path == p && files[k].path == p;
      assert init[j].path == p && PathsOf(init)[j] == p;
      if k < |init| { assert init[k].path == p; }
    }
  }

  // ---------------------------------------------------------------------
  // Once more

  function AsRaw(f: GeneratedFile): RawFile {
    RawFile(f.path, f.create, f.content)
  }

  function AsRaws(files: seq<GeneratedFile>): seq<RawFile> {
    seq(|files|, i requires 0 <= i < |files| => AsRaw(files[i]))
  }

  predicate DotSlash(p: Text) {
    |p| >= 2 && p[0] == 46 && p[1] == 47
  }

  lemma {:induction false} UniqueStay(files: seq<GeneratedFile>)
    requires DistinctPaths(files)
    ensures DedupeByPath(files) == files
  {
    if files != [] {
      var init, last := files[..|files| - 1], files[|files| - 1];
      UniqueStay(init);
      UpsertNew(init, last);
      assert files == init + [last];
    }
  }

  lemma {:induction false} UpsertNew(files: seq<GeneratedFile>, f: GeneratedFile)
    requires forall i | 0 <= i < |files| :: files[i].path != f.path
    ensures Upsert(files, f) == files + [f]
  {
    if files != [] {
      UpsertNew(files[1..], f);
      assert files == [files[0]] + files[1..];
    }
  }

  /** A safe file of posix form is kept as it is when its path does not begin "./",
      and otherwise not. */
  lemma JudgedAgain(f: GeneratedFile, allowed: set<Text>)
    requires SafePath(f.path) && BACKSLASH !in f.path && (allowed == {} || f.path in allowed)
    ensures Judge(AsRaw(f), allowed) == Keep(f) <==> !DotSlash(f.path)
  {
    assert ToPosix(f.path) == f.path;
    if DotSlash(f.path) {
      var k := NormalizeExact(f.path);
      assert |NormalizePath(f.path)| < |f.path|;
    }
  }

  lemma {:induction false} KeptAgain(files: seq<GeneratedFile>, allowed: set<Text>)
    requires forall f | f in files :: Judge(AsRaw(f), allowed) == Keep(f)
    ensures SafeFiles(AsRaws(files), allowed) == Some(files)
  {
    if files != [] {
      var init, last := files[..|files| - 1], files[|files| - 1];
      assert files == init + [last] && AsRaws(files) == AsRaws(init) + [AsRaw(last)];
      KeptAgain(init, allowed);
      SafeFilesSnoc(AsRaws(init), AsRaw(last), allowed);
    }
  }

  /** At most one file is kept for each entry; when one is kept for every entry, each
      is the one its entry gives. */
  lemma {:induction false} KeptInPlace(raws: seq<RawFile>, allowed: set<Text>)
    ensures SafeFiles(raws, allowed).Some? ==> |SafeFiles(raws, allowed).value| <= |raws|
    ensures SafeFiles(raws, allowed).Some? && |SafeFiles(raws, allowed).value| == |raws| ==>
              forall i | 0 <= i < |raws| :: Judge(raws[i], allowed) == Keep(SafeFiles(raws, allowed).value[i])
  {
    if raws != [] {
      var init, last := raws[..|raws| - 1], raws[|raws| - 1];
      assert raws == init + [last];
      KeptInPlace(init, allowed);
      SafeFilesSnoc(init, last, allowed);
    }
  }

  lemma {:induction false} DedupeShortens(files: seq<GeneratedFile>)
    ensures |DedupeByPath(files)| <= |files|
    ensures |DedupeByPath(files)| == |files| ==> DedupeByPath(files) == files
  {
    if files != [] {
      var init, last := files[..|files| - 1], files[|files| - 1];
      DedupeShortens(init);
      UpsertLength(DedupeByPath(init), last);
      assert files == init + [last];
    }
  }

  lemma {:induction false} UpsertLength(files: seq<GeneratedFile>, f: GeneratedFile)
    ensures |files| <= |Upsert(files, f)| <= |files| + 1
    ensures |Upsert(files, f)| == |files| + 1 ==> Upsert(files, f) == files + [f]
  {
    if files != [] && files[0].path != f.path {
      UpsertLength(files[1..], f);
      assert files == [files[0]] + files[1..];
    }
  }

  lemma KeptIsPosix(raw: RawFile, allowed: set<Text>, f: GeneratedFile)
    requires Judge(raw, allowed) == Keep(f)
    ensures BACKSLASH !in f.path
  {
    var k := NormalizeExact(raw.path);
  }

  lemma MadeSafeOnceMore(files: seq<GeneratedFile>, plan: Plan, limit: nat)
    requires DistinctPaths(files) && |files| <= limit
    requires forall f | f in files :: SafePath(f.path) && BACKSLASH !in f.path && (Allowed(plan) == {} || f.path in Allowed(plan))
    ensures Sanitize(AsRaws(files), plan, limit) == Some(files) <==> forall f | f in files :: !DotSlash(f.path)
  {
    var allowed := Allowed(plan);
    if forall f | f in files :: !DotSlash(f.path) {
      forall f | f in files ensures Judge(AsRaw(f), allowed) == Keep(f) { JudgedAgain(f, allowed); }
      KeptAgain(files, allowed);
      UniqueStay(files);
      assert files[..|files|] == files;
    }
    if Sanitize(AsRaws(files), plan, limit) == Some(files) { NothingDropped(files, plan, limit); }
  }

  lemma NothingDropped(files: seq<GeneratedFile>, plan: Plan, limit: nat)
    requires forall f | f in files :: SafePath(f.path) && BACKSLASH !in f.path && (Allowed(plan) == {} || f.path in Allowed(plan))
    requires Sanitize(AsRaws(files), plan, limit) == Some(files)
    ensures forall f | f in files :: !DotSlash(f.path)
  {
    KeptInPlace(AsRaws(files), Allowed(plan));
    DedupeShortens(SafeFiles(AsRaws(files), Allowed(plan)).value);
    forall f | f in files
      ensures !DotSlash(f.path)
    {
      var i :| 0 <= i < |files| && files[i] == f;
      assert AsRaws(files)[i] == AsRaw(f);
      JudgedAgain(f, Allowed(plan));
    }
  }

  /** A candidate that is checked again goes through the same filter. It stays as it
      is if and only if none of its paths begins "./"; such a path, left by an answer
      that wrote "././", loses that part and with it perhaps its place in the plan. */
  lemma MadeSafeAgain(raws: seq<RawFile>, files: seq<GeneratedFile>, plan: Plan, limit: nat)
    requires Sanitize(raws, plan, limit) == Some(files)
    ensures Sanitize(AsRaws(files), plan, limit) == Some(files) <==> forall f | f in files :: !DotSlash(f.path)
  {
    SanitizedFilesAreSafe(raws, plan, limit);
    forall f | f in files
      ensures BACKSLASH !in f.path
    {
      var r :| r in raws && Judge(r, Allowed(plan)) == Keep(f);
      KeptIsPosix(r, Allowed(plan), f);
    }
    MadeSafeOnceMore(files, plan, limit);
  }

  /** And a generator's answer can leave such a path. */
  lemma DotSlashCanRemain(content: Text)
    ensures var raw := RawFile(Ascii("././a"), true, content);
            Judge(raw, {}) == Keep(GeneratedFile(Ascii("./a"), true, content)) && DotSlash(Ascii("./a"))
  {
    var p, q := Ascii("././a"), Ascii("./a");
    assert p == [46, 47, 46, 47, 97] && q == [46, 47, 97] && ToPosix(p) == p;
    var k := NormalizeExact(p);
    assert k == 2 && p[2..] == q;
    SafePathExact(q);
    DropsToNothing(q);
    assert q[2] != 47;
  }
}
