/** Generated files before they may be written: which are safe, which of several
    versions of a path counts, and which planned targets are still missing. */
module CandidateFiles {
  import opened Common
  import opened Texts
  import opened ReviewIssues

  const DOT: CodeUnit := 46
  const SLASH: CodeUnit := 47
  const BACKSLASH: CodeUnit := 92

  /** One entry of a generator's answer; entries of another shape are skipped. */
  datatype RawFile = NotAFile | RawFile(path: Text, create: bool, content: Text)

  datatype GeneratedFile = GeneratedFile(path: Text, create: bool, content: Text)

  datatype Plan = Plan(readFiles: seq<Text>, writeTargets: seq<Text>)

  function ToPosix(p: Text): Text {
    seq(|p|, i requires 0 <= i < |p| => if p[i] == BACKSLASH then SLASH else p[i])
  }

  function DropSlashes(p: Text): Text {
    if p != [] && p[0] == SLASH then DropSlashes(p[1..]) else p
  }

  /** Removes one leading "./", with any further slashes. */
  function DropDotSlash(p: Text): Text {
    if |p| >= 2 && p[0] == DOT && p[1] == SLASH then DropSlashes(p[1..]) else p
  }

  function NormalizePath(p: Text): Text {
    DropDotSlash(ToPosix(p))
  }

  predicate HasDotDot(p: Text) {
    exists i :: 0 <= i < |p| - 1 && p[i] == DOT && p[i + 1] == DOT
  }

  /** Relative, not empty, and nowhere climbing out of its directory. */
  predicate SafePath(p: Text) {
    p != [] && !HasDotDot(p) && p[0] != SLASH
  }

  function Allowed(plan: Plan): set<Text> {
    Elements(plan.writeTargets + plan.readFiles)
  }

  datatype Verdict = Skip | Reject | Keep(file: GeneratedFile)

  /** What becomes of one entry. A path such as "././" passes the filters and is
      rejected, with the whole answer, when it is resolved a second time. */
  function Judge(raw: RawFile, allowed: set<Text>): Verdict {
    match raw
    case NotAFile => Skip
    case RawFile(path, create, content) =>
      var p := NormalizePath(path);
      if !SafePath(p) || (allowed != {} && p !in allowed) then Skip
      else if DropDotSlash(p) == [] then Reject
      else Keep(GeneratedFile(p, create, content))
  }

  function SafeFiles(raws: seq<RawFile>, allowed: set<Text>): Option<seq<GeneratedFile>> {
    if raws == [] then Some([])
    else
      var init := SafeFiles(raws[..|raws| - 1], allowed);
      match Judge(raws[|raws| - 1], allowed)
      case Skip => init
      case Reject => None
      case Keep(f) => if init.Some? then Some(init.value + [f]) else None
  }

  function PathsOf(files: seq<GeneratedFile>): seq<Text> {
    seq(|files|, i requires 0 <= i < |files| => files[i].path)
  }

  /** Sets an entry of an insertion-ordered map. */
  function Upsert(files: seq<GeneratedFile>, f: GeneratedFile): seq<GeneratedFile> {
    if files == [] then [f]
    else if files[0].path == f.path then [f] + files[1..]
    else [files[0]] + Upsert(files[1..], f)
  }

  function DedupeByPath(files: seq<GeneratedFile>): seq<GeneratedFile> {
    if files == [] then [] else Upsert(DedupeByPath(files[..|files| - 1]), files[|files| - 1])
  }

  function Sanitize(raws: seq<RawFile>, plan: Plan, limit: nat): Option<seq<GeneratedFile>> {
    var safe := SafeFiles(raws, Allowed(plan));
    if safe.None? then None
    else
      var files := DedupeByPath(safe.value);
      Some(files[..Min(limit, |files|)])
  }

  // ---------------------------------------------------------------------

  ghost predicate DistinctPaths(files: seq<GeneratedFile>) {
    forall i, j | 0 <= i < j < |files| :: files[i].path != files[j].path
  }

  /** `f` is the last version of its path in `files`. */
  ghost predicate LastVersion(files: seq<GeneratedFile>, f: GeneratedFile) {
    exists k :: 0 <= k < |files| && files[k] == f && forall j | k < j < |files| :: files[j].path != f.path
  }

  lemma {:induction false} UpsertExact(files: seq<GeneratedFile>, f: GeneratedFile)
    requires DistinctPaths(files)
    ensures DistinctPaths(Upsert(files, f))
    ensures forall g :: g in Upsert(files, f) <==> g == f || (g in files && g.path != f.path)
  {
    if files != [] {
      assert files == [files[0]] + files[1..];
      var r := Upsert(files[1..], f);
      if files[0].path == f.path {
        assert forall g | g in files[1..] :: g.path != f.path;
      } else {
        UpsertExact(files[1..], f);
        assert forall k | 0 <= k < |r| :: r[k] in r;
      }
    }
  }

  lemma LastVersionSnoc(files: seq<GeneratedFile>, f: GeneratedFile, g: GeneratedFile)
    ensures LastVersion(files + [f], g) <==> g == f || (LastVersion(files, g) && g.path != f.path)
  {
    var more := files + [f];
    if g == f { assert more[|files|] == g; }
    if LastVersion(files, g) && g.path != f.path {
      var k :| 0 <= k < |files| && files[k] == g && forall j | k < j < |files| :: files[j].path != g.path;
      assert more[k] == g;
    }
    if LastVersion(more, g) && g != f {
      var k :| 0 <= k < |more| && more[k] == g && forall j | k < j < |more| :: more[j].path != g.path;
      assert more[|files|].path != g.path;
      assert files[k] == g && forall j | k < j < |files| :: files[j] == more[j];
    }
  }

  /** Deduplication keeps each path once, in its last version. */
  lemma {:induction false} DedupeExact(files: seq<GeneratedFile>)
    ensures DistinctPaths(DedupeByPath(files))
    ensures forall f :: f in DedupeByPath(files) <==> LastVersion(files, f)
  {
    if files != [] {
      var init, last := files[..|files| - 1], files[|files| - 1];
      DedupeExact(init);
      UpsertExact(DedupeByPath(init), last);
      assert files == init + [last];
      forall f ensures LastVersion(files, f) <==> f == last || (LastVersion(init, f) && f.path != last.path) {
        LastVersionSnoc(init, last, f);
      }
    }
  }

  lemma {:induction false} SafeFilesExact(raws: seq<RawFile>, allowed: set<Text>)
    ensures SafeFiles(raws, allowed).None? <==> exists r :: r in raws && Judge(r, allowed).Reject?
    ensures SafeFiles(raws, allowed).Some? ==>
              forall f :: f in SafeFiles(raws, allowed).value <==> exists r :: r in raws && Judge(r, allowed) == Keep(f)
  {
    if raws != [] {
      var init, last := raws[..|raws| - 1], raws[|raws| - 1];
      SafeFilesExact(init, allowed);
      assert raws == init + [last];
    }
  }

  /** What may be written is safe: distinct relative paths without "..", all
      planned when there is a plan, at most `limit`, each in the last version
      the generator gave. */
  lemma SanitizedFilesAreSafe(raws: seq<RawFile>, plan: Plan, limit: nat)
    requires Sanitize(raws, plan, limit).Some?
    ensures var files := Sanitize(raws, plan, limit).value;
            && DistinctPaths(files) && |files| <= limit
            && forall f | f in files ::
                 && SafePath(f.path) && (Allowed(plan) == {} || f.path in Allowed(plan))
                 && LastVersion(SafeFiles(raws, Allowed(plan)).value, f)
                 && exists r :: r in raws && Judge(r, Allowed(plan)) == Keep(f)
  {
    var safe := SafeFiles(raws, Allowed(plan)).value;
    SafeFilesExact(raws, Allowed(plan));
    DedupeExact(safe);
    var files := Sanitize(raws, plan, limit).value;
    forall f | f in files
      ensures f in safe && LastVersion(safe, f)
    {
      assert f in DedupeByPath(safe);
    }
  }

  // ---------------------------------------------------------------------

  function MissingTargets(files: seq<GeneratedFile>, targets: seq<Text>): seq<Text> {
    if targets == [] then []
    else
      var init, last := MissingTargets(files, targets[..|targets| - 1]), targets[|targets| - 1];
      if last in PathsOf(files) || last in init then init else init + [last]
  }

  /** Every planned target is among the files. */
  ghost predicate Complete(files: seq<GeneratedFile>, plan: Plan) {
    forall t | t in plan.writeTargets :: exists f :: f in files && f.path == t
  }

  lemma {:induction false} MissingTargetsExact(files: seq<GeneratedFile>, targets: seq<Text>)
    ensures Distinct(MissingTargets(files, targets))
    ensures forall t :: t in MissingTargets(files, targets) <==> t in targets && t !in PathsOf(files)
  {
    if targets != [] {
      MissingTargetsExact(files, targets[..|targets| - 1]);
      assert targets == targets[..|targets| - 1] + [targets[|targets| - 1]];
    }
  }

  lemma NoneMissing(files: seq<GeneratedFile>, plan: Plan)
    ensures MissingTargets(files, plan.writeTargets) == [] <==> Complete(files, plan)
  {
    MissingTargetsExact(files, plan.writeTargets);
    var missing := MissingTargets(files, plan.writeTargets);
    forall t
      ensures t in PathsOf(files) <==> exists f :: f in files && f.path == t
    {
      if t in PathsOf(files) {
        var i :| 0 <= i < |PathsOf(files)| && PathsOf(files)[i] == t;
        assert files[i] in files;
      }
      if f :| f in files && f.path == t {
        var i :| 0 <= i < |files| && files[i] == f;
        assert PathsOf(files)[i] == t;
      }
    }
    if missing != [] { assert missing[0] in missing; }
  }

  lemma {:induction false} FewFilesFewPaths(files: seq<GeneratedFile>, targets: set<Text>)
    requires forall t | t in targets :: exists f :: f in files && f.path == t
    ensures |targets| <= |files|
  {
    if files == [] {
      assert targets == {};
    } else {
      var last := files[|files| - 1];
      var rest := targets - {last.path};
      forall t | t in rest
        ensures exists f :: f in files[..|files| - 1] && f.path == t
      {
        var f :| f in files && f.path == t;
        assert f in files[..|files| - 1];
      }
      FewFilesFewPaths(files[..|files| - 1], rest);
      assert targets <= rest + {last.path};
      assert |targets| <= |rest| + 1 by {
        if last.path in targets { assert targets == rest + {last.path}; } else { assert targets == rest; }
      }
    }
  }

  /** More planned targets than files allowed: no candidate is ever complete. */
  lemma TooManyTargets(raws: seq<RawFile>, plan: Plan, limit: nat)
    requires |Elements(plan.writeTargets)| > limit && Sanitize(raws, plan, limit).Some?
    ensures !Complete(Sanitize(raws, plan, limit).value, plan)
  {
    if Complete(Sanitize(raws, plan, limit).value, plan) {
      FewFilesFewPaths(Sanitize(raws, plan, limit).value, Elements(plan.writeTargets));
    }
  }

  // ---------------------------------------------------------------------

  const REPEATED: Text := Ascii("Generator returned the same file path more than once.")

  function ValidateCandidateFiles(files: seq<GeneratedFile>): seq<Issue> {
    if files == [] then []
    else
      var init, last := files[..|files| - 1], files[|files| - 1];
      ValidateCandidateFiles(init) +
      if last.path in PathsOf(init) then [Issue(High, Ascii("validation"), last.path, REPEATED, None)] else []
  }

  /** A sanitised candidate never fails its own validation: the repeated-path
      check can only fire on files that were not deduplicated. */
  lemma {:induction false} ValidatesIffDistinct(files: seq<GeneratedFile>)
    ensures ValidateCandidateFiles(files) == [] <==> DistinctPaths(files)
  {
    if files != [] {
      var init, last := files[..|files| - 1], files[|files| - 1];
      ValidatesIffDistinct(init);
      if last.path in PathsOf(init) {
        var i :| 0 <= i < |PathsOf(init)| && PathsOf(init)[i] == last.path;
        assert files[i].path == last.path;
      } else {
        assert forall i | 0 <= i < |init| :: PathsOf(init)[i] == files[i].path && PathsOf(init)[i] in PathsOf(init);
      }
    }
  }

  // ---------------------------------------------------------------------

  method DedupeFilesByPath(files: seq<GeneratedFile>) returns (r: seq<GeneratedFile>)
    ensures r == DedupeByPath(files)
  {
    r := [];
    for k := 0 to |files|
      invariant r == DedupeByPath(files[..k])
    {
      assert files[..k + 1][..k] == files[..k];
      r := Upsert(r, files[k]);
    }
    assert files[..|files|] == files;
  }

  method SanitizeGeneratedFiles(raws: seq<RawFile>, plan: Plan, limit: nat) returns (r: Option<seq<GeneratedFile>>)
    ensures r == Sanitize(raws, plan, limit)
  {
    var allowed := Allowed(plan);
    var safe: seq<GeneratedFile> := [];
    for k := 0 to |raws|
      invariant SafeFiles(raws[..k], allowed) == Some(safe)
    {
      assert raws[..k + 1][..k] == raws[..k];
      match Judge(raws[k], allowed)
      case Skip =>
      case Reject =>
        RejectIsFinal(raws, allowed, k);
        return None;
      case Keep(f) => safe := safe + [f];
    }
    assert raws[..|raws|] == raws;
    var files := DedupeFilesByPath(safe);
    r := Some(files[..Min(limit, |files|)]);
  }

  lemma RejectIsFinal(raws: seq<RawFile>, allowed: set<Text>, k: nat)
    requires k < |raws| && Judge(raws[k], allowed).Reject?
    ensures SafeFiles(raws, allowed).None?
  {
    assert raws[k] in raws;
    SafeFilesExact(raws, allowed);
  }
}
