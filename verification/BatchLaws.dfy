/** How many batches a cluster gives, and which files each of them holds. */
module BatchLaws {
  import opened Common
  import opened Texts
  import opened Paths
  import opened RefactorAnalysis

  // ---------------------------------------------------------------------
  // Directories

  /** A path with a slash is in the directory before its first slash; any other is
      in "root". */
  lemma {:induction false} DirectoryExact(f: File) returns (k: nat)
    ensures k <= |f| && SLASH !in f[..k] && (SLASH in f <==> k < |f|)
    ensures if k < |f| then f[k] == 47 && DirOf(f) == f[..k] else DirOf(f) == Ascii("root")
  {
    k := SlashAt(f);
    assert ROOT == Ascii("root");
  }

  lemma {:induction false} SlashAt(f: File) returns (k: nat)
    ensures k <= |f| && 47 !in f[..k] && (k < |f| ==> f[k] == 47) && (SLASH in f <==> k < |f|)
    ensures BeforeSlash(f) == f[..k]
  {
    if f == [] || f[0] == 47 {
      k := 0;
    } else {
      var rest := SlashAt(f[1..]);
      k := rest + 1;
      assert f == [f[0]] + f[1..] && f[..k] == [f[0]] + f[1..][..rest];
    }
  }

  function Parents(cluster: seq<File>): seq<Text> {
    seq(|cluster|, i requires 0 <= i < |cluster| => DirOf(cluster[i]))
  }

  /** The directories of a cluster, in order of first appearance. */
  function Directories(cluster: seq<File>): seq<Text> {
    Dedupe(Parents(cluster))
  }

  /** The files of a cluster that are in one directory, in their order. */
  function FilesIn(cluster: seq<File>, dir: Text): (r: seq<File>)
    ensures forall f :: f in r <==> f in cluster && DirOf(f) == dir
  {
    if cluster == [] then []
    else FilesIn(cluster[..|cluster| - 1], dir) + if DirOf(cluster[|cluster| - 1]) == dir then [cluster[|cluster| - 1]] else []
  }

  ghost predicate ByDirectoryExact(groups: seq<Group>, cluster: seq<File>) {
    && |groups| == |Directories(cluster)|
    && forall g | 0 <= g < |groups| :: groups[g].dir == Directories(cluster)[g] && groups[g].files == FilesIn(cluster, groups[g].dir)
  }

  lemma {:induction false} AddToGroupAt(groups: seq<Group>, f: File, k: nat)
    requires k <= |groups| && forall g | 0 <= g < k :: groups[g].dir != DirOf(f)
    requires k < |groups| ==> groups[k].dir == DirOf(f)
    ensures AddToGroup(groups, f) ==
              if k < |groups| then groups[k := groups[k].(files := groups[k].files + [f])] else groups + [Group(DirOf(f), [f])]
  {
    if k > 0 {
      AddToGroupAt(groups[1..], f, k - 1);
      assert groups == [groups[0]] + groups[1..];
    }
  }

  lemma DirectoriesSnoc(init: seq<File>, f: File)
    ensures Directories(init + [f]) == if DirOf(f) in Directories(init) then Directories(init) else Directories(init) + [DirOf(f)]
  {
    assert Parents(init + [f])[..|init|] == Parents(init);
  }

  lemma FilesInSnoc(init: seq<File>, f: File, dir: Text)
    ensures FilesIn(init + [f], dir) == FilesIn(init, dir) + if DirOf(f) == dir then [f] else []
  {
    assert (init + [f])[..|init|] == init;
  }

  lemma FilesOfAbsent(cluster: seq<File>, dir: Text)
    ensures FilesIn(cluster, dir) != [] ==> dir in Directories(cluster)
  {
    if FilesIn(cluster, dir) != [] {
      var f := FilesIn(cluster, dir)[0];
      assert f in FilesIn(cluster, dir);
      var i :| 0 <= i < |cluster| && cluster[i] == f;
      assert Parents(cluster)[i] == dir;
    }
  }

  lemma {:induction false} FindDirectory(groups: seq<Group>, dir: Text) returns (k: nat)
    ensures k <= |groups| && (forall g | 0 <= g < k :: groups[g].dir != dir) && (k < |groups| ==> groups[k].dir == dir)
  {
    k := 0;
    while k < |groups| && groups[k].dir != dir
      invariant k <= |groups| && forall g | 0 <= g < k :: groups[g].dir != dir
    {
      k := k + 1;
    }
  }

  lemma {:induction false} GroupsExact(cluster: seq<File>)
    ensures ByDirectoryExact(ByDirectory(cluster), cluster)
  {
    if cluster != [] {
      var init, f := cluster[..|cluster| - 1], cluster[|cluster| - 1];
      GroupsExact(init);
      assert cluster == init + [f];
      GroupsGrow(init, f);
    }
  }

  lemma GroupsGrow(init: seq<File>, f: File)
    requires ByDirectoryExact(ByDirectory(init), init)
    ensures ByDirectoryExact(ByDirectory(init + [f]), init + [f])
  {
    var groups := ByDirectory(init);
    var k := FindDirectory(groups, DirOf(f));
    ByDirectorySnoc(init, f);
    AddToGroupAt(groups, f, k);
    if k < |groups| { OldDirectoryGrows(groups, init, f, k); } else { NewDirectory(groups, init, f); }
  }

  lemma OldDirectoryGrows(groups: seq<Group>, init: seq<File>, f: File, k: nat)
    requires ByDirectoryExact(groups, init) && k < |groups| && groups[k].dir == DirOf(f)
    ensures ByDirectoryExact(groups[k := groups[k].(files := groups[k].files + [f])], init + [f])
  {
    var dirs, after := Directories(init), groups[k := groups[k].(files := groups[k].files + [f])];
    assert dirs[k] in dirs;
    DirectoriesSnoc(init, f);
    forall g | 0 <= g < |after|
      ensures after[g].dir == dirs[g] && after[g].files == FilesIn(init + [f], dirs[g])
    {
      FilesInSnoc(init, f, dirs[g]);
    }
  }

  lemma NewDirectory(groups: seq<Group>, init: seq<File>, f: File)
    requires ByDirectoryExact(groups, init) && forall g | 0 <= g < |groups| :: groups[g].dir != DirOf(f)
    ensures ByDirectoryExact(groups + [Group(DirOf(f), [f])], init + [f])
  {
    var dirs, after := Directories(init), groups + [Group(DirOf(f), [f])];
    AbsentDirectory(groups, init, DirOf(f));
    DirectoriesSnoc(init, f);
    forall g | 0 <= g < |after|
      ensures after[g].dir == (dirs + [DirOf(f)])[g] && after[g].files == FilesIn(init + [f], after[g].dir)
    {
      FilesInSnoc(init, f, after[g].dir);
    }
  }

  lemma AbsentDirectory(groups: seq<Group>, init: seq<File>, dir: Text)
    requires ByDirectoryExact(groups, init) && forall g | 0 <= g < |groups| :: groups[g].dir != dir
    ensures dir !in Directories(init) && FilesIn(init, dir) == []
  {
    FilesOfAbsent(init, dir);
    forall g | 0 <= g < |groups| ensures Directories(init)[g] != dir { assert groups[g].dir == Directories(init)[g]; }
  }

  // ---------------------------------------------------------------------
  // Fives

  /** The files from five times `k` on, five of them at most. */
  function Five(files: seq<File>, k: nat): seq<File> {
    files[Min(5 * k, |files|)..Min(5 * k + 5, |files|)]
  }

  function Named(dir: Text): Option<Text> {
    if dir == Ascii("root") then None else Some(dir)
  }

  lemma FiveLater(files: seq<File>, k: nat)
    requires |files| >= 5
    ensures Five(files[5..], k) == Five(files, k + 1)
  {
    var low, high := Min(5 * k, |files| - 5), Min(5 * k + 5, |files| - 5);
    assert files[5..][low..high] == files[low + 5..high + 5];
  }

  lemma NamedIsModule(dir: Text)
    ensures ModuleOf(dir) == Named(dir)
  {
    assert ROOT == Ascii("root");
  }

  lemma {:induction false} ChunksAreFives(dir: Text, files: seq<File>)
    ensures |Chunks(dir, files)| == (|files| + 4) / 5
    ensures forall k | 0 <= k < |Chunks(dir, files)| :: Chunks(dir, files)[k] == Piece(Named(dir), Five(files, k))
    decreases |files|
  {
    NamedIsModule(dir);
    if |files| >= 5 {
      var rest := files[5..];
      ChunksAreFives(dir, rest);
      assert Chunks(dir, files) == [Piece(Named(dir), Five(files, 0))] + Chunks(dir, rest);
      forall k | 0 < k < |Chunks(dir, files)|
        ensures Chunks(dir, files)[k] == Piece(Named(dir), Five(files, k))
      {
        FiveLater(files, k - 1);
      }
    } else if files != [] {
      FewChunks(dir, files);
    }
  }

  lemma FewChunks(dir: Text, files: seq<File>)
    requires 1 <= |files| < 5
    ensures Chunks(dir, files) == [Piece(ModuleOf(dir), Five(files, 0))]
  {
    assert files[..|files|] == files && files[|files|..] == [];
    assert Five(files, 0) == files;
  }

  // ---------------------------------------------------------------------
  // The layout of the batches

  /** The batch with this number holds these files, sorted, under this module. */
  ghost predicate Holds(b: Batch, index: nat, files: seq<File>, moduleName: Option<Text>) {
    && b.index == index && multiset(b.files) == multiset(files) && Sorted(b.files, Before) && b.moduleName == moduleName
    && (b.behavioral <==> |files| > 3) && b.lead == (if files == [] then None else Some(files[0]))
  }

  lemma PieceLands(pieces: seq<Piece>, i: nat)
    requires i < |pieces|
    ensures Holds(Batches(pieces)[i], i + 1, pieces[i].files, pieces[i].moduleName)
  {
    SortTextsSorts(pieces[i].files);
  }

  /** The batches from number `from + 1` up to `from + n` hold the fives of `files`. */
  ghost predicate HoldsFives(batches: seq<Batch>, from: nat, n: nat, dir: Text, files: seq<File>) {
    && n == (|files| + 4) / 5 && from + n <= |batches|
    && forall k | 0 <= k < n ::
         Holds(batches[from + k], from + k + 1, Five(files, k), Named(dir))
  }

  /** The directories `dirs` of a cluster follow each other between the cuts. */
  ghost predicate HoldsDirectories(batches: seq<Batch>, cuts: seq<nat>, dirs: seq<Text>, cluster: seq<File>) {
    && |cuts| == |dirs| + 1
    && forall d | 0 <= d < |dirs| ::
         cuts[d] <= cuts[d + 1] && HoldsFives(batches, cuts[d], cuts[d + 1] - cuts[d], dirs[d], FilesIn(cluster, dirs[d]))
  }

  /** The batches from `from` up to `to` are those of the cluster. A cluster of at
      most three files is one batch without a module. A larger one has, for each
      of its directories in order of first appearance, one batch for every five of
      its files there and one for the rest, named after the directory unless that
      is "root"; the cuts say where each directory begins. */
  ghost predicate HoldsCluster(batches: seq<Batch>, from: nat, to: nat, cluster: seq<File>, cuts: seq<nat>) {
    from <= to <= |batches| &&
    if |cluster| <= 3 then to == from + 1 && Holds(batches[from], from + 1, cluster, None)
    else HoldsDirectories(batches, cuts, Directories(cluster), cluster) && cuts[0] == from && cuts[|cuts| - 1] == to
  }

  /** The pieces `part` are those from number `from` on. */
  ghost predicate PartAt(pieces: seq<Piece>, from: nat, part: seq<Piece>) {
    from + |part| <= |pieces| && forall k | 0 <= k < |part| :: pieces[from + k] == part[k]
  }

  lemma PartsSplit(pieces: seq<Piece>, from: nat, a: seq<Piece>, b: seq<Piece>)
    requires PartAt(pieces, from, a + b)
    ensures PartAt(pieces, from, a) && PartAt(pieces, from + |a|, b)
  {
    assert forall k | 0 <= k < |a| :: (a + b)[k] == a[k];
    forall k | 0 <= k < |b| ensures pieces[from + |a| + k] == b[k] { assert (a + b)[|a| + k] == b[k]; }
  }

  lemma ChunksLand(pieces: seq<Piece>, from: nat, dir: Text, files: seq<File>)
    requires PartAt(pieces, from, Chunks(dir, files))
    ensures HoldsFives(Batches(pieces), from, |Chunks(dir, files)|, dir, files)
  {
    ChunksAreFives(dir, files);
    forall k | 0 <= k < |Chunks(dir, files)|
      ensures Holds(Batches(pieces)[from + k], from + k + 1, Five(files, k), Named(dir))
    {
      PieceLands(pieces, from + k);
    }
  }

  lemma {:induction false} GroupsLand(pieces: seq<Piece>, from: nat, groups: seq<Group>, dirs: seq<Text>, cluster: seq<File>) returns (cuts: seq<nat>)
    requires |groups| == |dirs| && forall g | 0 <= g < |groups| :: groups[g] == Group(dirs[g], FilesIn(cluster, dirs[g]))
    requires PartAt(pieces, from, ChunksOfAll(groups))
    ensures HoldsDirectories(Batches(pieces), cuts, dirs, cluster)
    ensures cuts[0] == from && cuts[|cuts| - 1] == from + |ChunksOfAll(groups)|
    decreases |groups|
  {
    if groups == [] {
      cuts := [from];
    } else {
      var first, rest := Chunks(groups[0].dir, groups[0].files), ChunksOfAll(groups[1..]);
      PartsSplit(pieces, from, first, rest);
      ChunksLand(pieces, from, groups[0].dir, groups[0].files);
      var more := GroupsLand(pieces, from + |first|, groups[1..], dirs[1..], cluster);
      cuts := [from] + more;
      CutsPrepend(Batches(pieces), from, more, dirs, cluster);
    }
  }

  lemma CutsPrepend(batches: seq<Batch>, from: nat, more: seq<nat>, dirs: seq<Text>, cluster: seq<File>)
    requires dirs != [] && HoldsDirectories(batches, more, dirs[1..], cluster) && from <= more[0]
    requires HoldsFives(batches, from, more[0] - from, dirs[0], FilesIn(cluster, dirs[0]))
    ensures HoldsDirectories(batches, [from] + more, dirs, cluster)
  {
    var cuts := [from] + more;
    forall d | 0 <= d < |dirs|
      ensures cuts[d] <= cuts[d + 1] && HoldsFives(batches, cuts[d], cuts[d + 1] - cuts[d], dirs[d], FilesIn(cluster, dirs[d]))
    {
      if d > 0 { assert dirs[d] == dirs[1..][d - 1] && cuts[d] == more[d - 1] && cuts[d + 1] == more[d]; }
    }
  }

  lemma ClusterLands(pieces: seq<Piece>, from: nat, cluster: seq<File>) returns (cuts: seq<nat>)
    requires PartAt(pieces, from, Pieces(cluster))
    ensures HoldsCluster(Batches(pieces), from, from + |Pieces(cluster)|, cluster, cuts)
  {
    cuts := [];
    if |cluster| <= 3 {
      assert Pieces(cluster) == [Piece(None, cluster)] && pieces[from + 0] == Pieces(cluster)[0];
      PieceLands(pieces, from);
    } else {
      var groups, dirs := ByDirectory(cluster), Directories(cluster);
      GroupsExact(cluster);
      assert forall g | 0 <= g < |groups| :: groups[g] == Group(dirs[g], FilesIn(cluster, dirs[g]));
      cuts := GroupsLand(pieces, from, groups, dirs, cluster);
    }
  }

  /** The batches of the first `n` clusters follow each other between the bounds, and
      inside a cluster between its cuts. */
  ghost predicate HoldsClusters(batches: seq<Batch>, bounds: seq<nat>, cuts: seq<seq<nat>>, clusters: seq<seq<File>>, n: nat) {
    && n <= |clusters| && |cuts| == n && |bounds| == n + 1 && bounds[0] == 0
    && forall c | 0 <= c < n :: HoldsCluster(batches, bounds[c], bounds[c + 1], clusters[c], cuts[c])
  }

  lemma BoundsGrow(batches: seq<Batch>, bounds: seq<nat>, cuts: seq<seq<nat>>, clusters: seq<seq<File>>, n: nat, to: nat, last: seq<nat>)
    returns (more: seq<nat>, all: seq<seq<nat>>)
    requires 0 < n <= |clusters| && HoldsClusters(batches, bounds, cuts, clusters, n - 1)
    requires HoldsCluster(batches, bounds[n - 1], to, clusters[n - 1], last)
    ensures HoldsClusters(batches, more, all, clusters, n) && more[n] == to
  {
    more, all := bounds + [to], cuts + [last];
    forall c | 0 <= c < n
      ensures HoldsCluster(batches, more[c], more[c + 1], clusters[c], all[c])
    {
      if c < n - 1 { assert more[c] == bounds[c] && more[c + 1] == bounds[c + 1] && all[c] == cuts[c]; }
    }
  }

  lemma PiecesSnoc(clusters: seq<seq<File>>, n: nat)
    requires n < |clusters|
    ensures PiecesOfAll(clusters[..n + 1]) == PiecesOfAll(clusters[..n]) + Pieces(clusters[n])
  {
    assert clusters[..n + 1][..n] == clusters[..n];
  }

  lemma ClusterStep(pieces: seq<Piece>, clusters: seq<seq<File>>, n: nat, before: seq<nat>, cuts: seq<seq<nat>>)
    returns (bounds: seq<nat>, all: seq<seq<nat>>)
    requires 0 < n <= |clusters| && HoldsClusters(Batches(pieces), before, cuts, clusters, n - 1)
    requires before[n - 1] == |PiecesOfAll(clusters[..n - 1])| && PartAt(pieces, before[n - 1], Pieces(clusters[n - 1]))
    ensures HoldsClusters(Batches(pieces), bounds, all, clusters, n) && bounds[n] == |PiecesOfAll(clusters[..n])|
  {
    PiecesSnoc(clusters, n - 1);
    var last := ClusterLands(pieces, before[n - 1], clusters[n - 1]);
    bounds, all := BoundsGrow(Batches(pieces), before, cuts, clusters, n, before[n - 1] + |Pieces(clusters[n - 1])|, last);
  }

  lemma FirstParts(pieces: seq<Piece>, clusters: seq<seq<File>>, n: nat)
    requires 0 < n <= |clusters| && PartAt(pieces, 0, PiecesOfAll(clusters[..n]))
    ensures PartAt(pieces, 0, PiecesOfAll(clusters[..n - 1]))
    ensures PartAt(pieces, |PiecesOfAll(clusters[..n - 1])|, Pieces(clusters[n - 1]))
  {
    PiecesSnoc(clusters, n - 1);
    PartsSplit(pieces, 0, PiecesOfAll(clusters[..n - 1]), Pieces(clusters[n - 1]));
  }

  lemma {:induction false} ClustersLand(pieces: seq<Piece>, clusters: seq<seq<File>>, n: nat) returns (bounds: seq<nat>, cuts: seq<seq<nat>>)
    requires n <= |clusters| && PartAt(pieces, 0, PiecesOfAll(clusters[..n]))
    ensures HoldsClusters(Batches(pieces), bounds, cuts, clusters, n) && bounds[n] == |PiecesOfAll(clusters[..n])|
  {
    if n == 0 {
      bounds, cuts := [0], [];
    } else {
      FirstParts(pieces, clusters, n);
      bounds, cuts := ClustersLand(pieces, clusters, n - 1);
      bounds, cuts := ClusterStep(pieces, clusters, n, bounds, cuts);
    }
  }

  /** The batches of all clusters, one cluster after the other. */
  lemma BatchesExact(clusters: seq<seq<File>>) returns (bounds: seq<nat>, cuts: seq<seq<nat>>)
    ensures var batches := Batches(PiecesOfAll(clusters));
            HoldsClusters(batches, bounds, cuts, clusters, |clusters|) && bounds[|clusters|] == |batches|
  {
    assert clusters[..|clusters|] == clusters;
    bounds, cuts := ClustersLand(PiecesOfAll(clusters), clusters, |clusters|);
  }
}
