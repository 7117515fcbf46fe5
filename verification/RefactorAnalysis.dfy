/** Refactor planning: the affected files, their connected components in the
    import graph, and the batches these are split into. */
module RefactorAnalysis {
  import opened Common
  import opened Texts
  import opened Paths
  import G = DependencyGraph

  function OnlyIn(s: seq<File>, files: seq<File>): (r: seq<File>)
    ensures forall f :: f in r <==> f in s && f in files
  {
    if s == [] then []
    else OnlyIn(s[..|s| - 1], files) + if s[|s| - 1] in files then [s[|s| - 1]] else []
  }

  /** The import graph induced on `files`, edges taken both ways. */
  function Induced(nodes: G.Nodes, files: seq<File>): Links {
    f => OnlyIn(G.Neighbours(nodes, f), files)
  }

  ghost predicate Connected(nodes: G.Nodes, files: seq<File>, a: File, b: File) {
    Reachable(Induced(nodes, files), [a], b)
  }

  lemma NeighboursSymmetric(nodes: G.Nodes, f: File, g: File)
    requires G.Balanced(nodes) && g in G.Neighbours(nodes, f)
    ensures f in G.Neighbours(nodes, g)
  {
    assert G.OutCount(nodes, f, g) == G.InCount(nodes, f, g);
    assert G.OutCount(nodes, g, f) == G.InCount(nodes, g, f);
  }

  /** The files of `files` connected to `a`. */
  ghost function Component(nodes: G.Nodes, files: seq<File>, a: File): set<File> {
    set x | x in files && Connected(nodes, files, a, x)
  }

  ghost predicate Closed(nodes: G.Nodes, files: seq<File>, s: set<File>) {
    forall x, y | x in s && y in G.Neighbours(nodes, x) && y in files :: y in s
  }

  lemma {:induction false} ComponentClosed(nodes: G.Nodes, files: seq<File>, a: File)
    requires a in files
    ensures a in Component(nodes, files, a) && Closed(nodes, files, Component(nodes, files, a))
  {
    StartWithin(Induced(nodes, files), [a], a, 0);
    forall x, y | x in Component(nodes, files, a) && y in G.Neighbours(nodes, x) && y in files
      ensures y in Component(nodes, files, a)
    {
      StepReachable(Induced(nodes, files), [a], x, y);
    }
  }

  lemma ComponentLeast(nodes: G.Nodes, files: seq<File>, a: File, s: set<File>, b: File)
    requires a in s && Closed(nodes, files, s) && Connected(nodes, files, a, b)
    ensures b in s
  {
    var p :| Leads(Induced(nodes, files), [a], b, p);
    ClosedHoldsPath(Induced(nodes, files), [a], s, b, p);
  }

  lemma {:induction false} Prepend(nodes: G.Nodes, files: seq<File>, y: File, x: File, a: File)
    requires Connected(nodes, files, x, a) && x in G.Neighbours(nodes, y) && x in files
    ensures Connected(nodes, files, y, a)
  {
    var p :| Leads(Induced(nodes, files), [x], a, p);
    assert Leads(Induced(nodes, files), [y], a, [y] + p);
  }

  lemma ConnectedSymmetric(nodes: G.Nodes, files: seq<File>, a: File, b: File)
    requires G.Balanced(nodes) && a in files && Connected(nodes, files, a, b)
    ensures Connected(nodes, files, b, a) && b in files
  {
    var s := set x | x in files && Connected(nodes, files, x, a);
    StartWithin(Induced(nodes, files), [a], a, 0);
    forall x, y | x in s && y in G.Neighbours(nodes, x) && y in files
      ensures y in s
    {
      NeighboursSymmetric(nodes, x, y);
      Prepend(nodes, files, y, x, a);
    }
    ComponentLeast(nodes, files, a, s, b);
  }

  lemma ConnectedTransitive(nodes: G.Nodes, files: seq<File>, a: File, b: File, c: File)
    requires a in files && b in files && Connected(nodes, files, a, b) && Connected(nodes, files, b, c)
    ensures Connected(nodes, files, a, c)
  {
    ComponentClosed(nodes, files, a);
    ComponentLeast(nodes, files, b, Component(nodes, files, a), c);
  }

  /** `cluster` lists, without repetition, one whole connected component. */
  ghost predicate IsComponent(nodes: G.Nodes, files: seq<File>, cluster: seq<File>) {
    && cluster != [] && Distinct(cluster)
    && forall a | a in cluster :: a in files && forall b :: b in cluster <==> Connected(nodes, files, a, b)
  }

  lemma ComponentOfRoot(nodes: G.Nodes, files: seq<File>, root: File, cluster: seq<File>)
    requires G.Balanced(nodes) && root in files && Distinct(cluster)
    requires forall x :: x in cluster <==> x in Component(nodes, files, root)
    ensures IsComponent(nodes, files, cluster)
  {
    ComponentClosed(nodes, files, root);
    forall a, b | a in cluster
      ensures b in cluster <==> Connected(nodes, files, a, b)
    {
      ConnectedSymmetric(nodes, files, root, a);
      if b in cluster { ConnectedTransitive(nodes, files, a, root, b); }
      if Connected(nodes, files, a, b) {
        ConnectedSymmetric(nodes, files, a, b);
        ConnectedTransitive(nodes, files, root, a, b);
      }
    }
  }

  // ---------------------------------------------------------------------

  function Flatten(clusters: seq<seq<File>>): seq<File> {
    if clusters == [] then [] else Flatten(clusters[..|clusters| - 1]) + clusters[|clusters| - 1]
  }

  predicate Longer(a: seq<File>, b: seq<File>) {
    |a| > |b|
  }

  lemma {:induction false} FlattenInsert(x: seq<File>, sorted: seq<seq<File>>)
    ensures multiset(Flatten(Insert(x, sorted, Longer))) == multiset(Flatten(sorted)) + multiset(x)
  {
    if sorted == [] || !Longer(x, sorted[|sorted| - 1]) {
      assert (sorted + [x])[..|sorted|] == sorted;
    } else {
      var init, last := sorted[..|sorted| - 1], sorted[|sorted| - 1];
      FlattenInsert(x, init);
      assert (Insert(x, init, Longer) + [last])[..|Insert(x, init, Longer)|] == Insert(x, init, Longer);
    }
  }

  lemma {:induction false} FlattenSorted(clusters: seq<seq<File>>)
    ensures multiset(Flatten(SortBy(clusters, Longer))) == multiset(Flatten(clusters))
  {
    if clusters != [] {
      FlattenSorted(clusters[..|clusters| - 1]);
      FlattenInsert(clusters[|clusters| - 1], SortBy(clusters[..|clusters| - 1], Longer));
    }
  }

  lemma {:induction false} DistinctFits(s: seq<File>, room: set<File>)
    requires Distinct(s) && forall f | f in s :: f in room
    ensures |s| <= |room|
  {
    if s != [] {
      var last := s[|s| - 1];
      DistinctFits(s[..|s| - 1], room - {last});
    }
  }

  /** The clusters are the connected components of the graph induced on `files`:
      every file is in exactly one cluster, once, and each cluster is a whole
      component; larger clusters come first. */
  ghost predicate AreComponents(nodes: G.Nodes, files: seq<File>, clusters: seq<seq<File>>) {
    && (forall i | 0 <= i < |clusters| :: IsComponent(nodes, files, clusters[i]) && Sorted(clusters[i], Before))
    && Distinct(Flatten(clusters)) && (forall f :: f in Flatten(clusters) <==> f in files)
    && Sorted(clusters, Longer)
  }

  /** Growing one cluster. `order` lists its files as they were found, the first
      `taken` of them out of the queue: all are new and connected to the root, and
      whatever a file out of the queue touches has been visited. */
  ghost predicate Growing(nodes: G.Nodes, files: seq<File>, component: set<File>, before: set<File>,
                          order: seq<File>, taken: nat, visited: set<File>)
  {
    && Distinct(order) && taken <= |order|
    && (forall f :: f in visited <==> f in before || f in order)
    && (forall f | f in order :: f in component && f !in before)
    && (forall i, g | 0 <= i < taken && g in G.Neighbours(nodes, order[i]) && g in files :: g in visited)
  }

  /** The connections that are affected and not yet visited, in order. */
  function Unvisited(connections: seq<File>, files: seq<File>, visited: set<File>): (r: seq<File>)
    requires Distinct(connections)
    ensures Distinct(r) && forall f :: f in r <==> f in connections && f in files && f !in visited
  {
    if connections == [] then []
    else
      var last := connections[|connections| - 1];
      var r := Unvisited(connections[..|connections| - 1], files, visited);
      if last in files && last !in visited then r + [last] else r
  }

  lemma DisjointDistinct(a: seq<File>, b: seq<File>)
    requires Distinct(a) && Distinct(b) && forall f | f in a :: f !in b
    ensures Distinct(a + b)
  {
    assert forall i | 0 <= i < |a| :: a[i] in a;
    assert forall i | 0 <= i < |b| :: b[i] in b;
  }

  lemma GrowingAdvances(nodes: G.Nodes, files: seq<File>, component: set<File>, before: set<File>,
                        order: seq<File>, taken: nat, visited: set<File>, more: seq<File>)
    requires Growing(nodes, files, component, before, order, taken, visited) && taken < |order|
    requires Closed(nodes, files, component)
    requires Distinct(more) && forall f :: f in more <==> f in G.Neighbours(nodes, order[taken]) && f in files && f !in visited
    ensures Growing(nodes, files, component, before, order + more, taken + 1, visited + Elements(more))
  {
    forall f | f in more
      ensures f in component && f !in before && f !in order
    {
      assert order[taken] in component && f in G.Neighbours(nodes, order[taken]);
    }
    DisjointDistinct(order, more);
    forall i, g | 0 <= i < taken + 1 && g in G.Neighbours(nodes, (order + more)[i]) && g in files
      ensures g in visited + Elements(more)
    {
      assert (order + more)[i] == order[i];
    }
  }

  /** One round: the front of the queue moves to the cluster, and what it touches
      joins the queue. */
  lemma RoundAdvances(nodes: G.Nodes, files: seq<File>, component: set<File>, before: set<File>,
                      cluster: seq<File>, queue: seq<File>, visited: set<File>, more: seq<File>)
    requires queue != [] && Growing(nodes, files, component, before, cluster + queue, |cluster|, visited)
    requires Closed(nodes, files, component)
    requires Distinct(more) && forall f :: f in more <==> f in G.Neighbours(nodes, queue[0]) && f in files && f !in visited
    ensures |cluster| < |component|
    ensures forall f | f in cluster + queue :: f in (cluster + [queue[0]]) + (queue[1..] + more)
    ensures Growing(nodes, files, component, before, (cluster + [queue[0]]) + (queue[1..] + more), |cluster| + 1, visited + Elements(more))
  {
    GrowingAdvances(nodes, files, component, before, cluster + queue, |cluster|, visited, more);
    DistinctFits(cluster + queue, component);
    assert (cluster + [queue[0]]) + (queue[1..] + more) == (cluster + queue) + more;
  }

  /** When the queue is empty the cluster is the component of its root. */
  lemma GrownIsComponent(nodes: G.Nodes, files: seq<File>, root: File, before: set<File>, cluster: seq<File>, visited: set<File>)
    requires G.Balanced(nodes) && root in files && root in cluster && Closed(nodes, files, before)
    requires Growing(nodes, files, Component(nodes, files, root), before, cluster, |cluster|, visited)
    ensures IsComponent(nodes, files, cluster)
  {
    forall x, y | x in cluster && y in G.Neighbours(nodes, x) && y in files
      ensures y in cluster
    {
      NeighboursSymmetric(nodes, x, y);
      assert x in files;
    }
    assert Closed(nodes, files, Elements(cluster));
    forall x
      ensures x in cluster <==> x in Component(nodes, files, root)
    {
      if x in Component(nodes, files, root) { ComponentLeast(nodes, files, root, Elements(cluster), x); }
    }
    ComponentOfRoot(nodes, files, root, cluster);
  }

  lemma GrownIsClosed(nodes: G.Nodes, files: seq<File>, component: set<File>, before: set<File>, cluster: seq<File>, visited: set<File>)
    requires Closed(nodes, files, before)
    requires Growing(nodes, files, component, before, cluster, |cluster|, visited)
    ensures Closed(nodes, files, visited)
  {
  }

  method GrowCluster(files: seq<File>, graph: G.DependencyGraph, root: File, before: set<File>)
    returns (cluster: seq<File>, visited: set<File>)
    requires graph.Valid() && root in files && root !in before && Closed(graph.nodes, files, before)
    ensures IsComponent(graph.nodes, files, cluster) && root in cluster
    ensures Closed(graph.nodes, files, visited)
    ensures forall f :: f in visited <==> f in before || f in cluster
    ensures forall f | f in cluster :: f !in before
  {
    ghost var nodes, component := graph.nodes, Component(graph.nodes, files, root);
    ComponentClosed(nodes, files, root);
    cluster := [];
    var queue := [root];
    visited := before + {root};
    while queue != []
      invariant Growing(nodes, files, component, before, cluster + queue, |cluster|, visited)
      invariant root in cluster + queue
      decreases |component| - |cluster|
    {
      var connections := graph.GetConnections(queue[0]);
      var more := Unvisited(connections, files, visited);
      RoundAdvances(nodes, files, component, before, cluster, queue, visited, more);
      cluster, queue, visited := cluster + [queue[0]], queue[1..] + more, visited + Elements(more);
    }
    assert cluster + queue == cluster;
    GrownIsComponent(nodes, files, root, before, cluster, visited);
    GrownIsClosed(nodes, files, component, before, cluster, visited);
  }

  /** The clusters found so far, covering just the visited files. */
  ghost predicate Collected(nodes: G.Nodes, files: seq<File>, clusters: seq<seq<File>>, visited: set<File>) {
    && Closed(nodes, files, visited) && Distinct(Flatten(clusters))
    && (forall f :: f in Flatten(clusters) <==> f in visited)
    && (forall f | f in visited :: f in files)
    && (forall i | 0 <= i < |clusters| :: IsComponent(nodes, files, clusters[i]) && Sorted(clusters[i], Before))
  }

  lemma NothingCollected(nodes: G.Nodes, files: seq<File>)
    ensures Collected(nodes, files, [], {})
  {
  }

  lemma SortedIsComponent(nodes: G.Nodes, files: seq<File>, cluster: seq<File>)
    requires IsComponent(nodes, files, cluster)
    ensures IsComponent(nodes, files, SortTexts(cluster)) && Sorted(SortTexts(cluster), Before)
    ensures forall f :: f in SortTexts(cluster) <==> f in cluster
  {
    SortTextsSorts(cluster);
    SameMultisetSameElements(cluster, SortTexts(cluster));
    PermutationKeepsDistinct(cluster, SortTexts(cluster));
  }

  lemma FlattenSnoc(clusters: seq<seq<File>>, cluster: seq<File>)
    ensures Flatten(clusters + [cluster]) == Flatten(clusters) + cluster
  {
    assert (clusters + [cluster])[..|clusters|] == clusters;
  }

  lemma CollectedGrows(nodes: G.Nodes, files: seq<File>, clusters: seq<seq<File>>, before: set<File>,
                       cluster: seq<File>, visited: set<File>)
    requires Collected(nodes, files, clusters, before)
    requires IsComponent(nodes, files, cluster) && Closed(nodes, files, visited)
    requires forall f :: f in visited <==> f in before || f in cluster
    requires forall f | f in cluster :: f !in before
    ensures Collected(nodes, files, clusters + [SortTexts(cluster)], visited)
  {
    SortedIsComponent(nodes, files, cluster);
    FlattenSnoc(clusters, SortTexts(cluster));
    DisjointDistinct(Flatten(clusters), SortTexts(cluster));
  }

  lemma CollectedSorted(nodes: G.Nodes, files: seq<File>, clusters: seq<seq<File>>, visited: set<File>)
    requires Collected(nodes, files, clusters, visited)
    requires forall f | f in files :: f in visited
    ensures AreComponents(nodes, files, SortBy(clusters, Longer))
  {
    var sorted := SortBy(clusters, Longer);
    FlattenSorted(clusters);
    SameMultisetSameElements(Flatten(clusters), Flatten(sorted));
    PermutationKeepsDistinct(Flatten(clusters), Flatten(sorted));
    SortPermutes(clusters, Longer);
    SameMultisetSameElements(clusters, sorted);
    SortSorts(clusters, Longer);
    assert forall i | 0 <= i < |sorted| :: sorted[i] in sorted;
  }

  method BuildDependencyClusters(files: seq<File>, graph: G.DependencyGraph) returns (clusters: seq<seq<File>>)
    requires graph.Valid()
    ensures AreComponents(graph.nodes, files, clusters)
  {
    ghost var nodes := graph.nodes;
    var visited: set<File> := {};
    clusters := [];
    NothingCollected(nodes, files);
    for k := 0 to |files|
      invariant Collected(nodes, files, clusters, visited)
      invariant forall f | f in files[..k] :: f in visited
    {
      assert files[..k + 1] == files[..k] + [files[k]];
      if files[k] !in visited {
        ghost var before, known := visited, clusters;
        var cluster: seq<File>;
        cluster, visited := GrowCluster(files, graph, files[k], visited);
        clusters := clusters + [SortTexts(cluster)];
        CollectedGrows(nodes, files, known, before, cluster, visited);
      }
    }
    assert files[..|files|] == files;
    CollectedSorted(nodes, files, clusters, visited);
    clusters := SortBy(clusters, Longer);
  }

  // ---------------------------------------------------------------------
  // Batches

  const SLASH: CodeUnit := 47
  const ROOT: Text := [114, 111, 111, 116]
  const SMALL_CLUSTER := 3
  const MAX_FILES_PER_BATCH := 5

  function BeforeSlash(f: Text): Text {
    if f == [] || f[0] == SLASH then [] else [f[0]] + BeforeSlash(f[1..])
  }

  /** The first path segment; top-level files count as the directory "root". */
  function DirOf(f: File): Text {
    if SLASH in f then BeforeSlash(f) else ROOT
  }

  /** The files of one batch and the module it is named after, if any. */
  datatype Piece = Piece(moduleName: Option<Text>, files: seq<File>)

  datatype Batch = Batch(index: nat, lead: Option<File>, files: seq<File>, moduleName: Option<Text>, behavioral: bool)

  function CreateBatch(index: nat, piece: Piece): Batch {
    var lead := if piece.files == [] then None else Some(piece.files[0]);
    Batch(index, lead, SortTexts(piece.files), piece.moduleName, |piece.files| > SMALL_CLUSTER)
  }

  /** One directory's files, in order of first appearance. */
  datatype Group = Group(dir: Text, files: seq<File>)

  function AddToGroup(groups: seq<Group>, f: File): seq<Group> {
    if groups == [] then [Group(DirOf(f), [f])]
    else if groups[0].dir == DirOf(f) then [groups[0].(files := groups[0].files + [f])] + groups[1..]
    else [groups[0]] + AddToGroup(groups[1..], f)
  }

  function ByDirectory(cluster: seq<File>): seq<Group> {
    if cluster == [] then []
    else AddToGroup(ByDirectory(cluster[..|cluster| - 1]), cluster[|cluster| - 1])
  }

  function ModuleOf(dir: Text): Option<Text> {
    if dir != ROOT then Some(dir) else None
  }

  function Chunks(dir: Text, files: seq<File>): seq<Piece> {
    if |files| == 0 then []
    else
      var size := Min(MAX_FILES_PER_BATCH, |files|);
      [Piece(ModuleOf(dir), files[..size])] + Chunks(dir, files[size..])
  }

  function ChunksOfAll(groups: seq<Group>): seq<Piece> {
    if groups == [] then [] else Chunks(groups[0].dir, groups[0].files) + ChunksOfAll(groups[1..])
  }

  function Pieces(cluster: seq<File>): seq<Piece> {
    if |cluster| <= SMALL_CLUSTER then [Piece(None, cluster)] else ChunksOfAll(ByDirectory(cluster))
  }

  function PiecesOfAll(clusters: seq<seq<File>>): seq<Piece> {
    if clusters == [] then [] else PiecesOfAll(clusters[..|clusters| - 1]) + Pieces(clusters[|clusters| - 1])
  }

  function Batches(pieces: seq<Piece>): seq<Batch> {
    seq(|pieces|, i requires 0 <= i < |pieces| => CreateBatch(i + 1, pieces[i]))
  }

  function FilesOf(pieces: seq<Piece>): seq<File> {
    if pieces == [] then [] else FilesOf(pieces[..|pieces| - 1]) + pieces[|pieces| - 1].files
  }

  function GroupedFiles(groups: seq<Group>): seq<File> {
    if groups == [] then [] else groups[0].files + GroupedFiles(groups[1..])
  }

  lemma {:induction false} FilesOfConcat(a: seq<Piece>, b: seq<Piece>)
    ensures FilesOf(a + b) == FilesOf(a) + FilesOf(b)
  {
    if b == [] {
      assert a + b == a;
    } else {
      assert (a + b)[..|a + b| - 1] == a + b[..|b| - 1];
      FilesOfConcat(a, b[..|b| - 1]);
    }
  }

  lemma {:induction false} ChunksPartition(dir: Text, files: seq<File>)
    ensures FilesOf(Chunks(dir, files)) == files
  {
    if |files| > 0 {
      var size := Min(MAX_FILES_PER_BATCH, |files|);
      var first := Piece(ModuleOf(dir), files[..size]);
      ChunksPartition(dir, files[size..]);
      FilesOfConcat([first], Chunks(dir, files[size..]));
      assert [first][..0] == [] && FilesOf([first]) == files[..size];
      assert files == files[..size] + files[size..];
    }
  }

  lemma {:induction false} ChunksAreSmall(dir: Text, files: seq<File>, p: Piece)
    requires p in Chunks(dir, files)
    ensures 1 <= |p.files| <= MAX_FILES_PER_BATCH && p.moduleName == ModuleOf(dir) && forall f | f in p.files :: f in files
  {
    var size := Min(MAX_FILES_PER_BATCH, |files|);
    if p != Piece(ModuleOf(dir), files[..size]) { ChunksAreSmall(dir, files[size..], p); }
  }

  /** Every file of a group belongs to the group's directory. */
  ghost predicate Grouped(groups: seq<Group>) {
    forall g | g in groups :: forall f | f in g.files :: DirOf(f) == g.dir
  }

  lemma {:induction false} AddToGroupGroups(groups: seq<Group>, f: File)
    requires Grouped(groups)
    ensures Grouped(AddToGroup(groups, f))
  {
    if groups != [] {
      assert groups[0] in groups && forall g | g in groups[1..] :: g in groups;
      if groups[0].dir != DirOf(f) { AddToGroupGroups(groups[1..], f); }
    }
  }

  lemma {:induction false} AddToGroupConserves(groups: seq<Group>, f: File)
    ensures multiset(GroupedFiles(AddToGroup(groups, f))) == multiset(GroupedFiles(groups)) + multiset{f}
  {
    if groups == [] {
      assert [Group(DirOf(f), [f])][1..] == [];
    } else if groups[0].dir != DirOf(f) {
      AddToGroupConserves(groups[1..], f);
      assert ([groups[0]] + AddToGroup(groups[1..], f))[1..] == AddToGroup(groups[1..], f);
    } else {
      var grown := groups[0].(files := groups[0].files + [f]);
      assert ([grown] + groups[1..])[1..] == groups[1..];
    }
  }

  lemma {:induction false} ByDirectoryGroups(cluster: seq<File>)
    ensures Grouped(ByDirectory(cluster))
  {
    if cluster != [] {
      ByDirectoryGroups(cluster[..|cluster| - 1]);
      AddToGroupGroups(ByDirectory(cluster[..|cluster| - 1]), cluster[|cluster| - 1]);
    }
  }

  lemma ByDirectorySnoc(init: seq<File>, last: File)
    ensures ByDirectory(init + [last]) == AddToGroup(ByDirectory(init), last)
  {
    assert (init + [last])[..|init|] == init;
  }

  /** A bag that takes in the elements of a list one by one ends up with them all. */
  lemma {:induction false} AddsUp<T(!new)>(bag: seq<T> -> multiset<T>, s: seq<T>)
    requires bag([]) == multiset{}
    requires forall init: seq<T>, last: T {:trigger bag(init + [last])} :: bag(init + [last]) == bag(init) + multiset{last}
    ensures bag(s) == multiset(s)
  {
    if s != [] {
      var init, last := s[..|s| - 1], s[|s| - 1];
      AddsUp(bag, init);
      assert s == init + [last];
    }
  }

  function Bag(cluster: seq<File>): multiset<File> {
    multiset(GroupedFiles(ByDirectory(cluster)))
  }

  lemma BagSnoc(init: seq<File>, last: File)
    ensures Bag(init + [last]) == Bag(init) + multiset{last}
  {
    ByDirectorySnoc(init, last);
    AddToGroupConserves(ByDirectory(init), last);
  }

  lemma ByDirectoryConserves(cluster: seq<File>)
    ensures Bag(cluster) == multiset(cluster)
  {
    forall init: seq<File>, last: File ensures Bag(init + [last]) == Bag(init) + multiset{last} { BagSnoc(init, last); }
    AddsUp(Bag, cluster);
  }

  /** A piece is small, lies inside `cluster`, and is either the whole of a small
      cluster or files of the one directory it is named after. */
  ghost predicate PieceOk(p: Piece, cluster: seq<File>) {
    && 1 <= |p.files| <= MAX_FILES_PER_BATCH && (forall f | f in p.files :: f in cluster)
    && match p.moduleName
       case Some(dir) => forall f | f in p.files :: DirOf(f) == dir
       case None => (p.files == cluster && |cluster| <= SMALL_CLUSTER) || forall f | f in p.files :: DirOf(f) == ROOT
  }

  lemma {:induction false} ChunksOfAllPartition(groups: seq<Group>, cluster: seq<File>)
    requires Grouped(groups) && forall f | f in GroupedFiles(groups) :: f in cluster
    ensures FilesOf(ChunksOfAll(groups)) == GroupedFiles(groups)
    ensures forall p | p in ChunksOfAll(groups) :: PieceOk(p, cluster)
  {
    if groups != [] {
      var g := groups[0];
      assert g in groups && forall h | h in groups[1..] :: h in groups;
      ChunksOfAllPartition(groups[1..], cluster);
      ChunksPartition(g.dir, g.files);
      forall p | p in Chunks(g.dir, g.files) ensures PieceOk(p, cluster) { ChunksAreSmall(g.dir, g.files, p); }
      FilesOfConcat(Chunks(g.dir, g.files), ChunksOfAll(groups[1..]));
    }
  }

  lemma PiecesPartition(cluster: seq<File>)
    requires cluster != []
    ensures multiset(FilesOf(Pieces(cluster))) == multiset(cluster)
    ensures forall p | p in Pieces(cluster) :: PieceOk(p, cluster)
  {
    if |cluster| <= SMALL_CLUSTER {
      assert [Piece(None, cluster)][..0] == [];
      assert FilesOf([Piece(None, cluster)]) == cluster;
    } else {
      ByDirectoryGroups(cluster);
      ByDirectoryConserves(cluster);
      SameMultisetSameElements(GroupedFiles(ByDirectory(cluster)), cluster);
      ChunksOfAllPartition(ByDirectory(cluster), cluster);
    }
  }

  /** Some cluster has the piece as a proper part. */
  ghost predicate PieceOfSome(p: Piece, clusters: seq<seq<File>>) {
    exists i :: 0 <= i < |clusters| && PieceOk(p, clusters[i])
  }

  lemma {:induction false} PiecesOfAllPartition(clusters: seq<seq<File>>)
    requires forall i | 0 <= i < |clusters| :: clusters[i] != []
    ensures multiset(FilesOf(PiecesOfAll(clusters))) == multiset(Flatten(clusters))
    ensures forall p | p in PiecesOfAll(clusters) :: PieceOfSome(p, clusters)
  {
    if clusters != [] {
      var init, last := clusters[..|clusters| - 1], clusters[|clusters| - 1];
      PiecesOfAllPartition(init);
      PiecesPartition(last);
      FilesOfConcat(PiecesOfAll(init), Pieces(last));
      forall p | p in PiecesOfAll(clusters)
        ensures PieceOfSome(p, clusters)
      {
        if p in PiecesOfAll(init) {
          var i :| 0 <= i < |init| && PieceOk(p, init[i]);
          assert PieceOk(p, clusters[i]);
        } else {
          assert PieceOk(p, clusters[|clusters| - 1]);
        }
      }
    }
  }

  function BatchFiles(batches: seq<Batch>): seq<File> {
    if batches == [] then [] else BatchFiles(batches[..|batches| - 1]) + batches[|batches| - 1].files
  }

  lemma {:induction false} BatchesKeepFiles(pieces: seq<Piece>)
    ensures multiset(BatchFiles(Batches(pieces))) == multiset(FilesOf(pieces))
  {
    if pieces != [] {
      var init, last := pieces[..|pieces| - 1], pieces[|pieces| - 1];
      BatchesKeepFiles(init);
      assert Batches(pieces)[..|pieces| - 1] == Batches(init);
      SortTextsSorts(last.files);
    }
  }

  /** A batch is not too large, is sorted, lies inside one cluster, and is named
      after a module only when all its files are in that module. */
  ghost predicate BatchOk(b: Batch, index: nat, clusters: seq<seq<File>>) {
    && b.index == index && 1 <= |b.files| <= MAX_FILES_PER_BATCH && Sorted(b.files, Before)
    && (b.behavioral <==> |b.files| > SMALL_CLUSTER)
    && b.lead.Some? && b.lead.value in b.files
    && (exists i :: 0 <= i < |clusters| && forall f | f in b.files :: f in clusters[i])
    && (b.moduleName.Some? ==> forall f | f in b.files :: DirOf(f) == b.moduleName.value)
  }

  lemma BatchIsOk(index: nat, p: Piece, clusters: seq<seq<File>>)
    requires PieceOfSome(p, clusters)
    ensures BatchOk(CreateBatch(index, p), index, clusters)
  {
    SortTextsSorts(p.files);
    SameMultisetSameElements(p.files, SortTexts(p.files));
  }

  ghost predicate AllBatchesOk(batches: seq<Batch>, clusters: seq<seq<File>>) {
    forall k | 0 <= k < |batches| :: BatchOk(batches[k], k + 1, clusters)
  }

  lemma BatchesAreOk(pieces: seq<Piece>, clusters: seq<seq<File>>)
    requires forall p | p in pieces :: PieceOfSome(p, clusters)
    ensures AllBatchesOk(Batches(pieces), clusters)
  {
    forall k | 0 <= k < |pieces|
      ensures BatchOk(CreateBatch(k + 1, pieces[k]), k + 1, clusters)
    {
      BatchIsOk(k + 1, pieces[k], clusters);
    }
  }

  /** Splitting conserves the files: the batches hold exactly what the clusters
      hold, as often. */
  lemma {:induction false} BatchesPartitionClusters(clusters: seq<seq<File>>)
    requires forall i | 0 <= i < |clusters| :: clusters[i] != []
    ensures multiset(BatchFiles(Batches(PiecesOfAll(clusters)))) == multiset(Flatten(clusters))
    ensures AllBatchesOk(Batches(PiecesOfAll(clusters)), clusters)
  {
    PiecesOfAllPartition(clusters);
    BatchesKeepFiles(PiecesOfAll(clusters));
    BatchesAreOk(PiecesOfAll(clusters), clusters);
  }

  method GroupByDirectory(cluster: seq<File>) returns (byDir: seq<Group>)
    ensures byDir == ByDirectory(cluster)
  {
    byDir := [];
    for k := 0 to |cluster|
      invariant byDir == ByDirectory(cluster[..k])
    {
      assert cluster[..k + 1][..k] == cluster[..k];
      byDir := AddToGroup(byDir, cluster[k]);
    }
    assert cluster[..|cluster|] == cluster;
  }

  lemma OneMoreBatch(pieces: seq<Piece>, p: Piece)
    ensures Batches(pieces + [p]) == Batches(pieces) + [CreateBatch(|pieces| + 1, p)]
  {
  }

  /** Appends the batches of one directory, at most five files each. */
  method AddGroup(batches: seq<Batch>, ghost pieces: seq<Piece>, group: Group) returns (r: seq<Batch>)
    requires batches == Batches(pieces)
    ensures r == Batches(pieces + Chunks(group.dir, group.files))
  {
    r := batches;
    ghost var done := pieces;
    var i := 0;
    while i < |group.files|
      invariant i >= 0 && r == Batches(done)
      invariant done + Chunks(group.dir, group.files[Min(i, |group.files|)..]) == pieces + Chunks(group.dir, group.files)
    {
      var size := Min(MAX_FILES_PER_BATCH, |group.files| - i);
      var chunk := Piece(ModuleOf(group.dir), group.files[i..i + size]);
      assert group.files[i..][..size] == group.files[i..i + size];
      assert group.files[i..][size..] == group.files[i + size..];
      assert done + Chunks(group.dir, group.files[i..]) == (done + [chunk]) + Chunks(group.dir, group.files[i + size..]);
      OneMoreBatch(done, chunk);
      r := r + [CreateBatch(|r| + 1, chunk)];
      done := done + [chunk];
      i := i + MAX_FILES_PER_BATCH;
    }
    assert done + [] == done;
  }

  method ProposeRefactorBatches(clusters: seq<seq<File>>) returns (batches: seq<Batch>)
    ensures batches == Batches(PiecesOfAll(clusters))
  {
    batches := [];
    for c := 0 to |clusters|
      invariant batches == Batches(PiecesOfAll(clusters[..c]))
    {
      ghost var known := PiecesOfAll(clusters[..c]);
      assert clusters[..c + 1][..c] == clusters[..c];
      if |clusters[c]| <= SMALL_CLUSTER {
        OneMoreBatch(known, Piece(None, clusters[c]));
        batches := batches + [CreateBatch(|batches| + 1, Piece(None, clusters[c]))];
        continue;
      }
      var byDir := GroupByDirectory(clusters[c]);
      ghost var done := known;
      for k := 0 to |byDir|
        invariant batches == Batches(done)
        invariant done + ChunksOfAll(byDir[k..]) == known + ChunksOfAll(byDir)
      {
        ghost var chunks := Chunks(byDir[k].dir, byDir[k].files);
        assert byDir[k..][1..] == byDir[k + 1..];
        assert done + (chunks + ChunksOfAll(byDir[k + 1..])) == (done + chunks) + ChunksOfAll(byDir[k + 1..]);
        batches := AddGroup(batches, done, byDir[k]);
        done := done + chunks;
      }
      assert done + [] == done;
    }
    assert clusters[..|clusters|] == clusters;
  }

  /** The plan for a change: the changed files and their direct neighbours, each
      in exactly one batch, once; files share a batch only when connected. */
  method PerformRefactorAnalysis(changed: seq<File>, graph: G.DependencyGraph)
    returns (affected: seq<File>, clusters: seq<seq<File>>, batches: seq<Batch>)
    requires graph.Valid()
    ensures forall f :: f in affected <==> Within(G.GraphLinks(graph.nodes), changed, f, 1)
    ensures Distinct(affected) && Sorted(affected, Before) && AreComponents(graph.nodes, affected, clusters)
    ensures multiset(BatchFiles(batches)) == multiset(affected)
    ensures AllBatchesOk(batches, clusters) && batches == Batches(PiecesOfAll(clusters))
  {
    var related := graph.GetRelatedFiles(changed, 1);
    affected := SortTexts(Dedupe(changed + related));
    SortTextsSorts(Dedupe(changed + related));
    SameMultisetSameElements(Dedupe(changed + related), affected);
    PermutationKeepsDistinct(Dedupe(changed + related), affected);
    forall f | f in changed ensures Within(G.GraphLinks(graph.nodes), changed, f, 1) {
      StartWithin(G.GraphLinks(graph.nodes), changed, f, 1);
    }
    clusters := BuildDependencyClusters(affected, graph);
    batches := ProposeRefactorBatches(clusters);
    BatchesPartitionClusters(clusters);
    DistinctSameElements(affected, Flatten(clusters));
  }

  lemma DistinctSameElements(s: seq<File>, t: seq<File>)
    requires Distinct(s) && Distinct(t) && forall f :: f in s <==> f in t
    ensures multiset(s) == multiset(t)
  {
    forall f
      ensures multiset(s)[f] == multiset(t)[f]
    {
      DistinctCountsOnce(s, f);
      DistinctCountsOnce(t, f);
      assert f in s <==> f in multiset(s);
      assert f in t <==> f in multiset(t);
    }
  }
}
