/** The import graph: a worklist builds it, a bounded breadth-first search
    queries it. */
module DependencyGraph {
  import opened Common
  import opened Texts
  import opened Paths

  datatype Node = Node(imports: seq<File>, importedBy: seq<File>)

  type Nodes = map<File, Node>

  /** What parsing and resolving finds on disk: for each readable file its
      relative imports in order, each resolved to a file or not. */
  type Disk = map<File, seq<Option<File>>>

  function Resolved(found: seq<Option<File>>): seq<File> {
    if found == [] then []
    else Resolved(found[..|found| - 1]) + if found[|found| - 1].Some? then [found[|found| - 1].value] else []
  }

  /** What resolves is kept, in order; what does not is left out. */
  lemma {:induction false} ResolvedExact(a: seq<Option<File>>, o: Option<File>)
    ensures Resolved(a + [o]) == Resolved(a) + if o.Some? then [o.value] else []
  {
    assert (a + [o])[..|a|] == a;
  }

  function ImportsOf(disk: Disk, f: File): seq<File> {
    if f in disk then Resolved(disk[f]) else []
  }

  function DiskLinks(disk: Disk): Links {
    f => ImportsOf(disk, f)
  }

  function Neighbours(nodes: Nodes, f: File): seq<File> {
    if f in nodes then nodes[f].imports + nodes[f].importedBy else []
  }

  function GraphLinks(nodes: Nodes): Links {
    f => Neighbours(nodes, f)
  }

  /** How often `b` is listed among the imports of `a`. */
  function OutCount(nodes: Nodes, a: File, b: File): nat {
    if a in nodes then multiset(nodes[a].imports)[b] else 0
  }

  /** How often `a` is listed among the importers of `b`. */
  function InCount(nodes: Nodes, a: File, b: File): nat {
    if b in nodes then multiset(nodes[b].importedBy)[a] else 0
  }

  /** Every edge is recorded at both of its ends, equally often. */
  ghost predicate Balanced(nodes: Nodes) {
    forall a, b :: OutCount(nodes, a, b) == InCount(nodes, a, b)
  }

  /** The neighbours of a file are those it imports and those that import it. */
  lemma NeighboursExact(nodes: Nodes, f: File, g: File)
    requires Balanced(nodes)
    ensures g in Neighbours(nodes, f) <==> (f in nodes && g in nodes[f].imports) || (g in nodes && f in nodes[g].imports)
  {
    assert OutCount(nodes, g, f) == InCount(nodes, g, f);
  }

  function WithNode(nodes: Nodes, f: File): Nodes {
    if f in nodes then nodes else nodes[f := Node([], [])]
  }

  function WithEdge(nodes: Nodes, a: File, b: File): Nodes
    requires a in nodes
  {
    var out := nodes[a := nodes[a].(imports := nodes[a].imports + [b])];
    var both := WithNode(out, b);
    both[b := both[b].(importedBy := both[b].importedBy + [a])]
  }

  function WithEdges(nodes: Nodes, a: File, targets: seq<File>): (r: Nodes)
    requires a in nodes
    ensures a in r
  {
    if targets == [] then nodes
    else WithEdge(WithEdges(nodes, a, targets[..|targets| - 1]), a, targets[|targets| - 1])
  }

  lemma WithEdgeOut(nodes: Nodes, a: File, b: File, x: File, y: File)
    requires a in nodes
    ensures OutCount(WithEdge(nodes, a, b), x, y) == OutCount(nodes, x, y) + if x == a && y == b then 1 else 0
  {
    assert WithEdge(nodes, a, b)[a].imports == nodes[a].imports + [b];
  }

  lemma WithEdgeIn(nodes: Nodes, a: File, b: File, x: File, y: File)
    requires a in nodes
    ensures InCount(WithEdge(nodes, a, b), x, y) == InCount(nodes, x, y) + if x == a && y == b then 1 else 0
  {
    assert WithEdge(nodes, a, b)[b].importedBy == (if b in nodes then nodes[b].importedBy else []) + [a];
  }

  lemma WithEdgeBalanced(nodes: Nodes, a: File, b: File)
    requires Balanced(nodes) && a in nodes
    ensures Balanced(WithEdge(nodes, a, b))
  {
    forall x, y
      ensures OutCount(WithEdge(nodes, a, b), x, y) == InCount(WithEdge(nodes, a, b), x, y)
    {
      WithEdgeOut(nodes, a, b, x, y);
      WithEdgeIn(nodes, a, b, x, y);
    }
  }

  lemma {:induction false} WithEdgesBalanced(nodes: Nodes, a: File, targets: seq<File>)
    requires Balanced(nodes) && a in nodes
    ensures Balanced(WithEdges(nodes, a, targets))
  {
    if targets != [] {
      WithEdgesBalanced(nodes, a, targets[..|targets| - 1]);
      WithEdgeBalanced(WithEdges(nodes, a, targets[..|targets| - 1]), a, targets[|targets| - 1]);
    }
  }

  function ImportsIn(nodes: Nodes, f: File): seq<File> {
    if f in nodes then nodes[f].imports else []
  }

  /** What adding the edges from one file does to the files and their imports. */
  lemma {:induction false} WithEdgesEffect(nodes: Nodes, a: File, targets: seq<File>)
    requires a in nodes
    ensures forall f :: f in WithEdges(nodes, a, targets) <==> f in nodes || f in targets
    ensures forall f :: ImportsIn(WithEdges(nodes, a, targets), f) ==
              if f == a then ImportsIn(nodes, f) + targets else ImportsIn(nodes, f)
  {
    if targets != [] {
      var init, last := targets[..|targets| - 1], targets[|targets| - 1];
      WithEdgesEffect(nodes, a, init);
      assert targets == init + [last];
    }
  }

  // ---------------------------------------------------------------------

  /** Every file the graph of `entries` can ever mention. */
  ghost function Universe(disk: Disk, entries: seq<File>): set<File> {
    Elements(entries) + set f, t | f in disk && t in Resolved(disk[f]) :: t
  }

  /** The graph holds, besides what it held before, exactly the files reachable
      from the entries, each with exactly its resolved imports added in order. */
  ghost predicate Built(before: Nodes, after: Nodes, disk: Disk, entries: seq<File>) {
    && (forall f :: f in after <==> f in before || Reachable(DiskLinks(disk), entries, f))
    && (forall f :: ImportsIn(after, f) ==
          if Reachable(DiskLinks(disk), entries, f) then ImportsIn(before, f) + ImportsOf(disk, f) else ImportsIn(before, f))
  }

  /** The files reachable from the entries, as a finite set. */
  ghost function Reach(disk: Disk, entries: seq<File>): set<File> {
    set f | f in Universe(disk, entries) && Reachable(DiskLinks(disk), entries, f)
  }

  ghost predicate ClosedUnder(disk: Disk, entries: seq<File>, s: set<File>) {
    && (forall f | f in entries :: f in s)
    && (forall f, g | f in s && g in ImportsOf(disk, f) :: g in s)
  }

  lemma ReachIsClosed(disk: Disk, entries: seq<File>)
    ensures ClosedUnder(disk, entries, Reach(disk, entries))
  {
    forall f | f in entries
      ensures f in Reach(disk, entries)
    {
      StartWithin(DiskLinks(disk), entries, f, 0);
    }
    forall f, g | f in Reach(disk, entries) && g in ImportsOf(disk, f)
      ensures g in Reach(disk, entries)
    {
      StepReachable(DiskLinks(disk), entries, f, g);
      assert f in disk && g in Resolved(disk[f]);
    }
  }

  /** The reachable files are the least closed set. */
  lemma ReachIsLeast(disk: Disk, entries: seq<File>, s: set<File>, f: File)
    requires ClosedUnder(disk, entries, s) && Reachable(DiskLinks(disk), entries, f)
    ensures f in s
  {
    var p :| Leads(DiskLinks(disk), entries, f, p);
    ClosedHoldsPath(DiskLinks(disk), entries, s, f, p);
  }

  /** The worklist: everything seen lies in `reach`, and whatever a visited file
      imports is visited or still queued. */
  ghost predicate Frontier(disk: Disk, reach: set<File>, entries: seq<File>, queue: seq<File>, visited: set<File>) {
    && visited <= reach && (forall f | f in queue :: f in reach)
    && (forall f | f in entries :: f in visited || f in queue)
    && (forall f, g | f in visited && g in ImportsOf(disk, f) :: g in visited || g in queue)
  }

  lemma FrontierSkips(disk: Disk, reach: set<File>, entries: seq<File>, queue: seq<File>, visited: set<File>)
    requires queue != [] && Frontier(disk, reach, entries, queue, visited) && queue[0] in visited
    ensures Frontier(disk, reach, entries, queue[1..], visited)
  {
    assert queue == [queue[0]] + queue[1..];
  }

  lemma FrontierAdvances(disk: Disk, reach: set<File>, entries: seq<File>, queue: seq<File>, visited: set<File>, pending: seq<File>)
    requires queue != [] && Frontier(disk, reach, entries, queue, visited) && ClosedUnder(disk, entries, reach)
    requires forall g :: g in pending <==> g in ImportsOf(disk, queue[0]) && g !in visited + {queue[0]}
    ensures Frontier(disk, reach, entries, queue[1..] + pending, visited + {queue[0]})
  {
    assert queue == [queue[0]] + queue[1..];
  }

  /** The graph built so far from the files in `visited`. */
  ghost predicate SoFar(before: Nodes, nodes: Nodes, disk: Disk, reach: set<File>, visited: set<File>) {
    && before.Keys + visited <= nodes.Keys <= before.Keys + reach
    && (forall f :: ImportsIn(nodes, f) ==
          if f in visited then ImportsIn(before, f) + ImportsOf(disk, f) else ImportsIn(before, f))
  }

  lemma SoFarAdvances(before: Nodes, nodes: Nodes, disk: Disk, reach: set<File>, visited: set<File>, f: File)
    requires SoFar(before, nodes, disk, reach, visited) && f !in visited && f in reach
    requires forall g | g in ImportsOf(disk, f) :: g in reach
    ensures SoFar(before, WithEdges(WithNode(nodes, f), f, ImportsOf(disk, f)), disk, reach, visited + {f})
  {
    var base := WithNode(nodes, f);
    var after := WithEdges(base, f, ImportsOf(disk, f));
    WithEdgesEffect(base, f, ImportsOf(disk, f));
    forall g
      ensures ImportsIn(after, g) ==
              if g in visited + {f} then ImportsIn(before, g) + ImportsOf(disk, g) else ImportsIn(before, g)
    {
      assert ImportsIn(base, g) == ImportsIn(nodes, g);
    }
  }

  lemma {:induction false} FrontierExhausted(before: Nodes, nodes: Nodes, disk: Disk, entries: seq<File>, visited: set<File>)
    requires Frontier(disk, Reach(disk, entries), entries, [], visited)
    requires SoFar(before, nodes, disk, Reach(disk, entries), visited)
    ensures Built(before, nodes, disk, entries)
  {
    assert ClosedUnder(disk, entries, visited);
    forall f
      ensures Reachable(DiskLinks(disk), entries, f) <==> f in visited
    {
      if Reachable(DiskLinks(disk), entries, f) { ReachIsLeast(disk, entries, visited, f); }
    }
  }

  lemma ResolvedSnoc(found: seq<Option<File>>, k: nat)
    requires k < |found|
    ensures Resolved(found[..k + 1]) ==
              if found[k].Some? then Resolved(found[..k]) + [found[k].value] else Resolved(found[..k])
  {
    assert found[..k + 1][..k] == found[..k];
  }

  function NotIn(targets: seq<File>, visited: set<File>): (r: seq<File>)
    ensures forall g :: g in r <==> g in targets && g !in visited
  {
    if targets == [] then []
    else NotIn(targets[..|targets| - 1], visited) + if targets[|targets| - 1] in visited then [] else [targets[|targets| - 1]]
  }

  lemma WithEdgesSnoc(nodes: Nodes, a: File, targets: seq<File>, b: File)
    requires a in nodes
    ensures WithEdges(nodes, a, targets + [b]) == WithEdge(WithEdges(nodes, a, targets), a, b)
    ensures forall visited :: NotIn(targets + [b], visited) ==
              if b in visited then NotIn(targets, visited) else NotIn(targets, visited) + [b]
  {
    assert (targets + [b])[..|targets|] == targets;
  }

  // ---------------------------------------------------------------------
  // Breadth-first search

  /** A queued file with the depth at which it was found. */
  datatype Found = Found(file: File, depth: int)

  type Depths = map<File, nat>

  /** The depth at which `f` was found, or -1. */
  function DepthOf(dist: Depths, f: File): int {
    if f in dist then dist[f] else -1
  }

  /** Depths in the queue never fall, and nothing found so far is more than one
      step deeper than the front. */
  ghost predicate Ripple(queue: seq<Found>, dist: Depths) {
    && (forall i | 0 <= i < |queue| :: 0 <= DepthOf(dist, queue[i].file) == queue[i].depth)
    && (forall i, j | 0 <= i < j < |queue| :: queue[i].depth <= queue[j].depth)
    && (queue != [] ==> forall f {:trigger DepthOf(dist, f)} :: DepthOf(dist, f) <= queue[0].depth + 1)
  }

  ghost predicate Queued(queue: seq<Found>, f: File) {
    exists i :: 0 <= i < |queue| && queue[i].file == f
  }

  /** Files paired with the distances they lie within. */
  type Ball = iset<(File, int)>

  ghost predicate Growing(nodes: Nodes, entries: seq<File>, ball: Ball) {
    && (forall f | f in entries :: (f, 0) in ball)
    && (forall f, d, g | (f, d) in ball && g in Neighbours(nodes, f) :: (g, d + 1) in ball)
  }

  lemma Around(nodes: Nodes, entries: seq<File>) returns (ball: Ball)
    ensures Growing(nodes, entries, ball)
    ensures forall f, d {:trigger Within(GraphLinks(nodes), entries, f, d)} ::
              Within(GraphLinks(nodes), entries, f, d) <==> (f, d) in ball
  {
    ball := iset f, d | Within(GraphLinks(nodes), entries, f, d) :: (f, d);
    forall f | f in entries ensures (f, 0) in ball { StartWithin(GraphLinks(nodes), entries, f, 0); }
    forall f, d, g | (f, d) in ball && g in Neighbours(nodes, f)
      ensures (g, d + 1) in ball
    {
      StepWithin(GraphLinks(nodes), entries, f, g, d);
    }
  }

  /** Every file found is no farther away than its depth says. */
  ghost predicate Sound(ball: Ball, dist: Depths, limit: int) {
    forall f {:trigger DepthOf(dist, f)} ::
      DepthOf(dist, f) >= 0 ==> DepthOf(dist, f) <= limit && (f, DepthOf(dist, f)) in ball
  }

  /** The neighbours of a processed file are found at most one deeper. */
  ghost predicate Explored(nodes: Nodes, entries: seq<File>, dist: Depths, queue: seq<Found>, limit: int) {
    && (forall f {:trigger DepthOf(dist, f)} | f in entries :: DepthOf(dist, f) == 0)
    && (forall f, g {:trigger g in Neighbours(nodes, f), DepthOf(dist, f)} |
          0 <= DepthOf(dist, f) < limit && !Queued(queue, f) && g in Neighbours(nodes, f) ::
          0 <= DepthOf(dist, g) <= DepthOf(dist, f) + 1)
  }

  function Layer(added: seq<File>, depth: nat): seq<Found> {
    seq(|added|, i requires 0 <= i < |added| => Found(added[i], depth))
  }

  function Deeper(dist: Depths, added: seq<File>, depth: nat): (dist': Depths)
    ensures forall f {:trigger DepthOf(dist', f)} :: DepthOf(dist', f) == if f in added then depth else DepthOf(dist, f)
    ensures forall f :: f in dist' <==> f in dist || f in added
  {
    dist + map f | f in added :: depth
  }

  lemma QueuedSplit(queue: seq<Found>, f: File)
    requires queue != []
    ensures Queued(queue, f) <==> queue[0].file == f || Queued(queue[1..], f)
  {
    if Queued(queue[1..], f) {
      var i :| 0 <= i < |queue[1..]| && queue[1..][i].file == f;
      assert queue[i + 1].file == f;
    }
    if Queued(queue, f) && queue[0].file != f {
      var i :| 0 <= i < |queue| && queue[i].file == f;
      assert queue[1..][i - 1].file == f;
    }
  }

  lemma QueuedAppend(queue: seq<Found>, more: seq<Found>, f: File)
    ensures Queued(queue + more, f) <==> Queued(queue, f) || Queued(more, f)
  {
    if Queued(queue, f) {
      var i :| 0 <= i < |queue| && queue[i].file == f;
      assert (queue + more)[i].file == f;
    }
    if Queued(more, f) {
      var i :| 0 <= i < |more| && more[i].file == f;
      assert (queue + more)[|queue| + i].file == f;
    }
  }

  lemma LayerQueued(added: seq<File>, depth: nat, f: File)
    ensures Queued(Layer(added, depth), f) <==> f in added
  {
    if f in added {
      var i :| 0 <= i < |added| && added[i] == f;
      assert Layer(added, depth)[i].file == f;
    }
  }

  lemma SearchStarts(nodes: Nodes, entries: seq<File>, ball: Ball, limit: nat)
    requires Growing(nodes, entries, ball)
    ensures Ripple(Layer(entries, 0), Deeper(map[], entries, 0)) && Sound(ball, Deeper(map[], entries, 0), limit)
    ensures Explored(nodes, entries, Deeper(map[], entries, 0), Layer(entries, 0), limit)
  {
    forall f | f in entries ensures Queued(Layer(entries, 0), f) { LayerQueued(entries, 0, f); }
  }

  lemma RippleAdvances(queue: seq<Found>, dist: Depths, added: seq<File>)
    requires queue != [] && Ripple(queue, dist)
    requires forall f | f in added :: f !in dist
    ensures queue[0].depth >= 0
    ensures Ripple(queue[1..] + Layer(added, queue[0].depth + 1), Deeper(dist, added, queue[0].depth + 1))
  {
  }

  lemma SearchSkips(nodes: Nodes, entries: seq<File>, dist: Depths, queue: seq<Found>, limit: int)
    requires queue != [] && Ripple(queue, dist) && Explored(nodes, entries, dist, queue, limit) && queue[0].depth >= limit
    ensures Ripple(queue[1..], dist) && Explored(nodes, entries, dist, queue[1..], limit)
  {
    forall f ensures Queued(queue, f) <==> queue[0].file == f || Queued(queue[1..], f) { QueuedSplit(queue, f); }
  }

  lemma SoundAdvances(nodes: Nodes, entries: seq<File>, ball: Ball, dist: Depths, limit: int, front: Found, added: seq<File>)
    requires Growing(nodes, entries, ball) && Sound(ball, dist, limit)
    requires 0 <= DepthOf(dist, front.file) == front.depth < limit
    requires forall g | g in added :: g in Neighbours(nodes, front.file)
    ensures Sound(ball, Deeper(dist, added, front.depth + 1), limit)
  {
  }

  /** Processing the front of the queue: `added` are its neighbours not seen
      before. */
  lemma ExploreAdvances(nodes: Nodes, entries: seq<File>, dist: Depths, queue: seq<Found>, limit: int, added: seq<File>)
    requires queue != [] && Ripple(queue, dist) && Explored(nodes, entries, dist, queue, limit) && queue[0].depth >= 0
    requires forall g :: g in added <==> g in Neighbours(nodes, queue[0].file) && g !in dist
    ensures var depth := queue[0].depth + 1;
            Explored(nodes, entries, Deeper(dist, added, depth), queue[1..] + Layer(added, depth), limit)
  {
    var depth := queue[0].depth + 1;
    forall f
      ensures Queued(queue[1..] + Layer(added, depth), f) <==> Queued(queue[1..], f) || f in added
      ensures Queued(queue, f) <==> queue[0].file == f || Queued(queue[1..], f)
    {
      QueuedAppend(queue[1..], Layer(added, depth), f);
      LayerQueued(added, depth, f);
      QueuedSplit(queue, f);
    }
  }

  lemma PathInit(nodes: Nodes, entries: seq<File>, f: File, p: seq<File>)
    requires Leads(GraphLinks(nodes), entries, f, p) && |p| > 1
    ensures Leads(GraphLinks(nodes), entries, p[|p| - 2], p[..|p| - 1]) && f in Neighbours(nodes, p[|p| - 2])
  {
    assert p[|p| - 2 + 1] in GraphLinks(nodes)(p[|p| - 2]);
  }

  /** With an empty queue, every file on a short enough path has been found. */
  lemma {:induction false} ExploredIsComplete(nodes: Nodes, entries: seq<File>, dist: Depths, limit: int, f: File, p: seq<File>)
    requires Explored(nodes, entries, dist, [], limit)
    requires Leads(GraphLinks(nodes), entries, f, p) && |p| - 1 <= limit
    ensures 0 <= DepthOf(dist, f) <= |p| - 1
    decreases |p|
  {
    if |p| > 1 {
      PathInit(nodes, entries, f, p);
      ExploredIsComplete(nodes, entries, dist, limit, p[|p| - 2], p[..|p| - 1]);
      assert !Queued([], p[|p| - 2]);
    }
  }

  lemma SearchIsExact(nodes: Nodes, entries: seq<File>, ball: Ball, dist: Depths, limit: int)
    requires Explored(nodes, entries, dist, [], limit) && Sound(ball, dist, limit)
    requires forall f, d {:trigger Within(GraphLinks(nodes), entries, f, d)} ::
               Within(GraphLinks(nodes), entries, f, d) <==> (f, d) in ball
    ensures forall f :: f in dist <==> Within(GraphLinks(nodes), entries, f, limit)
  {
    forall f
      ensures f in dist <==> Within(GraphLinks(nodes), entries, f, limit)
    {
      if Within(GraphLinks(nodes), entries, f, limit) {
        var p :| Leads(GraphLinks(nodes), entries, f, p) && |p| - 1 <= limit;
        ExploredIsComplete(nodes, entries, dist, limit, f, p);
      }
      if f in dist {
        assert Within(GraphLinks(nodes), entries, f, DepthOf(dist, f));
        var p :| Leads(GraphLinks(nodes), entries, f, p) && |p| - 1 <= DepthOf(dist, f);
      }
    }
  }

  /** Some finite set holds every file a search from the entries can mention. */
  lemma Mentioned(nodes: Nodes, entries: seq<File>) returns (bound: set<File>)
    ensures forall f | f in entries :: f in bound
    ensures forall f, g | g in Neighbours(nodes, f) :: g in bound
  {
    bound := Elements(entries) + set f, g | f in nodes && g in Neighbours(nodes, f) :: g;
  }

  /** Each round finds a new file or shortens the queue. */
  lemma SearchProgresses(bound: set<File>, dist: Depths, added: seq<File>, depth: nat)
    requires dist.Keys <= bound && forall g | g in added :: g in bound && g !in dist
    ensures Deeper(dist, added, depth).Keys <= bound
    ensures if added == [] then Layer(added, depth) == [] && Deeper(dist, added, depth) == dist
            else bound - Deeper(dist, added, depth).Keys < bound - dist.Keys
  {
    if added != [] { assert added[0] in bound - dist.Keys; }
  }

  /** The state of the search between two rounds. */
  ghost predicate Searching(nodes: Nodes, entries: seq<File>, ball: Ball, limit: int, bound: set<File>,
                            related: seq<File>, queue: seq<Found>, dist: Depths)
  {
    && Distinct(related) && (forall f :: f in related <==> f in dist)
    && Ripple(queue, dist)
    && Sound(ball, dist, limit)
    && Explored(nodes, entries, dist, queue, limit)
    && dist.Keys <= bound
  }

  lemma SearchAdvances(nodes: Nodes, entries: seq<File>, ball: Ball, limit: int, bound: set<File>,
                       related: seq<File>, queue: seq<Found>, dist: Depths, added: seq<File>)
    returns (related': seq<File>, queue': seq<Found>, dist': Depths)
    requires Searching(nodes, entries, ball, limit, bound, related, queue, dist)
    requires Growing(nodes, entries, ball) && forall f, g | g in Neighbours(nodes, f) :: g in bound
    requires queue != [] && queue[0].depth < limit && Distinct(related + added)
    requires forall g :: g in added <==> g in Neighbours(nodes, queue[0].file) && g !in related
    ensures queue[0].depth >= 0
    ensures related' == related + added && queue' == queue[1..] + Layer(added, queue[0].depth + 1)
    ensures Searching(nodes, entries, ball, limit, bound, related', queue', dist')
    ensures if added == [] then |queue'| < |queue| && dist' == dist else bound - dist'.Keys < bound - dist.Keys
  {
    RippleAdvances(queue, dist, added);
    SoundAdvances(nodes, entries, ball, dist, limit, queue[0], added);
    ExploreAdvances(nodes, entries, dist, queue, limit, added);
    SearchProgresses(bound, dist, added, queue[0].depth + 1);
    related', queue' := related + added, queue[1..] + Layer(added, queue[0].depth + 1);
    dist' := Deeper(dist, added, queue[0].depth + 1);
  }

  lemma SearchPasses(nodes: Nodes, entries: seq<File>, ball: Ball, limit: int, bound: set<File>,
                     related: seq<File>, queue: seq<Found>, dist: Depths)
    requires Searching(nodes, entries, ball, limit, bound, related, queue, dist)
    requires queue != [] && queue[0].depth >= limit
    ensures Searching(nodes, entries, ball, limit, bound, related, queue[1..], dist)
  {
    SearchSkips(nodes, entries, dist, queue, limit);
  }

  class DependencyGraph {
    var nodes: Nodes

    ghost predicate Valid()
      reads this
    {
      Balanced(nodes)
    }

    constructor ()
      ensures Valid() && nodes == map[]
    {
      nodes := map[];
    }

    method GetOrAddNode(f: File)
      requires Valid()
      modifies this
      ensures Valid() && nodes == WithNode(old(nodes), f)
    {
      if f !in nodes {
        nodes := nodes[f := Node([], [])];
      }
      assert forall a, b :: OutCount(nodes, a, b) == OutCount(old(nodes), a, b) && InCount(nodes, a, b) == InCount(old(nodes), a, b);
    }

    method AddEdge(f: File, target: File)
      requires Valid() && f in nodes
      modifies this
      ensures Valid() && nodes == WithEdge(old(nodes), f, target)
    {
      WithEdgeBalanced(nodes, f, target);
      nodes := nodes[f := nodes[f].(imports := nodes[f].imports + [target])];
      if target !in nodes { nodes := nodes[target := Node([], [])]; }
      nodes := nodes[target := nodes[target].(importedBy := nodes[target].importedBy + [f])];
    }

    /** Records the resolved imports of `f` and returns those still to visit. */
    method AddImports(f: File, found: seq<Option<File>>, visited: set<File>) returns (pending: seq<File>)
      requires Valid() && f in nodes
      modifies this
      ensures Valid() && nodes == WithEdges(old(nodes), f, Resolved(found))
      ensures pending == NotIn(Resolved(found), visited)
    {
      pending := [];
      for k := 0 to |found|
        invariant Valid() && f in nodes
        invariant nodes == WithEdges(old(nodes), f, Resolved(found[..k]))
        invariant pending == NotIn(Resolved(found[..k]), visited)
      {
        ResolvedSnoc(found, k);
        if found[k].Some? {
          var target := found[k].value;
          WithEdgesSnoc(old(nodes), f, Resolved(found[..k]), target);
          AddEdge(f, target);
          if target !in visited { pending := pending + [target]; }
        }
      }
      assert found[..|found|] == found;
    }

    method BuildGraph(disk: Disk, entries: seq<File>)
      requires Valid()
      modifies this
      ensures Valid() && Built(old(nodes), nodes, disk, entries)
    {
      var queue := entries;
      var visited: set<File> := {};
      ghost var reach := Reach(disk, entries);
      ReachIsClosed(disk, entries);
      while queue != []
        invariant Valid()
        invariant Frontier(disk, reach, entries, queue, visited)
        invariant SoFar(old(nodes), nodes, disk, reach, visited)
        decreases reach - visited, |queue|
      {
        var f := queue[0];
        if f in visited {
          FrontierSkips(disk, reach, entries, queue, visited);
          queue := queue[1..];
          continue;
        }
        SoFarAdvances(old(nodes), nodes, disk, reach, visited, f);
        ghost var seen := visited;
        visited := visited + {f};
        GetOrAddNode(f);
        var pending := AddImports(f, if f in disk then disk[f] else [], visited);
        FrontierAdvances(disk, reach, entries, queue, seen, pending);
        queue := queue[1..] + pending;
      }
      FrontierExhausted(old(nodes), nodes, disk, entries, visited);
    }

    /** The connections not yet in `related`, each once, in order. */
    method Discover(related: seq<File>, connections: seq<File>) returns (added: seq<File>)
      requires Distinct(related)
      ensures Distinct(related + added)
      ensures forall g :: g in added <==> g in connections && g !in related
    {
      added := [];
      for k := 0 to |connections|
        invariant Distinct(related + added)
        invariant forall g :: g in added <==> g in connections[..k] && g !in related
      {
        var connected := connections[k];
        assert connections[..k + 1] == connections[..k] + [connected];
        if connected !in related && connected !in added {
          assert related + (added + [connected]) == (related + added) + [connected];
          added := added + [connected];
        }
      }
      assert connections[..|connections|] == connections;
    }

    /** Takes the front of the queue: too deep, it is dropped; otherwise its new
        connections are found and queued. */
    method SearchRound(related: seq<File>, queue: seq<Found>, maxDepth: int, ghost graph: Nodes, ghost entries: seq<File>,
                       ghost ball: Ball, ghost bound: set<File>, ghost dist: Depths)
      returns (related': seq<File>, queue': seq<Found>, ghost dist': Depths)
      requires queue != [] && graph == nodes && Growing(graph, entries, ball)
      requires forall f, g | g in Neighbours(graph, f) :: g in bound
      requires Searching(graph, entries, ball, Max(0, maxDepth), bound, related, queue, dist)
      ensures Searching(graph, entries, ball, Max(0, maxDepth), bound, related', queue', dist')
      ensures (|queue'| < |queue| && dist' == dist) || bound - dist'.Keys < bound - dist.Keys
    {
      var front := queue[0];
      if front.depth >= maxDepth {
        SearchPasses(graph, entries, ball, Max(0, maxDepth), bound, related, queue, dist);
        return related, queue[1..], dist;
      }
      var added := Discover(related, Neighbours(nodes, front.file));
      related', queue' := related + added, queue[1..];
      ghost var r, q, d := SearchAdvances(graph, entries, ball, Max(0, maxDepth), bound, related, queue, dist, added);
      queue' := queue' + Layer(added, front.depth + 1);
      assert related' == r && queue' == q;
      dist' := d;
    }

    /** All files at distance at most `maxDepth` from an entry, each once. */
    method GetRelatedFiles(entries: seq<File>, maxDepth: int) returns (related: seq<File>)
      ensures Distinct(related)
      ensures forall f :: f in related <==> Within(GraphLinks(nodes), entries, f, Max(0, maxDepth))
    {
      related := Dedupe(entries);
      var queue := Layer(entries, 0);
      ghost var graph, limit := nodes, Max(0, maxDepth);
      ghost var dist: Depths := Deeper(map[], entries, 0);
      ghost var bound := Mentioned(graph, entries);
      ghost var ball := Around(graph, entries);
      SearchStarts(graph, entries, ball, limit);
      while queue != []
        invariant Searching(graph, entries, ball, limit, bound, related, queue, dist)
        decreases bound - dist.Keys, |queue|
      {
        related, queue, dist := SearchRound(related, queue, maxDepth, graph, entries, ball, bound, dist);
      }
      SearchIsExact(graph, entries, ball, dist, limit);
    }

    method GetConnections(f: File) returns (connections: seq<File>)
      ensures Distinct(connections) && forall g :: g in connections <==> g in Neighbours(nodes, f)
    {
      if f !in nodes { return []; }
      connections := Dedupe(nodes[f].imports + nodes[f].importedBy);
    }
  }
}
