/** Paths through a directed graph given by its successor function. */
module Paths {
  import opened Common
  import opened Texts

  type File = Text

  type Links = File -> seq<File>

  ghost predicate IsPath(links: Links, p: seq<File>) {
    p != [] && forall i | 0 <= i < |p| - 1 :: p[i + 1] in links(p[i])
  }

  /** `p` leads from one of `starts` to `f`. */
  ghost predicate Leads(links: Links, starts: seq<File>, f: File, p: seq<File>) {
    IsPath(links, p) && p[0] in starts && p[|p| - 1] == f
  }

  /** `f` can be reached from `starts` in at most `steps` steps. */
  ghost predicate Within(links: Links, starts: seq<File>, f: File, steps: int) {
    exists p :: Leads(links, starts, f, p) && |p| - 1 <= steps
  }

  ghost predicate Reachable(links: Links, starts: seq<File>, f: File) {
    exists p :: Leads(links, starts, f, p)
  }

  lemma StartWithin(links: Links, starts: seq<File>, f: File, steps: nat)
    requires f in starts
    ensures Within(links, starts, f, steps) && Reachable(links, starts, f)
  {
    assert Leads(links, starts, f, [f]);
  }

  lemma StepWithin(links: Links, starts: seq<File>, f: File, g: File, steps: int)
    requires Within(links, starts, f, steps) && g in links(f)
    ensures Within(links, starts, g, steps + 1)
  {
    var p :| Leads(links, starts, f, p) && |p| - 1 <= steps;
    assert Leads(links, starts, g, p + [g]);
  }

  lemma StepReachable(links: Links, starts: seq<File>, f: File, g: File)
    requires Reachable(links, starts, f) && g in links(f)
    ensures Reachable(links, starts, g)
  {
    var p :| Leads(links, starts, f, p);
    assert Leads(links, starts, g, p + [g]);
  }

  /** A set that holds the starts and is closed under the links holds every
      file a path leads to. */
  lemma {:induction false} ClosedHoldsPath(links: Links, starts: seq<File>, s: set<File>, f: File, p: seq<File>)
    requires forall x | x in starts :: x in s
    requires forall x, y | x in s && y in links(x) :: y in s
    requires Leads(links, starts, f, p)
    ensures f in s
    decreases |p|
  {
    if |p| > 1 {
      var q := p[..|p| - 1];
      assert Leads(links, starts, p[|p| - 2], q);
      ClosedHoldsPath(links, starts, s, p[|p| - 2], q);
    }
  }
}
