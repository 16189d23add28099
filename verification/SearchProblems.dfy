/** Heuristic search problems on a finite graph, shared by IDA* and A*. */
module SearchProblems {
  import opened Counting
  import opened Graphs

  /** skipsParent: expanding a state leaves out the child equal to its parent. */
  datatype Problem = Problem(adj: Adjacency, goals: set<nat>, h: seq<nat>, init: nat, skipsParent: bool) {

    ghost predicate Valid() {
      ValidGraph(adj) && |h| == |adj| && init < |adj|
    }

    ghost predicate Solves(w: Walk) {
      w.In(adj) && w.Start() == init && w.End() in goals
    }

    ghost predicate Solvable() {
      exists w :: Solves(w)
    }

    /** h never overestimates the cost of reaching a goal. */
    ghost predicate Admissible()
      requires Valid()
    {
      forall w: Walk :: w.In(adj) && w.End() in goals && w.Start() < |adj| ==> h[w.Start()] <= w.Cost()
    }

    /** f of the search node whose parent chain is the walk w. */
    function F(w: Walk): nat
      requires w.End() < |h|
    {
      w.Cost() + h[w.End()]
    }
  }

  lemma {:induction false} VisitedCount(adj: Adjacency, w: Walk)
    requires ValidGraph(adj) && w.In(adj) && Simple(w)
    ensures |Visited(w)| == Steps(w) + 1 && Visited(w) <= Below(|adj|) && w.End() in Visited(w)
  {
    match w
    case Here(_) =>
    case Then(p, _) => VisitedCount(adj, p);
  }

  /** A simple walk has fewer steps than the graph has vertices. */
  lemma SimpleWalkIsShort(adj: Adjacency, w: Walk)
    requires ValidGraph(adj) && w.In(adj) && Simple(w)
    ensures Steps(w) < |adj|
  {
    VisitedCount(adj, w);
    SubsetIsSmaller(Visited(w), Below(|adj|));
  }

  // ---------- cutting loops out of a walk ----------

  lemma {:induction false} CutAt(adj: Adjacency, w: Walk, v: nat) returns (r: Walk)
    requires w.In(adj) && Simple(w) && v in Visited(w)
    ensures r.In(adj) && Simple(r) && r.Start() == w.Start() && r.End() == v && r.Cost() <= w.Cost()
  {
    match w
    case Here(_) => r := w;
    case Then(p, e) =>
      if v == e.target {
        r := w;
      } else {
        r := CutAt(adj, p, v);
      }
  }

  /** Every walk can be made simple without becoming dearer. */
  lemma {:induction false} Shortcut(adj: Adjacency, w: Walk) returns (r: Walk)
    requires ValidGraph(adj) && w.In(adj)
    ensures r.In(adj) && Simple(r) && r.Start() == w.Start() && r.End() == w.End() && r.Cost() <= w.Cost()
  {
    match w
    case Here(_) => r := w;
    case Then(p, e) =>
      var q := Shortcut(adj, p);
      if e.target in Visited(q) {
        r := CutAt(adj, q, e.target);
      } else {
        r := Then(q, e);
      }
  }

  // ---------- prefixes ----------

  ghost predicate Extends(p: Walk, w: Walk) {
    p == w || (p.Then? && Extends(p.before, w))
  }

  lemma {:induction false} ExtendsInside(adj: Adjacency, p: Walk, w: Walk)
    requires p.In(adj) && Extends(p, w)
    ensures w.In(adj) && w.Start() == p.Start() && w.Cost() <= p.Cost() && Steps(w) <= Steps(p)
    ensures Simple(p) ==> Simple(w)
  {
    if p != w { ExtendsInside(adj, p.before, w); }
  }

  /** What a walk does after one of its prefixes. */
  lemma {:induction false} Suffix(adj: Adjacency, p: Walk, w: Walk) returns (r: Walk)
    requires ValidGraph(adj) && p.In(adj) && Extends(p, w)
    ensures r.In(adj) && r.Start() == w.End() && r.End() == p.End() && p.Cost() == w.Cost() + r.Cost()
  {
    if p == w {
      WalkStaysInside(adj, w);
      r := Here(w.End());
    } else {
      var q := Suffix(adj, p.before, w);
      r := Then(q, p.edge);
    }
  }

  /** With an admissible heuristic no prefix of a solution looks dearer than it. */
  lemma PrefixLooksNoDearer(p: Problem, q: Walk, w: Walk)
    requires p.Valid() && p.Admissible() && p.Solves(q) && Extends(q, w)
    ensures w.End() < |p.h| && p.F(w) <= q.Cost()
  {
    var r := Suffix(p.adj, q, w);
    WalkStaysInside(p.adj, r);
  }
}
