/** Iterative-deepening A*: a cost-bounded depth-first search over simple paths,
    restarted with the least f it pruned. */
module IdaStar {
  import opened Graphs
  import opened SearchProblems

  /** A search node is the chain of its parents; no state occurs on it twice. */
  ghost predicate Node(p: Problem, w: Walk) {
    w.In(p.adj) && w.Start() == p.init && Simple(w)
  }

  /** q is below w in the search tree, and f stays within the bound from w down to q. */
  ghost predicate Within(p: Problem, bound: nat, w: Walk, q: Walk)
    requires p.Valid() && Node(p, q)
  {
    NodeInGraph(p, q);
    p.F(q) <= bound && (q == w || (q.Then? && Within(p, bound, w, q.before)))
  }

  /** q is a node the search below w prunes: the first one over the bound. */
  ghost predicate Pruned(p: Problem, bound: nat, w: Walk, q: Walk)
    requires p.Valid() && Node(p, q)
  {
    NodeInGraph(p, q);
    bound < p.F(q) && (q == w || (q.Then? && Within(p, bound, w, q.before)))
  }

  lemma NodeInGraph(p: Problem, q: Walk)
    requires p.Valid() && Node(p, q)
    ensures q.End() < |p.adj|
  {
    WalkStaysInside(p.adj, q);
  }

  // ---------- the search tree ----------

  /** A node within the bound below w is w or is below one of w's children. */
  lemma {:induction false} WithinSplits(p: Problem, bound: nat, w: Walk, q: Walk) returns (c: Walk)
    requires p.Valid() && Node(p, q) && Within(p, bound, w, q) && q != w
    ensures c.Then? && c.before == w && Node(p, c) && Within(p, bound, c, q)
  {
    if q.before == w {
      c := q;
    } else {
      c := WithinSplits(p, bound, w, q.before);
    }
  }

  lemma PrunedSplits(p: Problem, bound: nat, w: Walk, q: Walk) returns (c: Walk)
    requires p.Valid() && Node(p, q) && Pruned(p, bound, w, q) && q != w
    ensures c.Then? && c.before == w && Node(p, c) && Pruned(p, bound, c, q)
  {
    if q.before == w {
      c := q;
    } else {
      c := WithinSplits(p, bound, w, q.before);
    }
  }

  lemma {:induction false} WithinJoins(p: Problem, bound: nat, w: Walk, c: Walk, q: Walk)
    requires p.Valid() && Node(p, w) && Node(p, q) && w.End() < |p.adj| && p.F(w) <= bound
    requires c.Then? && c.before == w && Within(p, bound, c, q)
    ensures Within(p, bound, w, q)
  {
    if q != c { WithinJoins(p, bound, w, c, q.before); }
  }

  lemma PrunedJoins(p: Problem, bound: nat, w: Walk, c: Walk, q: Walk)
    requires p.Valid() && Node(p, w) && Node(p, q) && w.End() < |p.adj| && p.F(w) <= bound
    requires c.Then? && c.before == w && Pruned(p, bound, c, q)
    ensures Pruned(p, bound, w, q)
  {
    if q != c { WithinJoins(p, bound, w, c, q.before); }
  }

  /** A simple path from the start is within the bound, or has a pruned prefix. */
  lemma {:induction false} WithinOrPruned(p: Problem, bound: nat, q: Walk) returns (c: Walk)
    requires p.Valid() && Node(p, q)
    ensures Node(p, c) && Extends(q, c)
    ensures Within(p, bound, Here(p.init), q) || Pruned(p, bound, Here(p.init), c)
  {
    NodeInGraph(p, q);
    match q
    case Here(_) => c := q;
    case Then(before, _) =>
      c := WithinOrPruned(p, bound, before);
      if Within(p, bound, Here(p.init), before) { c := q; }
  }

  // ---------- one depth-first search ----------

  /** What is known of min_pruned once the nodes below `done` have been searched in
      vain: it is the least f pruned so far, and 0 while nothing is pruned. */
  ghost predicate Exhausted(p: Problem, bound: nat, w: Walk, least: nat)
    requires p.Valid()
  {
    && (forall q :: Node(p, q) && Within(p, bound, w, q) ==> q.End() !in p.goals)
    && (forall q :: Node(p, q) && Pruned(p, bound, w, q) ==> 0 < least <= p.F(q))
  }

  ghost predicate Attained(p: Problem, bound: nat, w: Walk, least: nat)
    requires p.Valid()
  {
    exists q :: Node(p, q) && Pruned(p, bound, w, q) && p.F(q) == least
  }

  /** 0 stands for "nothing pruned", so it is the greatest value. */
  predicate NoGreater(a: nat, b: nat) {
    b == 0 || 0 < a <= b
  }

  ghost predicate Answers(p: Problem, bound: nat, w: Walk, r: Option<Walk>, was: nat, least: nat)
    requires p.Valid()
  {
    && NoGreater(least, was)
    && (least == was || Attained(p, bound, w, least))
    && (r.None? ==> Exhausted(p, bound, w, least))
    && (r.Some? ==> Node(p, r.value) && Within(p, bound, w, r.value) && r.value.End() in p.goals)
  }

  /** expand: one child per out-edge; some domains leave out the child that undoes the last move. */
  function Expand(p: Problem, w: Walk, n: nat): (r: seq<Walk>)
    requires w.End() < |p.adj| && n <= |p.adj[w.End()]|
    ensures forall c :: c in r ==> c.Then? && c.before == w && c.edge in p.adj[w.End()]
    ensures forall i :: 0 <= i < n ==>
      (p.skipsParent && w.Then? && p.adj[w.End()][i].target == w.before.End()) || Then(w, p.adj[w.End()][i]) in r
  {
    if n == 0 then []
    else
      var e := p.adj[w.End()][n - 1];
      var rest := Expand(p, w, n - 1);
      if p.skipsParent && w.Then? && e.target == w.before.End() then rest else rest + [Then(w, e)]
  }

  /** No child on a simple path is left out. */
  lemma ExpandIsComplete(p: Problem, w: Walk, c: Walk)
    requires p.Valid() && Node(p, c) && c.Then? && c.before == w && w.End() < |p.adj|
    ensures c in Expand(p, w, |p.adj[w.End()]|)
  {
    var i :| 0 <= i < |p.adj[w.End()]| && p.adj[w.End()][i] == c.edge;
    if w.Then? { assert w.before.End() in Visited(w.before) by { EndIsVisited(w.before); } }
  }

  lemma EndIsVisited(w: Walk)
    ensures w.End() in Visited(w)
  {
  }

  class CostBoundDfs {
    const p: Problem
    const bound: nat
    var minPruned: nat

    constructor (p: Problem, bound: nat)
      ensures this.p == p && this.bound == bound && minPruned == 0
    {
      this.p, this.bound, minPruned := p, bound, 0;
    }

    /** Walks the parent pointers. */
    method IsCycle(s: Walk) returns (found: bool)
      ensures found <==> s.Then? && s.End() in Visited(s.before)
    {
      if s.Here? { return false; }
      var q := s.before;
      while true
        invariant s.End() in Visited(s.before) <==> s.End() in Visited(q)
        decreases q
      {
        if q.End() == s.End() {
          EndIsVisited(q);
          return true;
        }
        match q
        case Here(_) => return false;
        case Then(before, _) => q := before;
      }
    }

    method Search(w: Walk) returns (path: Option<Walk>)
      requires p.Valid() && Node(p, w)
      modifies this
      ensures Answers(p, bound, w, path, old(minPruned), minPruned)
      decreases |p.adj| - Steps(w)
    {
      NodeInGraph(p, w);
      if p.F(w) > bound {
        if minPruned == 0 || p.F(w) < minPruned { minPruned := p.F(w); }
        PrunedAtOnce(p, bound, w, old(minPruned), minPruned);
        return None;
      }
      if w.End() in p.goals { return Some(w); }
      var children := Expand(p, w, |p.adj[w.End()]|);
      var i := 0;
      path := None;
      while i < |children|
        invariant 0 <= i <= |children| && path.None?
        invariant NoGreater(minPruned, old(minPruned))
        invariant minPruned == old(minPruned) || Attained(p, bound, w, minPruned)
        invariant forall k :: 0 <= k < i && Node(p, children[k]) ==> Exhausted(p, bound, children[k], minPruned)
      {
        var c := children[i];
        assert c in children;
        var cycle := IsCycle(c);
        if !cycle {
          SimpleWalkIsShort(p.adj, c);
          var before := minPruned;
          path := Search(c);
          ChildAnswer(p, bound, w, c, path, before, minPruned);
          if path.Some? { return; }
          StillExhausted(p, bound, children, i, before, minPruned);
        }
        i := i + 1;
      }
      AllChildrenExhausted(p, bound, w, children, minPruned);
    }
  }

  lemma PrunedAtOnce(p: Problem, bound: nat, w: Walk, was: nat, least: nat)
    requires p.Valid() && Node(p, w) && w.End() < |p.adj| && bound < p.F(w)
    requires least == if was == 0 || p.F(w) < was then p.F(w) else was
    ensures Answers(p, bound, w, None, was, least)
  {
    assert Pruned(p, bound, w, w);
    forall q | Node(p, q) ensures !Within(p, bound, w, q) {
      NothingWithin(p, bound, w, q);
    }
    forall q | Node(p, q) && Pruned(p, bound, w, q) ensures q == w {
      if q != w { NothingWithin(p, bound, w, q.before); }
    }
  }

  lemma {:induction false} NothingWithin(p: Problem, bound: nat, w: Walk, q: Walk)
    requires p.Valid() && Node(p, w) && w.End() < |p.adj| && bound < p.F(w) && Node(p, q)
    ensures !Within(p, bound, w, q)
  {
    if q.Then? { NothingWithin(p, bound, w, q.before); }
  }

  /** What a child's search found is part of what the parent's found. */
  lemma ChildAnswer(p: Problem, bound: nat, w: Walk, c: Walk, r: Option<Walk>, was: nat, least: nat)
    requires p.Valid() && Node(p, w) && w.End() < |p.adj| && p.F(w) <= bound
    requires c.Then? && c.before == w && Answers(p, bound, c, r, was, least)
    ensures least == was || Attained(p, bound, w, least)
    ensures r.Some? ==> Within(p, bound, w, r.value)
  {
    if least != was {
      var q :| Node(p, q) && Pruned(p, bound, c, q) && p.F(q) == least;
      PrunedJoins(p, bound, w, c, q);
    }
    if r.Some? { WithinJoins(p, bound, w, c, r.value); }
  }

  lemma ExhaustedKept(p: Problem, bound: nat, w: Walk, was: nat, least: nat)
    requires p.Valid() && Exhausted(p, bound, w, was) && NoGreater(least, was)
    ensures Exhausted(p, bound, w, least)
  {
    forall q | Node(p, q) && Pruned(p, bound, w, q) ensures 0 < least <= p.F(q) {
    }
  }

  lemma StillExhausted(p: Problem, bound: nat, children: seq<Walk>, n: nat, was: nat, least: nat)
    requires p.Valid() && NoGreater(least, was) && n <= |children|
    requires forall k :: 0 <= k < n && Node(p, children[k]) ==> Exhausted(p, bound, children[k], was)
    ensures forall k :: 0 <= k < n && Node(p, children[k]) ==> Exhausted(p, bound, children[k], least)
  {
    forall k | 0 <= k < n && Node(p, children[k]) ensures Exhausted(p, bound, children[k], least) {
      ExhaustedKept(p, bound, children[k], was, least);
    }
  }

  lemma AllChildrenExhausted(p: Problem, bound: nat, w: Walk, children: seq<Walk>, least: nat)
    requires p.Valid() && Node(p, w) && w.End() < |p.adj| && p.F(w) <= bound && w.End() !in p.goals
    requires children == Expand(p, w, |p.adj[w.End()]|)
    requires forall k :: 0 <= k < |children| && Node(p, children[k]) ==> Exhausted(p, bound, children[k], least)
    ensures Exhausted(p, bound, w, least)
  {
    forall q | Node(p, q) && Within(p, bound, w, q) ensures q.End() !in p.goals {
      if q != w {
        var c := WithinSplits(p, bound, w, q);
        ExpandIsComplete(p, w, c);
      }
    }
    forall q | Node(p, q) && Pruned(p, bound, w, q) ensures 0 < least <= p.F(q) {
      if q != w {
        var c := PrunedSplits(p, bound, w, q);
        ExpandIsComplete(p, w, c);
      }
    }
  }

  // ---------- the bounds ----------

  /** A search that failed without pruning anything has seen that there is no solution. */
  lemma NothingPrunedMeansUnsolvable(p: Problem, bound: nat)
    requires p.Valid() && Exhausted(p, bound, Here(p.init), 0)
    ensures !p.Solvable()
  {
    forall w | p.Solves(w) ensures false {
      var q := Shortcut(p.adj, w);
      var c := WithinOrPruned(p, bound, q);
    }
  }

  /** The next bound does not pass the cost of any solution. */
  lemma NextBoundIsBelow(p: Problem, bound: nat, least: nat, w: Walk)
    requires p.Valid() && p.Admissible() && p.Solves(w) && Exhausted(p, bound, Here(p.init), least)
    ensures 0 < least <= w.Cost()
  {
    var q := Shortcut(p.adj, w);
    var c := WithinOrPruned(p, bound, q);
    PrefixLooksNoDearer(p, q, c);
  }

  // ---------- a ceiling for f ----------

  function MaxOf(xs: seq<nat>): (m: nat)
    ensures forall x :: x in xs ==> x <= m
  {
    if xs == [] then 0
    else
      var m := MaxOf(xs[..|xs| - 1]);
      assert xs == xs[..|xs| - 1] + [xs[|xs| - 1]];
      if xs[|xs| - 1] > m then xs[|xs| - 1] else m
  }

  function MaxEdge(es: seq<Edge>): (m: nat)
    ensures forall e :: e in es ==> e.weight <= m
  {
    if es == [] then 0
    else
      var m := MaxEdge(es[..|es| - 1]);
      assert es == es[..|es| - 1] + [es[|es| - 1]];
      if es[|es| - 1].weight > m then es[|es| - 1].weight else m
  }

  function MaxWeight(adj: Adjacency): (m: nat)
    ensures forall v, e :: 0 <= v < |adj| && e in adj[v] ==> e.weight <= m
  {
    if adj == [] then 0
    else
      var m, k := MaxWeight(adj[..|adj| - 1]), MaxEdge(adj[|adj| - 1]);
      if k > m then k else m
  }

  function Times(n: nat, c: nat): nat {
    if n == 0 then 0 else Times(n - 1, c) + c
  }

  lemma {:induction false} TimesGrows(m: nat, n: nat, c: nat)
    requires m <= n
    ensures Times(m, c) <= Times(n, c)
  {
    if m < n { TimesGrows(m, n - 1, c); }
  }

  lemma {:induction false} CostIsBounded(adj: Adjacency, w: Walk)
    requires w.In(adj)
    ensures w.Cost() <= Times(Steps(w), MaxWeight(adj))
  {
    match w
    case Here(_) =>
    case Then(p, _) => CostIsBounded(adj, p);
  }

  function Ceiling(p: Problem): nat {
    Times(|p.adj|, MaxWeight(p.adj)) + MaxOf(p.h)
  }

  lemma FIsBelowCeiling(p: Problem, w: Walk)
    requires p.Valid() && Node(p, w)
    ensures w.End() < |p.adj| && p.F(w) <= Ceiling(p)
  {
    NodeInGraph(p, w);
    CostIsBounded(p.adj, w);
    SimpleWalkIsShort(p.adj, w);
    TimesGrows(Steps(w), |p.adj|, MaxWeight(p.adj));
    assert p.h[w.End()] in p.h;
  }

  lemma BoundRises(p: Problem, bound: nat, least: nat)
    requires p.Valid() && Attained(p, bound, Here(p.init), least)
    ensures bound < least <= Ceiling(p)
  {
    var q :| Node(p, q) && Pruned(p, bound, Here(p.init), q) && p.F(q) == least;
    FIsBelowCeiling(p, q);
  }

  // ---------- the iteration ----------

  ghost predicate Rising(iters: seq<nat>, bound: nat) {
    && (forall i :: 0 <= i < |iters| ==> iters[i] < bound)
    && forall i, j :: 0 <= i < j < |iters| ==> iters[i] < iters[j]
  }

  /** Iterated deepening always ends.  It returns a solution exactly when there is
      one; with an admissible heuristic it is a cheapest one, and no bound it tries
      exceeds the cost of a solution. */
  method Search(p: Problem) returns (path: Option<Walk>, iters: seq<nat>)
    requires p.Valid()
    ensures path.Some? ==> p.Solves(path.value) && Simple(path.value)
    ensures path.None? <==> !p.Solvable()
    ensures path.Some? && p.Admissible() ==> forall w :: p.Solves(w) ==> path.value.Cost() <= w.Cost()
    ensures forall i, j :: 0 <= i < j < |iters| ==> iters[i] < iters[j]
    ensures p.Admissible() ==> forall i, w :: 0 <= i < |iters| && p.Solves(w) ==> iters[i] <= w.Cost()
  {
    var bound := p.F(Here(p.init));
    var oldBound := bound;
    iters := [];
    FIsBelowCeiling(p, Here(p.init));
    while true
      invariant Rising(iters, bound)
      invariant bound <= Ceiling(p)
      invariant p.Admissible() ==> forall w :: p.Solves(w) ==> bound <= w.Cost()
      decreases Ceiling(p) - bound
    {
      var dfs := new CostBoundDfs(p, bound);
      path := dfs.Search(Here(p.init));
      if path.None? { iters := iters + [bound]; }
      oldBound := bound;
      var next := dfs.minPruned;
      if path.None? {
        if next != 0 { BoundRises(p, bound, next); } else { NothingPrunedMeansUnsolvable(p, bound); }
        if p.Admissible() {
          forall w | p.Solves(w) ensures 0 < next <= w.Cost() { NextBoundIsBelow(p, bound, next, w); }
        }
      } else {
        SolutionIsWithin(p, bound, path.value);
      }
      if !((path.None? || path.value.Cost() > oldBound) && next != 0) { break; }
      bound := next;
    }
  }

  lemma SolutionIsWithin(p: Problem, bound: nat, q: Walk)
    requires p.Valid() && Node(p, q) && Within(p, bound, Here(p.init), q) && q.End() in p.goals
    ensures p.Solves(q) && q.Cost() <= bound
  {
    NodeInGraph(p, q);
  }
}
