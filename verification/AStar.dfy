/** Weighted A* with fixed-point arithmetic.

    The initial state is put on the open list but not on the closed list, so the
    start vertex may be represented twice: by the root and, once some state has
    generated it again, by an entry of the closed list like any other. */
module AStar {
  import opened Graphs
  import opened Numbers
  import opened SearchProblems

  const FP_ONE: nat := 10000

  datatype Ref = Root | Listed(v: nat)

  /** A state on the closed list: its g, its parent and the cost of the edge from there. */
  datatype Entry = Entry(g: nat, parent: Ref, c: nat)

  type Closed = map<nat, Entry>

  predicate Alive(t: Closed, r: Ref) {
    r.Root? || r.v in t
  }

  function G(t: Closed, r: Ref): nat
    requires Alive(t, r)
  {
    match r
    case Root => 0
    case Listed(v) => t[v].g
  }

  function At(p: Problem, r: Ref): nat {
    match r
    case Root => p.init
    case Listed(v) => v
  }

  /** f': the product is cut off below, not rounded. */
  function FPrime(p: Problem, weight: nat, t: Closed, r: Ref): nat
    requires Alive(t, r) && At(p, r) < |p.h|
  {
    G(t, r) + weight * p.h[At(p, r)] / FP_ONE
  }

  /** What f' stands for, in units of one part in FP_ONE. */
  function Exact(p: Problem, weight: nat, t: Closed, r: Ref): nat
    requires Alive(t, r) && At(p, r) < |p.h|
  {
    G(t, r) * FP_ONE + weight * p.h[At(p, r)]
  }

  /** f' is the exact value cut off to a whole number. */
  lemma FPrimeIsCutOff(p: Problem, weight: nat, t: Closed, r: Ref)
    requires Alive(t, r) && At(p, r) < |p.h|
    ensures FPrime(p, weight, t, r) * FP_ONE <= Exact(p, weight, t, r) < FPrime(p, weight, t, r) * FP_ONE + FP_ONE
  {
    DivisionSplits(weight * p.h[At(p, r)], FP_ONE);
  }

  /** The order of expansion is that of the weighted values, up to less than one. */
  lemma OrderIsWeighted(p: Problem, weight: nat, t: Closed, r: Ref, s: Ref)
    requires Alive(t, r) && At(p, r) < |p.h| && Alive(t, s) && At(p, s) < |p.h|
    ensures Exact(p, weight, t, s) <= Exact(p, weight, t, r) ==> FPrime(p, weight, t, s) <= FPrime(p, weight, t, r)
    ensures FPrime(p, weight, t, s) <= FPrime(p, weight, t, r) ==>
              Exact(p, weight, t, s) < Exact(p, weight, t, r) + FP_ONE
  {
    FPrimeIsCutOff(p, weight, t, r);
    FPrimeIsCutOff(p, weight, t, s);
    hide Exact, FPrime;
  }

  // ---------- parent pointers ----------

  /** The parent is reached no later in the order (g, time g was set), and by an edge
      of the stated cost; parents may have improved since. */
  ghost predicate EntryOk(p: Problem, t: Closed, stamp: map<nat, nat>, v: nat)
    requires v in t
  {
    var e := t[v];
    && v in stamp && v < |p.adj|
    && Alive(t, e.parent) && At(p, e.parent) < |p.adj|
    && Edge(v, e.c) in p.adj[At(p, e.parent)]
    && G(t, e.parent) + e.c <= e.g
    && (e.parent.Listed? && G(t, e.parent) == e.g ==> e.parent.v in stamp && stamp[e.parent.v] < stamp[v])
  }

  ghost predicate ParentsOk(p: Problem, t: Closed, stamp: map<nat, nat>) {
    forall v {:trigger EntryOk(p, t, stamp, v)} :: v in t ==> EntryOk(p, t, stamp, v)
  }

  ghost predicate Before(stamp: map<nat, nat>, now: nat) {
    forall v :: v in stamp ==> stamp[v] < now
  }

  /** The better way from s along e is recorded. */
  function Record(t: Closed, s: Ref, e: Edge, g: nat): Closed {
    t[e.target := Entry(g, s, e.weight)]
  }

  ghost predicate Improves(p: Problem, t: Closed, s: Ref, e: Edge) {
    && Alive(t, s) && At(p, s) < |p.adj| && e in p.adj[At(p, s)]
    && (e.target in t ==> G(t, s) + e.weight < t[e.target].g)
  }

  lemma RecordKeepsParents(p: Problem, t: Closed, stamp: map<nat, nat>, now: nat, s: Ref, e: Edge)
    requires p.Valid() && ParentsOk(p, t, stamp) && Before(stamp, now) && Improves(p, t, s, e)
    ensures ParentsOk(p, Record(t, s, e, G(t, s) + e.weight), stamp[e.target := now])
    ensures Before(stamp[e.target := now], now + 1)
  {
    var r := Record(t, s, e, G(t, s) + e.weight);
    forall v | v in r ensures EntryOk(p, r, stamp[e.target := now], v) {
      if v != e.target { assert EntryOk(p, t, stamp, v); }
      if s.Listed? { assert EntryOk(p, t, stamp, s.v); }
    }
  }

  function Stamp(stamp: map<nat, nat>, r: Ref): nat {
    if r.Listed? && r.v in stamp then stamp[r.v] else 0
  }

  /** The walk the parent pointers describe, read from the start. */
  ghost function Lineage(p: Problem, t: Closed, stamp: map<nat, nat>, r: Ref): (w: Walk)
    requires p.Valid() && ParentsOk(p, t, stamp) && Alive(t, r)
    ensures w.In(p.adj) && w.Start() == p.init && w.End() == At(p, r) && w.Cost() <= G(t, r)
    decreases G(t, r), Stamp(stamp, r), r.Listed?
  {
    match r
    case Root => Here(p.init)
    case Listed(v) =>
      assert EntryOk(p, t, stamp, v);
      Then(Lineage(p, t, stamp, t[v].parent), Edge(v, t[v].c))
  }

  /** A walk as the list of its vertices, last one first. */
  function Trace(w: Walk): seq<nat> {
    match w
    case Here(v) => [v]
    case Then(q, e) => [e.target] + Trace(q)
  }

  // ---------- what expanding a state leaves behind ----------

  predicate Known(p: Problem, t: Closed, v: nat) {
    v == p.init || v in t
  }

  /** The best g found for v. */
  function Best(p: Problem, t: Closed, v: nat): nat
    requires Known(p, t, v)
  {
    if v == p.init then 0 else t[v].g
  }

  ghost predicate Reached(p: Problem, t: Closed, exact: bool, g: nat, e: Edge) {
    Known(p, t, e.target) && (exact ==> Best(p, t, e.target) <= g + e.weight)
  }

  /** Every successor of r is known, at no more than the cost of going through r. */
  ghost predicate Covered(p: Problem, t: Closed, exact: bool, r: Ref)
    requires Alive(t, r)
  {
    && At(p, r) < |p.adj| && At(p, r) !in p.goals
    && forall e {:trigger Reached(p, t, exact, G(t, r), e)} ::
         e in p.adj[At(p, r)] ==> Reached(p, t, exact, G(t, r), e)
  }

  ghost predicate Settled(p: Problem, t: Closed, open: set<Ref>, exact: bool, hand: Option<Ref>) {
    && (forall r :: r in open ==> Alive(t, r))
    && forall r {:trigger Covered(p, t, exact, r)} ::
         Alive(t, r) && r !in open && hand != Some(r) ==> Covered(p, t, exact, r)
  }

  /** What was known stays known, at no greater g. */
  ghost predicate NoWorse(p: Problem, was: Closed, t: Closed) {
    forall v :: Known(p, was, v) ==> Known(p, t, v) && Best(p, t, v) <= Best(p, was, v)
  }

  lemma RecordIsNoWorse(p: Problem, t: Closed, s: Ref, e: Edge)
    requires Improves(p, t, s, e)
    ensures NoWorse(p, t, Record(t, s, e, G(t, s) + e.weight))
  {
  }

  lemma CoveredKept(p: Problem, was: Closed, t: Closed, exact: bool, r: Ref)
    requires Alive(was, r) && Alive(t, r) && G(t, r) == G(was, r) && NoWorse(p, was, t) && Covered(p, was, exact, r)
    ensures Covered(p, t, exact, r)
  {
    forall e | e in p.adj[At(p, r)] ensures Reached(p, t, exact, G(t, r), e) {
      assert Reached(p, was, exact, G(was, r), e);
    }
  }

  /** A state whose g was lowered without being expanded again. */
  lemma KnownKept(p: Problem, was: Closed, t: Closed, r: Ref)
    requires Alive(was, r) && Alive(t, r) && NoWorse(p, was, t) && Covered(p, was, false, r)
    ensures Covered(p, t, false, r)
  {
    forall e | e in p.adj[At(p, r)] ensures Reached(p, t, false, G(t, r), e) {
      assert Reached(p, was, false, G(was, r), e);
    }
  }

  /** Recording an improvement keeps the rest settled: the improved state is open again,
      or, when duplicates are dropped, exactness is not promised. */
  lemma RecordKeepsSettled(p: Problem, t: Closed, open: set<Ref>, exact: bool, s: Ref, e: Edge, open': set<Ref>)
    requires p.Valid() && Settled(p, t, open, exact, Some(s)) && Improves(p, t, s, e)
    requires open <= open' <= open + {Listed(e.target)}
    requires e.target !in t || exact ==> Listed(e.target) in open'
    ensures Settled(p, Record(t, s, e, G(t, s) + e.weight), open', exact, Some(s))
  {
    var t' := Record(t, s, e, G(t, s) + e.weight);
    RecordIsNoWorse(p, t, s, e);
    forall r | Alive(t', r) && r !in open' && r != s ensures Covered(p, t', exact, r) {
      assert Covered(p, t, exact, r);
      if r == Listed(e.target) {
        KnownKept(p, t, t', r);
      } else {
        CoveredKept(p, t, t', exact, r);
      }
    }
  }

  /** A child that is left out because it is the parent is known well enough. */
  lemma ParentIsReached(p: Problem, t: Closed, stamp: map<nat, nat>, exact: bool, r: Ref, e: Edge)
    requires p.Valid() && ParentsOk(p, t, stamp) && Alive(t, r) && r.Listed?
    requires e.target == At(p, t[r.v].parent)
    ensures Reached(p, t, exact, G(t, r), e)
  {
    assert EntryOk(p, t, stamp, r.v);
  }

  // ---------- the two theorems behind the search ----------

  function RefOf(p: Problem, v: nat): Ref {
    if v == p.init then Root else Listed(v)
  }

  /** Along any walk from the start: an open state lies on it, reached at no more than
      the walk pays, or its end is settled at no more than its cost. */
  lemma {:induction false} OpenOrSettled(p: Problem, t: Closed, open: set<Ref>, exact: bool, w: Walk)
      returns (r: Ref, q: Walk)
    requires p.Valid() && Settled(p, t, open, exact, None) && w.In(p.adj) && w.Start() == p.init
    ensures Alive(t, r) && Extends(w, q) && q.End() == At(p, r) && (exact ==> G(t, r) <= q.Cost())
    ensures r in open || (r == RefOf(p, w.End()) && q == w && Covered(p, t, exact, r))
  {
    match w
    case Here(_) => r, q := Root, w;
    case Then(before, e) =>
      r, q := OpenOrSettled(p, t, open, exact, before);
      if r !in open {
        assert Reached(p, t, exact, G(t, r), e);
        r, q := RefOf(p, e.target), w;
      }
  }

  /** While the search runs, an open state lies on every solution. */
  lemma SolutionMeetsOpen(p: Problem, t: Closed, open: set<Ref>, exact: bool, w: Walk) returns (r: Ref, q: Walk)
    requires p.Valid() && Settled(p, t, open, exact, None) && p.Solves(w)
    ensures r in open && Alive(t, r) && Extends(w, q) && q.End() == At(p, r) && (exact ==> G(t, r) <= q.Cost())
  {
    r, q := OpenOrSettled(p, t, open, exact, w);
  }

  function Max(a: nat, b: nat): nat {
    if a < b then b else a
  }

  /** The arithmetic of the bound: cutting off the product does no harm. */
  lemma TruncationIsHarmless(weight: nat, g: nat, gn: nat, hn: nat, cost: nat)
    requires g <= gn + weight * hn / FP_ONE && gn + hn <= cost
    ensures g * FP_ONE <= Max(weight, FP_ONE) * cost
  {
    var m := Max(weight, FP_ONE);
    var cut := weight * hn / FP_ONE;
    assert cut * FP_ONE <= weight * hn;
    Widen(weight, m, hn);
    Widen(FP_ONE, m, gn);
    assert m * gn + m * hn == m * (gn + hn);
    Raise(m, gn + hn, cost);
  }

  lemma Widen(a: nat, b: nat, x: nat)
    requires a <= b
    ensures a * x <= b * x
  {
  }

  lemma Raise(a: nat, x: nat, y: nat)
    requires x <= y
    ensures a * x <= a * y
  {
  }

  /** A state of least f' that is a goal is within the weight of every solution. */
  lemma BestOpenIsBounded(p: Problem, weight: nat, t: Closed, open: set<Ref>, s: Ref, exact: bool)
    requires p.Valid() && Settled(p, t, open, exact, None)
    requires forall r :: r in open ==> At(p, r) < |p.h|
    requires s in open && forall r :: r in open ==> FPrime(p, weight, t, s) <= FPrime(p, weight, t, r)
    ensures exact && p.Admissible() ==> forall w :: p.Solves(w) ==> G(t, s) * FP_ONE <= Max(weight, FP_ONE) * w.Cost()
  {
    if exact && p.Admissible() {
      forall w | p.Solves(w) ensures G(t, s) * FP_ONE <= Max(weight, FP_ONE) * w.Cost() {
        var r, q := SolutionMeetsOpen(p, t, open, true, w);
        assert FPrime(p, weight, t, s) <= FPrime(p, weight, t, r);
        PrefixLooksNoDearer(p, w, q);
        TruncationIsHarmless(weight, G(t, s), G(t, r), p.h[At(p, r)], w.Cost());
      }
    }
  }

  lemma EmptyOpenMeansUnsolvable(p: Problem, t: Closed, exact: bool)
    requires p.Valid() && Settled(p, t, {}, exact, None)
    ensures !p.Solvable()
  {
    forall w | p.Solves(w) ensures false {
      var r, q := SolutionMeetsOpen(p, t, {}, exact, w);
    }
  }

  // ---------- why the search ends ----------

  function Missing(t: Closed, n: nat): nat {
    if n == 0 then 0 else Missing(t, n - 1) + if n - 1 in t then 0 else 1
  }

  function Total(t: Closed, n: nat): nat {
    if n == 0 then 0 else Total(t, n - 1) + if n - 1 in t then t[n - 1].g else 0
  }

  lemma {:induction false} RecordOutside(t: Closed, s: Ref, e: Edge, g: nat, n: nat)
    requires n <= e.target
    ensures Missing(Record(t, s, e, g), n) == Missing(t, n) && Total(Record(t, s, e, g), n) == Total(t, n)
  {
    if n > 0 { RecordOutside(t, s, e, g, n - 1); }
  }

  /** An improvement adds an entry or lowers a g. */
  lemma {:induction false} RecordIsProgress(t: Closed, s: Ref, e: Edge, g: nat, n: nat)
    requires e.target < n && (e.target in t ==> g < t[e.target].g)
    ensures Missing(Record(t, s, e, g), n) + (if e.target in t then 0 else 1) == Missing(t, n)
    ensures e.target in t ==> Total(Record(t, s, e, g), n) < Total(t, n)
  {
    if e.target == n - 1 {
      RecordOutside(t, s, e, g, n - 1);
    } else {
      RecordIsProgress(t, s, e, g, n - 1);
    }
  }

  ghost predicate Progress(p: Problem, was: Closed, t: Closed) {
    var n := |p.adj|;
    Missing(t, n) < Missing(was, n) || (Missing(t, n) == Missing(was, n) && Total(t, n) < Total(was, n))
  }

  /** Everything the search needs to know after one improvement. */
  lemma RecordIsSafe(p: Problem, t: Closed, open: set<Ref>, stamp: map<nat, nat>, now: nat, exact: bool,
                     s: Ref, e: Edge, open': set<Ref>)
    requires p.Valid() && ParentsOk(p, t, stamp) && Before(stamp, now) && Settled(p, t, open, exact, Some(s))
    requires Improves(p, t, s, e) && open <= open' <= open + {Listed(e.target)}
    requires e.target !in t || exact ==> Listed(e.target) in open'
    ensures var t' := Record(t, s, e, G(t, s) + e.weight);
            && ParentsOk(p, t', stamp[e.target := now]) && Before(stamp[e.target := now], now + 1)
            && Settled(p, t', open', exact, Some(s)) && Progress(p, t, t') && NoWorse(p, t, t')
            && Alive(t', s) && G(t', s) == G(t, s) && (s.Listed? ==> t'[s.v] == t[s.v])
            && Reached(p, t', exact, G(t, s), e)
  {
    RecordKeepsParents(p, t, stamp, now, s, e);
    RecordKeepsSettled(p, t, open, exact, s, e, open');
    RecordIsProgress(t, s, e, G(t, s) + e.weight, |p.adj|);
    RecordIsNoWorse(p, t, s, e);
  }

  // ---------- expand ----------

  function Children(p: Problem, t: Closed, r: Ref, n: nat): (cs: seq<Edge>)
    requires Alive(t, r) && At(p, r) < |p.adj| && n <= |p.adj[At(p, r)]|
    ensures forall e :: e in cs ==> e in p.adj[At(p, r)]
    ensures forall i :: 0 <= i < n ==>
      p.adj[At(p, r)][i] in cs || (p.skipsParent && r.Listed? && p.adj[At(p, r)][i].target == At(p, t[r.v].parent))
  {
    if n == 0 then []
    else
      var e := p.adj[At(p, r)][n - 1];
      var rest := Children(p, t, r, n - 1);
      if p.skipsParent && r.Listed? && e.target == At(p, t[r.v].parent) then rest else rest + [e]
  }

  /** Once all children are dealt with, the expanded state is covered. */
  lemma AllChildrenCover(p: Problem, t0: Closed, t: Closed, stamp: map<nat, nat>, exact: bool, r: Ref, cs: seq<Edge>)
    requires p.Valid() && ParentsOk(p, t, stamp) && Alive(t0, r) && Alive(t, r) && At(p, r) < |p.adj|
    requires r.Listed? ==> t[r.v] == t0[r.v]
    requires At(p, r) !in p.goals && cs == Children(p, t0, r, |p.adj[At(p, r)]|)
    requires forall k :: 0 <= k < |cs| ==> Reached(p, t, exact, G(t, r), cs[k])
    ensures Covered(p, t, exact, r)
  {
    forall e | e in p.adj[At(p, r)] ensures Reached(p, t, exact, G(t, r), e) {
      if e !in cs { ParentIsReached(p, t, stamp, exact, r, e); }
    }
  }

  // ---------- the search ----------

  class Search {
    const p: Problem
    const weight: nat
    /** When set, a better way to a state already expanded is recorded but not followed. */
    const dd: bool
    var open: set<Ref>
    var closed: Closed
    ghost var stamp: map<nat, nat>
    ghost var now: nat

    constructor (p: Problem, weight: nat, dd: bool)
      ensures this.p == p && this.weight == weight && this.dd == dd && open == {} && closed == map[]
      ensures stamp == map[] && now == 0
    {
      this.p, this.weight, this.dd := p, weight, dd;
      open, closed, stamp, now := {}, map[], map[], 0;
    }

    ghost predicate Chained()
      reads this
    {
      p.Valid() && ParentsOk(p, closed, stamp) && Before(stamp, now)
    }

    ghost predicate Valid(hand: Option<Ref>)
      reads this
    {
      Chained() && Settled(p, closed, open, !dd, hand)
    }

    /** The parent pointers from r back to the start. */
    method GetPath(r: Ref) returns (path: seq<nat>)
      requires Chained() && Alive(closed, r)
      ensures path == Trace(Lineage(p, closed, stamp, r))
    {
      path := [];
      var q := r;
      while q.Listed?
        invariant Alive(closed, q)
        invariant path + Trace(Lineage(p, closed, stamp, q)) == Trace(Lineage(p, closed, stamp, r))
        decreases G(closed, q), Stamp(stamp, q), q.Listed?
      {
        assert EntryOk(p, closed, stamp, q.v);
        path := path + [q.v];
        q := closed[q.v].parent;
      }
      path := path + [p.init];
    }

    /** The open list gives some state of least f'. */
    method Take() returns (s: Ref)
      requires Chained() && open != {} && forall r :: r in open ==> Alive(closed, r)
      modifies this`open
      ensures s in old(open) && open == old(open) - {s}
      ensures forall r :: r in old(open) ==> At(p, r) < |p.h|
      ensures forall r :: r in old(open) ==> FPrime(p, weight, closed, s) <= FPrime(p, weight, closed, r)
    {
      forall r | r in open ensures At(p, r) < |p.h| {
        if r.Listed? { assert EntryOk(p, closed, stamp, r.v); }
      }
      s :| s in open;
      var rest := open - {s};
      while rest != {}
        invariant s in open && rest <= open
        invariant forall r :: r in open - rest ==> FPrime(p, weight, closed, s) <= FPrime(p, weight, closed, r)
        decreases |rest|
      {
        var r :| r in rest;
        if FPrime(p, weight, closed, r) < FPrime(p, weight, closed, s) { s := r; }
        rest := rest - {r};
      }
      open := open - {s};
    }

    /** One child of s: a new state is opened; a state reached by a better way is
        re-sorted if it is open and re-opened if it is not. */
    method Generate(s: Ref, e: Edge)
      requires Valid(Some(s)) && Alive(closed, s) && At(p, s) < |p.adj| && e in p.adj[At(p, s)]
      modifies this
      ensures Valid(Some(s)) && Alive(closed, s) && G(closed, s) == old(G(closed, s))
      ensures s.Listed? ==> closed[s.v] == old(closed[s.v])
      ensures Reached(p, closed, !dd, G(closed, s), e) && NoWorse(p, old(closed), closed)
      ensures (closed == old(closed) && open == old(open)) || Progress(p, old(closed), closed)
    {
      var g := G(closed, s) + e.weight;
      if e.target in closed {
        if closed[e.target].g > g {
          ghost var better := if dd then open else open + {Listed(e.target)};
          RecordIsSafe(p, closed, open, stamp, now, !dd, s, e, better);
          closed := closed[e.target := Entry(g, s, e.weight)];
          if Listed(e.target) in open {
            // see_update: the order of the open list is a function of g
          } else if !dd {
            open := open + {Listed(e.target)};
          }
          stamp, now := stamp[e.target := now], now + 1;
        }
      } else {
        RecordIsSafe(p, closed, open, stamp, now, !dd, s, e, open + {Listed(e.target)});
        open := open + {Listed(e.target)};
        closed := closed[e.target := Entry(g, s, e.weight)];
        stamp, now := stamp[e.target := now], now + 1;
      }
    }

    method Expand(s: Ref)
      requires Valid(Some(s)) && Alive(closed, s) && At(p, s) < |p.adj| && At(p, s) !in p.goals
      modifies this
      ensures Valid(None)
      ensures (closed == old(closed) && open == old(open)) || Progress(p, old(closed), closed)
    {
      ghost var t0 := closed;
      var children := Children(p, closed, s, |p.adj[At(p, s)]|);
      var i := 0;
      while i < |children|
        invariant 0 <= i <= |children| && Valid(Some(s)) && Alive(closed, s) && G(closed, s) == G(t0, s)
        invariant s.Listed? ==> closed[s.v] == t0[s.v]
        invariant (closed == t0 && open == old(open)) || Progress(p, t0, closed)
        invariant forall k :: 0 <= k < i ==> Reached(p, closed, !dd, G(closed, s), children[k])
      {
        assert children[i] in children;
        ghost var t := closed;
        Generate(s, children[i]);
        forall k | 0 <= k < i ensures Reached(p, closed, !dd, G(closed, s), children[k]) {
          assert Reached(p, t, !dd, G(t, s), children[k]);
        }
        i := i + 1;
      }
      AllChildrenCover(p, t0, closed, stamp, !dd, s, children);
    }

    /** A solution is returned exactly when there is one, whatever the heuristic and
        the weight.  With reopening and an admissible heuristic its g is within
        weight / FP_ONE of the cost of every solution, and exact for weight FP_ONE. */
    method Run() returns (path: Option<seq<nat>>, g: nat)
      requires p.Valid() && open == {} && closed == map[] && stamp == map[] && now == 0
      modifies this
      ensures path.None? <==> !p.Solvable()
      ensures path.Some? ==> exists w :: p.Solves(w) && path.value == Trace(w) && w.Cost() <= g
      ensures path.Some? && !dd && p.Admissible() ==>
        forall w :: p.Solves(w) ==> g * FP_ONE <= Max(weight, FP_ONE) * w.Cost()
    {
      open := {Root};
      path, g := None, 0;
      while open != {}
        invariant Valid(None)
        decreases Missing(closed, |p.adj|), Total(closed, |p.adj|), |open|
      {
        ghost var before := open;
        var s := Take();
        AliveInGraph(p, closed, stamp, s);
        if At(p, s) in p.goals {
          g := G(closed, s);
          var found := GetPath(s);
          path := Some(found);
          assert p.Solves(Lineage(p, closed, stamp, s));
          BestOpenIsBounded(p, weight, closed, before, s, !dd);
          return;
        }
        Expand(s);
      }
      EmptyOpenMeansUnsolvable(p, closed, !dd);
    }
  }

  lemma AliveInGraph(p: Problem, t: Closed, stamp: map<nat, nat>, r: Ref)
    requires p.Valid() && ParentsOk(p, t, stamp) && Alive(t, r)
    ensures At(p, r) < |p.adj|
  {
    if r.Listed? { assert EntryOk(p, t, stamp, r.v); }
  }
}
