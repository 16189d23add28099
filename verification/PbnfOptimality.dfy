/** When the searches of PBNF, block by block, add up to an optimal search. */
module PbnfOptimality {
  import opened Graphs
  import opened NBlocks
  import opened PbnfSearch
  import S = NBlockScheduler

  /** Every known state is open or need not be looked at again. */
  ghost predicate Complete(d: Domain, blocks: seq<Lists>, b: Option<nat>) {
    forall c, v :: 0 <= c < |blocks| && v in blocks[c].closed ==>
      v in blocks[c].open || Settled(d, blocks, b, Visit(v, blocks[c].closed[v]))
  }

  lemma SettledBelow(d: Domain, blocks: seq<Lists>, above: Option<nat>, b: Option<nat>, x: Visit)
    requires Settled(d, blocks, above, x) && NoGreater(b, above)
    ensures Settled(d, blocks, b, x)
  {
    if Beats(x.g + d.h(x.v), b) {
      forall i | 0 <= i < |d.adj[x.v]| ensures Handled(d, blocks, b, x.g, d.adj[x.v][i]) {
        assert Handled(d, blocks, above, x.g, d.adj[x.v][i]);
      }
    }
  }

  /** A search that has settled what it has taken, and left the rest open, keeps it. */
  lemma WorkKeepsComplete(d: Domain, n: nat, was: seq<Lists>, now: seq<Lists>, above: Option<nat>, b: Option<nat>,
                          taken: seq<Visit>)
    requires n < |d.p.succs| && Kept(d, n, was, now) && NoGreater(b, above)
    requires Complete(d, was, above) && Worked(d, n, was, now, b, taken)
    ensures Complete(d, now, b)
  {
    forall c, v | 0 <= c < |now| && v in now[c].closed && v !in now[c].open
      ensures Settled(d, now, b, Visit(v, now[c].closed[v]))
    {
      var x := Visit(v, now[c].closed[v]);
      if c == n && x in taken {
        var i :| 0 <= i < |taken| && taken[i] == x;
      } else {
        assert v !in was[c].open && !Cheaper(was[c], now[c], v) by {
          if c == n { assert Served(was[n], now[n], taken); } else { assert Opens(was[c], now[c]); }
        }
        assert NoWorse(was[c], now[c]) && was[c].closed[v] == now[c].closed[v];
        assert Settled(d, was, above, x);
        StaysSettled(d, n, was, above, now, b, x);
      }
    }
  }

  lemma OpenedIsComplete(d: Domain, now: seq<Lists>, b: Option<nat>, t: nat)
    requires Reported(d, now, b, t) && Complete(d, Opened(d, now, t), b)
    ensures Complete(d, now, b)
  {
    var shown := Opened(d, now, t);
    forall c, v | 0 <= c < |now| && v in now[c].closed && v !in now[c].open
      ensures Settled(d, now, b, Visit(v, now[c].closed[v]))
    {
      if v != t || c != d.project(t) {
        assert v in shown[c].closed && Settled(d, shown, b, Visit(v, now[c].closed[v]));
        SettledSame(d, shown, now, b, Visit(v, now[c].closed[v]));
      }
    }
  }

  lemma SettledSame(d: Domain, was: seq<Lists>, now: seq<Lists>, b: Option<nat>, x: Visit)
    requires |was| == |now| && forall c :: 0 <= c < |was| ==> now[c].closed == was[c].closed
    requires Settled(d, was, b, x)
    ensures Settled(d, now, b, x)
  {
    if Beats(x.g + d.h(x.v), b) {
      forall i | 0 <= i < |d.adj[x.v]| ensures Handled(d, now, b, x.g, d.adj[x.v][i]) {
        assert Handled(d, was, b, x.g, d.adj[x.v][i]);
      }
    }
  }

  // ---------- runs ----------

  /** One search of a block; `b` is the bound afterwards, reports included.  The bound
      falls only to costs of real paths. */
  ghost predicate Searched(d: Domain, was: seq<Lists>, above: Option<nat>, now: seq<Lists>, b: Option<nat>) {
    && NoGreater(b, above) && (b == above || (b.Some? && GoalCost(d, b.value)))
    && exists n: nat, taken :: n < |d.p.succs| && Kept(d, n, was, now) && Done(d, n, was, now, b, taken)
  }

  ghost predicate Initial(d: Domain, blocks: seq<Lists>) {
    && |blocks| == |d.p.succs| && d.project(d.init) < |blocks|
    && forall c :: 0 <= c < |blocks| ==>
         blocks[c] == if c == d.project(d.init) then Lists({d.init}, map[d.init := 0]) else Lists({}, map[])
  }

  /** The blocks and the bound after each search. */
  ghost predicate Run(d: Domain, trace: seq<seq<Lists>>, bounds: seq<Option<nat>>) {
    && |trace| == |bounds| > 0 && Initial(d, trace[0]) && bounds[0] == None
    && forall i :: 0 <= i < |trace| - 1 ==> Searched(d, trace[i], bounds[i], trace[i + 1], bounds[i + 1])
  }

  ghost predicate RunInv(d: Domain, blocks: seq<Lists>, b: Option<nat>) {
    && |blocks| == |d.p.succs| && d.project(d.init) < |blocks| && Complete(d, blocks, b)
    && d.init in blocks[d.project(d.init)].closed && blocks[d.project(d.init)].closed[d.init] == 0
    && (b.Some? ==> GoalCost(d, b.value))
  }

  lemma SearchKeepsInv(d: Domain, was: seq<Lists>, above: Option<nat>, now: seq<Lists>, b: Option<nat>)
    requires RunInv(d, was, above) && Searched(d, was, above, now, b)
    ensures RunInv(d, now, b)
  {
    var n: nat, taken :| n < |d.p.succs| && Kept(d, n, was, now) && Done(d, n, was, now, b, taken);
    if Worked(d, n, was, now, b, taken) {
      WorkKeepsComplete(d, n, was, now, above, b, taken);
    } else {
      var t :| Reported(d, now, b, t) && Kept(d, n, was, Opened(d, now, t))
               && Worked(d, n, was, Opened(d, now, t), b, taken);
      WorkKeepsComplete(d, n, was, Opened(d, now, t), above, b, taken);
      OpenedIsComplete(d, now, b, t);
    }
    assert NoWorse(was[d.project(d.init)], now[d.project(d.init)]);
  }

  lemma {:induction false} RunKeepsInv(d: Domain, trace: seq<seq<Lists>>, bounds: seq<Option<nat>>, i: nat)
    requires Run(d, trace, bounds) && i < |trace|
    ensures RunInv(d, trace[i], bounds[i])
  {
    if i > 0 {
      RunKeepsInv(d, trace, bounds, i - 1);
      assert Searched(d, trace[i - 1], bounds[i - 1], trace[i - 1 + 1], bounds[i - 1 + 1]);
      SearchKeepsInv(d, trace[i - 1], bounds[i - 1], trace[i], bounds[i]);
    }
  }

  // ---------- the end of a run ----------

  /** The heuristic never overestimates. */
  ghost predicate Admissible(d: Domain) {
    forall r: Walk :: r.In(d.adj) && r.End() in d.goals ==> d.h(r.Start()) <= r.Cost()
  }

  /** No open state is worth expanding. */
  ghost predicate Worthless(d: Domain, blocks: seq<Lists>, b: Option<nat>) {
    forall c, v :: 0 <= c < |blocks| && v in blocks[c].open && v in blocks[c].closed ==>
      !Beats(blocks[c].closed[v] + d.h(v), b)
  }

  /** v is known at no more than cost, and expanded at what it is known at. */
  ghost predicate KnownAt(d: Domain, blocks: seq<Lists>, b: Option<nat>, v: nat, cost: nat) {
    var c := d.project(v);
    && c < |blocks| && v in blocks[c].closed && blocks[c].closed[v] <= cost
    && Settled(d, blocks, b, Visit(v, blocks[c].closed[v])) && v !in d.goals
  }

  /** A known state that would beat the bound is not open, hence settled. */
  lemma CheapIsSettled(d: Domain, blocks: seq<Lists>, b: Option<nat>, v: nat, cost: nat, rest: nat)
    requires Complete(d, blocks, b) && Worthless(d, blocks, b)
    requires d.project(v) < |blocks| && v in blocks[d.project(v)].closed && blocks[d.project(v)].closed[v] <= cost
    requires d.h(v) <= rest && Beats(cost + rest, b)
    ensures KnownAt(d, blocks, b, v, cost)
  {
    assert Beats(blocks[d.project(v)].closed[v] + d.h(v), b);
  }

  /** So its children are known too. */
  lemma ChildIsSettled(d: Domain, blocks: seq<Lists>, b: Option<nat>, v: nat, e: Edge, cost: nat, rest: nat)
    requires Complete(d, blocks, b) && Worthless(d, blocks, b) && KnownAt(d, blocks, b, v, cost)
    requires v < |d.adj| && e in d.adj[v] && d.h(v) <= e.weight + rest && d.h(e.target) <= rest
    requires Beats(cost + e.weight + rest, b)
    ensures KnownAt(d, blocks, b, e.target, cost + e.weight)
  {
    var i :| 0 <= i < |d.adj[v]| && d.adj[v][i] == e;
    var g := blocks[d.project(v)].closed[v];
    assert Beats(g + d.h(v), b) && Handled(d, blocks, b, g, d.adj[v][i]);
    assert Beats(g + e.weight + d.h(e.target), b);
    CheapIsSettled(d, blocks, b, e.target, cost + e.weight, rest);
  }

  /** Along any path to a goal that would beat the bound, every state is known at no
      more than its cost there, and no goal. */
  lemma {:induction false} WalkIsKnown(d: Domain, blocks: seq<Lists>, b: Option<nat>, q: Walk, tail: Walk)
    requires ValidGraph(d.adj) && Admissible(d) && RunInv(d, blocks, b) && Worthless(d, blocks, b)
    requires q.In(d.adj) && q.Start() == d.init
    requires tail.In(d.adj) && tail.Start() == q.End() && tail.End() in d.goals && Beats(q.Cost() + tail.Cost(), b)
    ensures KnownAt(d, blocks, b, q.End(), q.Cost())
  {
    match q
    case Here(v) =>
      CheapIsSettled(d, blocks, b, v, 0, tail.Cost());
    case Then(p, e) =>
      var hop := Then(Here(p.End()), e);
      WalkStaysInside(d.adj, p);
      assert hop.In(d.adj);
      JoinIsAWalk(d.adj, hop, tail);
      hide ValidGraph, KnownAt, Complete, Worthless, GoalCost;
      WalkIsKnown(d, blocks, b, p, Join(hop, tail));
      assert d.h(p.End()) <= e.weight + tail.Cost();
      ChildIsSettled(d, blocks, b, p.End(), e, p.Cost(), tail.Cost());
  }

  /** The bound is the cost of a cheapest path to a goal; without a bound there is none. */
  ghost predicate IsOptimal(d: Domain, b: Option<nat>) {
    && (b.Some? ==> GoalCost(d, b.value))
    && forall g :: GoalCost(d, g) ==> b.Some? && b.value <= g
  }

  lemma InvIsOptimal(d: Domain, blocks: seq<Lists>, b: Option<nat>)
    requires Sound(d) && Admissible(d) && RunInv(d, blocks, b) && Worthless(d, blocks, b)
    ensures IsOptimal(d, b)
  {
    forall g | GoalCost(d, g) ensures b.Some? && b.value <= g {
      var v :| v in d.goals && Achieved(d.adj, d.init, v, g);
      var q: Walk :| Connects(d.adj, q, d.init, v) && q.Cost() == g;
      if Beats(g, b) {
        WalkStaysInside(d.adj, q);
        WalkIsKnown(d, blocks, b, q, Here(v));
      }
    }
  }

  /** Main theorem: when blocks have been searched in any order until no open state is
      worth expanding, the bound is the cost of a cheapest path to a goal, and infinite
      exactly if no goal can be reached. */
  lemma FinalBoundIsOptimal(d: Domain, trace: seq<seq<Lists>>, bounds: seq<Option<nat>>, i: nat)
    requires Sound(d) && Admissible(d) && Run(d, trace, bounds) && i < |trace|
    requires Worthless(d, trace[i], bounds[i])
    ensures IsOptimal(d, bounds[i])
  {
    RunKeepsInv(d, trace, bounds, i);
    InvIsOptimal(d, trace[i], bounds[i]);
  }

  /** What the scheduler guarantees when it stops is what the theorem needs, if the
      open lists are ordered by f and blocks are pruned by it. */
  lemma FinishedIsWorthless(d: Domain, blocks: seq<Lists>, b: Option<nat>, k: S.Setup, v: S.View)
    requires |blocks| == |k.scope| && S.Sizes(|k.scope|, v) && S.Finished(k, v)
    requires forall c :: 0 <= c < |blocks| ==> IsBest(d, blocks[c], v.best[c])
    requires forall x: nat, g: nat :: d.fPrime(x, g) == g + d.h(x)
    requires forall f, bound :: k.prunes(f, bound) ==> f >= bound
    requires NoGreater(b, Some(v.bound))
    ensures Worthless(d, blocks, b)
  {
    forall c, x | 0 <= c < |blocks| && x in blocks[c].open && x in blocks[c].closed
      ensures !Beats(blocks[c].closed[x] + d.h(x), b)
    {
      assert IsBest(d, blocks[c], v.best[c]) && S.NotWorthIt(k, v, c);
    }
  }

  // ---------- why the order of children matters ----------

  /** A goal, 1, at cost 10 from the initial state, and at cost 2 by way of 2. */
  function TwoWays(): Domain {
    Domain([[Edge(1, 10), Edge(2, 1)], [], [Edge(1, 1)]], 0, {1}, _ => 0, (_, g) => g, _ => 0, Projection([[]], [[]]))
  }

  lemma TwoWaysIsSound()
    ensures Sound(TwoWays()) && Admissible(TwoWays())
  {
  }

  lemma TwoWaysIsCheap()
    ensures GoalCost(TwoWays(), 2)
  {
    var d := TwoWays();
    var q := Then(Then(Here(0), Edge(2, 1)), Edge(1, 1));
    assert d.adj[0][1] == Edge(2, 1) && d.adj[2][0] == Edge(1, 1);
    assert Then(Here(0), Edge(2, 1)).In(d.adj);
    assert Connects(d.adj, q, 0, 1) && q.Cost() == 2;
    assert Achieved(d.adj, 0, 1, 2);
  }

  lemma TwoWaysIsUnordered()
    ensures !GoalsComeLast(TwoWays())
  {
    var d := TwoWays();
    assert d.adj[0][0].target in d.goals && d.adj[0][0].weight > d.adj[0][1].weight + d.h(d.adj[0][1].target);
  }

  /** The search stops at the first goal child and drops the sibling after it, over which
      a cheaper path leads to the same goal. */
  lemma DroppedSiblingIsMissed() returns (d: Domain, was: seq<Lists>, now: seq<Lists>)
    ensures Sound(d) && Admissible(d) && !GoalsComeLast(d) && Initial(d, was) && |was| == 1
    ensures d.init == 0 && d.adj == [[Edge(1, 10), Edge(2, 1)], [], [Edge(1, 1)]]
    ensures NewGoal(d, TakenFrom(was, 0, 0), now, 0, d.adj[0][0])
    ensures Worthless(d, now, Some(10)) && !IsOptimal(d, Some(10))
  {
    d := TwoWays();
    was := [Lists({0}, map[0 := 0])];
    now := [Lists({}, map[0 := 0, 1 := 10])];
    TwoWaysIsSound();
    TwoWaysIsCheap();
    TwoWaysIsUnordered();
    hide Sound, Admissible, GoalCost, GoalsComeLast;
    assert was[0].open - {0} == {};
    assert TakenFrom(was, 0, 0) == [Lists({}, map[0 := 0])];
  }
}
