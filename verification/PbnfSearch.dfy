/** How a PBNF worker searches a block: which open and closed lists it reads and
    writes, and what it may report as a solution. */
module PbnfSearch {
  import opened Graphs
  import opened NBlocks
  import S = NBlockScheduler

  /** `fPrime` orders the open lists; `project` gives the block of a state. */
  datatype Domain = Domain(adj: Adjacency, init: nat, goals: set<nat>, h: nat -> nat, fPrime: (nat, nat) -> nat,
                           project: nat -> nat, p: Projection)

  /** Every child of a state lies in its block or in a successor of it. */
  ghost predicate Sound(d: Domain) {
    && ValidGraph(d.adj) && d.init < |d.adj| && WellFormed(d.p)
    && (forall v: nat :: v < |d.adj| ==> d.project(v) < |d.p.succs|)
    && forall v, e {:trigger Stays(d, v, e)} :: 0 <= v < |d.adj| && e in d.adj[v] ==> Stays(d, v, e)
  }

  ghost predicate Stays(d: Domain, v: nat, e: Edge)
    requires v < |d.adj| && ValidGraph(d.adj) && d.project(v) < |d.p.succs|
  {
    e.target < |d.adj| && S.Touches(d.p, d.project(v), d.project(e.target))
  }

  /** The states a block knows, with their g, and those of them that are open. */
  datatype Lists = Lists(open: set<nat>, closed: map<nat, nat>)

  ghost predicate BlockOk(d: Domain, c: nat, l: Lists) {
    && l.open <= l.closed.Keys
    && forall v :: v in l.closed ==>
         v < |d.adj| && d.project(v) == c && Achieved(d.adj, d.init, v, l.closed[v])
  }

  /** Nothing is forgotten, and no g grows. */
  ghost predicate NoWorse(was: Lists, l: Lists) {
    forall v :: v in was.closed ==> v in l.closed && l.closed[v] <= was.closed[v]
  }

  ghost predicate Kept(d: Domain, n: nat, was: seq<Lists>, now: seq<Lists>)
    requires n < |d.p.succs|
  {
    && |now| == |was| == |d.p.succs|
    && (forall c :: 0 <= c < |was| && !S.Touches(d.p, n, c) ==> now[c] == was[c])
    && forall c :: 0 <= c < |was| ==> NoWorse(was[c], now[c])
  }

  /** A bound of None is infinite. */
  predicate NoGreater(b: Option<nat>, c: Option<nat>) {
    c.None? || (b.Some? && b.value <= c.value)
  }

  predicate Beats(g: nat, bound: Option<nat>) {
    bound.None? || g < bound.value
  }

  /** v is unknown, or known at a higher cost. */
  predicate Improves(l: Lists, v: nat, g: nat) {
    v in l.closed ==> g < l.closed[v]
  }

  ghost predicate GoalCost(d: Domain, g: nat) {
    exists v :: v in d.goals && Achieved(d.adj, d.init, v, g)
  }

  ghost predicate AllOk(d: Domain, blocks: seq<Lists>) {
    |blocks| == |d.p.succs| && forall c :: 0 <= c < |blocks| ==> BlockOk(d, c, blocks[c])
  }

  lemma OneBlockChanges(d: Domain, n: nat, was: seq<Lists>, block: nat, l: Lists)
    requires n < |d.p.succs| && AllOk(d, was) && block < |was| && S.Touches(d.p, n, block)
    requires BlockOk(d, block, l) && NoWorse(was[block], l)
    ensures AllOk(d, was[block := l]) && Kept(d, n, was, was[block := l])
  {
  }

  lemma TakingIsAllowed(d: Domain, n: nat, was: seq<Lists>, l: Lists)
    requires n < |d.p.succs| && AllOk(d, was) && l.open <= was[n].open && l.closed == was[n].closed
    ensures AllOk(d, was[n := l]) && Kept(d, n, was, was[n := l])
  {
    OneBlockChanges(d, n, was, n, l);
  }

  lemma NothingChanges(d: Domain, n: nat, was: seq<Lists>)
    requires n < |d.p.succs| && |was| == |d.p.succs|
    ensures Kept(d, n, was, was)
  {
  }

  /** A cheaper way to v, which has the walk to show for it. */
  lemma LowerIsOk(d: Domain, block: nat, l: Lists, v: nat, g: nat, open: set<nat>)
    requires BlockOk(d, block, l) && v < |d.adj| && d.project(v) == block && Achieved(d.adj, d.init, v, g)
    requires v in l.closed ==> g <= l.closed[v]
    requires open <= l.open + {v}
    ensures BlockOk(d, block, Lists(open, l.closed[v := g])) && NoWorse(l, Lists(open, l.closed[v := g]))
  {
  }

  // ---------- what becomes of the open states ----------

  /** A child within the bound is known at no more than its g. */
  ghost predicate Handled(d: Domain, blocks: seq<Lists>, bound: Option<nat>, g: nat, e: Edge) {
    Beats(g + e.weight + d.h(e.target), bound) ==>
      && d.project(e.target) < |blocks| && e.target in blocks[d.project(e.target)].closed
      && blocks[d.project(e.target)].closed[e.target] <= g + e.weight
  }

  lemma StaysHandled(d: Domain, n: nat, was: seq<Lists>, above: Option<nat>, now: seq<Lists>, bound: Option<nat>,
                     g: nat, e: Edge)
    requires n < |d.p.succs| && Kept(d, n, was, now) && NoGreater(bound, above) && Handled(d, was, above, g, e)
    ensures Handled(d, now, bound, g, e)
  {
  }

  /** A state taken from an open list, with its g at that time. */
  datatype Visit = Visit(v: nat, g: nat)

  /** x need not be looked at again: it cannot beat the bound, or it is no goal and all
      its children have been handled. */
  ghost predicate Settled(d: Domain, blocks: seq<Lists>, bound: Option<nat>, x: Visit) {
    x.v < |d.adj| && (Beats(x.g + d.h(x.v), bound) ==>
      x.v !in d.goals && forall i :: 0 <= i < |d.adj[x.v]| ==> Handled(d, blocks, bound, x.g, d.adj[x.v][i]))
  }

  lemma StaysSettled(d: Domain, n: nat, was: seq<Lists>, above: Option<nat>, now: seq<Lists>, bound: Option<nat>,
                     x: Visit)
    requires n < |d.p.succs| && Kept(d, n, was, now) && NoGreater(bound, above) && Settled(d, was, above, x)
    ensures Settled(d, now, bound, x)
  {
    if Beats(x.g + d.h(x.v), bound) {
      forall i | 0 <= i < |d.adj[x.v]| ensures Handled(d, now, bound, x.g, d.adj[x.v][i]) {
        StaysHandled(d, n, was, above, now, bound, x.g, d.adj[x.v][i]);
      }
    }
  }

  /** A state is new, or known at a lower cost than before. */
  predicate Cheaper(was: Lists, now: Lists, v: nat) {
    v in now.closed && (v !in was.closed || now.closed[v] < was.closed[v])
  }

  /** The open states are those that were open, and those that are new or cheaper. */
  ghost predicate Opens(was: Lists, now: Lists) {
    forall v :: v in now.closed ==> (v in now.open <==> v in was.open || Cheaper(was, now, v))
  }

  ghost predicate AllOpen(was: seq<Lists>, now: seq<Lists>) {
    |was| == |now| && forall c :: 0 <= c < |was| ==> Opens(was[c], now[c])
  }

  lemma OpensOn(a: Lists, b: Lists, c: Lists)
    requires Opens(a, b) && Opens(b, c) && NoWorse(a, b) && NoWorse(b, c)
    ensures Opens(a, c)
  {
  }

  lemma AllOpenOn(d: Domain, n: nat, a: seq<Lists>, b: seq<Lists>, c: seq<Lists>)
    requires AllOpen(a, b) && AllOpen(b, c) && n < |d.p.succs| && Kept(d, n, a, b) && Kept(d, n, b, c)
    ensures AllOpen(a, c)
  {
    forall i | 0 <= i < |a| ensures Opens(a[i], c[i]) {
      OpensOn(a[i], b[i], c[i]);
    }
  }

  /** x.v was open at x.g in the beginning, or x.g is better than what was known. */
  predicate Due(l: Lists, x: Visit) {
    x.v in l.closed ==> x.g < l.closed[x.v] || (x.v in l.open && x.g == l.closed[x.v])
  }

  /** x.v is no longer open, or only because it has become cheaper since. */
  predicate Over(l: Lists, x: Visit) {
    x.v in l.closed && l.closed[x.v] <= x.g && (x.v in l.open ==> l.closed[x.v] < x.g)
  }

  /** A state that comes up again has become cheaper. */
  predicate Falling(taken: seq<Visit>) {
    forall i, j :: 0 <= i < j < |taken| && taken[i].v == taken[j].v ==> taken[j].g < taken[i].g
  }

  /** In the block that is searched, a state known at a cost at which it was not known
      or open before is open, or has been taken at that cost. */
  ghost predicate Served(was: Lists, now: Lists, taken: seq<Visit>) {
    forall v :: v in now.closed ==>
      && (v in now.open ==> v in was.open || Cheaper(was, now, v))
      && (v in now.open || Visit(v, now.closed[v]) in taken || (v !in was.open && !Cheaper(was, now, v)))
  }

  /** What a search of block n has done when it has taken and settled these states. */
  ghost predicate Worked(d: Domain, n: nat, was: seq<Lists>, now: seq<Lists>, bound: Option<nat>, taken: seq<Visit>) {
    && n < |was| == |now| && Falling(taken) && Served(was[n], now[n], taken)
    && (forall c :: 0 <= c < |was| && c != n ==> Opens(was[c], now[c]))
    && forall i :: 0 <= i < |taken| ==>
         Due(was[n], taken[i]) && Over(now[n], taken[i]) && Settled(d, now, bound, taken[i])
  }

  /** Block n after v has been taken from its open list. */
  function TakenFrom(blocks: seq<Lists>, n: nat, v: nat): seq<Lists>
    requires n < |blocks|
  {
    blocks[n := blocks[n].(open := blocks[n].open - {v})]
  }

  lemma OverStays(was: Lists, now: Lists, x: Visit)
    requires Over(was, x) && NoWorse(was, now) && Opens(was, now)
    ensures Over(now, x)
  {
  }

  lemma ServedOn(was: Lists, mid: Lists, now: Lists, taken: seq<Visit>, x: Visit)
    requires Served(was, mid, taken) && NoWorse(was, mid)
    requires x.v in mid.open && x.v in mid.closed && x.g == mid.closed[x.v]
    requires Opens(mid.(open := mid.open - {x.v}), now) && NoWorse(mid, now)
    ensures Served(was, now, taken + [x])
  {
    assert x in taken + [x] && forall y :: y in taken ==> y in taken + [x];
  }

  /** One more state has been taken and settled. */
  lemma WorkedOn(d: Domain, n: nat, was: seq<Lists>, mid: seq<Lists>, now: seq<Lists>,
                 above: Option<nat>, bound: Option<nat>, taken: seq<Visit>, x: Visit)
    requires n < |d.p.succs| && Kept(d, n, was, mid) && Worked(d, n, was, mid, above, taken)
    requires x.v in mid[n].open && x.v in mid[n].closed && x.g == mid[n].closed[x.v]
    requires Kept(d, n, TakenFrom(mid, n, x.v), now) && AllOpen(TakenFrom(mid, n, x.v), now)
    requires NoGreater(bound, above) && Settled(d, now, bound, x)
    ensures Worked(d, n, was, now, bound, taken + [x])
  {
    hide Settled;
    var took := TakenFrom(mid, n, x.v);
    assert Kept(d, n, mid, now);
    ServedOn(was[n], mid[n], now[n], taken, x);
    forall c | 0 <= c < |was| && c != n ensures Opens(was[c], now[c]) {
      assert took[c] == mid[c];
      OpensOn(was[c], mid[c], now[c]);
    }
    forall i | 0 <= i < |taken| ensures Over(now[n], taken[i]) && Settled(d, now, bound, taken[i]) {
      assert Over(took[n], taken[i]);
      OverStays(took[n], now[n], taken[i]);
      StaysSettled(d, n, mid, above, now, bound, taken[i]);
    }
    assert Over(took[n], x);
    OverStays(took[n], now[n], x);
  }

  // ---------- a goal among the children ----------

  predicate Least(a: Option<nat>, b: Option<nat>, m: Option<nat>) {
    NoGreater(m, a) && NoGreater(m, b) && (m == a || m == b)
  }

  /** The bound once the report has been published. */
  function Capped(bound: Option<nat>, found: Option<nat>): (b: Option<nat>)
    ensures Least(bound, found, b)
  {
    if NoGreater(bound, found) then bound else found
  }

  /** No child listed after a goal child promises less than that costs. */
  ghost predicate GoalsComeLast(d: Domain) {
    forall v, i, j :: 0 <= v < |d.adj| && 0 <= i < j < |d.adj[v]| && d.adj[v][i].target in d.goals ==>
      d.adj[v][i].weight <= d.adj[v][j].weight + d.h(d.adj[v][j].target)
  }

  /** The lists with t open. */
  function Opened(d: Domain, blocks: seq<Lists>, t: nat): seq<Lists>
    requires d.project(t) < |blocks|
  {
    blocks[d.project(t) := blocks[d.project(t)].(open := blocks[d.project(t)].open + {t})]
  }

  /** t is known but not open, and of no use any more at the bound b. */
  ghost predicate Reported(d: Domain, blocks: seq<Lists>, b: Option<nat>, t: nat) {
    && t < |d.adj| && d.project(t) < |blocks| && t in blocks[d.project(t)].closed
    && !Beats(blocks[d.project(t)].closed[t] + d.h(t), b)
  }

  /** e leads to a goal that was unknown; now it is closed, and nothing else has changed. */
  ghost predicate NewGoal(d: Domain, was: seq<Lists>, now: seq<Lists>, g: nat, e: Edge) {
    var c := d.project(e.target);
    && c < |was| == |now| && e.target in d.goals && e.target !in was[c].closed
    && now == was[c := Lists(was[c].open, was[c].closed[e.target := g + e.weight])]
  }

  /** The i-th child of v was a new goal: the children before it have been handled, and
      it is closed without having been opened. */
  ghost predicate GoalAt(d: Domain, was: seq<Lists>, now: seq<Lists>, bound: Option<nat>, v: nat, g: nat, i: nat) {
    && v < |d.adj| && i < |d.adj[v]| && d.adj[v][i].target in d.goals
    && var e := d.adj[v][i];
    && var c := d.project(e.target);
    && c < |now| && e.target in now[c].closed && now[c].closed[e.target] == g + e.weight
    && (forall j :: 0 <= j < i ==> Handled(d, now, bound, g, d.adj[v][j]))
    && AllOpen(was, Opened(d, now, e.target))
  }

  lemma GoalIsReported(d: Domain, was: seq<Lists>, now: seq<Lists>, bound: Option<nat>, b: Option<nat>,
                       v: nat, g: nat, i: nat)
    requires Sound(d) && GoalAt(d, was, now, bound, v, g, i) && Least(bound, Some(g + d.adj[v][i].weight), b)
    ensures Reported(d, now, b, d.adj[v][i].target)
  {
    assert Stays(d, v, d.adj[v][i]);
  }

  /** The children dropped after a goal child are no loss if they promise no less. */
  lemma GoalSettles(d: Domain, was: seq<Lists>, now: seq<Lists>, bound: Option<nat>, b: Option<nat>,
                    v: nat, g: nat, i: nat)
    requires GoalsComeLast(d) && v !in d.goals && GoalAt(d, was, now, bound, v, g, i)
    requires Least(bound, Some(g + d.adj[v][i].weight), b)
    ensures Settled(d, Opened(d, now, d.adj[v][i].target), b, Visit(v, g))
  {
    forall j | 0 <= j < |d.adj[v]| ensures Handled(d, Opened(d, now, d.adj[v][i].target), b, g, d.adj[v][j]) {
      if j < i { assert Handled(d, now, bound, g, d.adj[v][j]); }
    }
  }

  /** What the search of block n amounts to when the bound ends up at b: a new goal that
      has been reported instead of opened counts as open. */
  ghost predicate Done(d: Domain, n: nat, was: seq<Lists>, now: seq<Lists>, b: Option<nat>, taken: seq<Visit>) {
    || Worked(d, n, was, now, b, taken)
    || exists t :: && Reported(d, now, b, t) && n < |d.p.succs| && Kept(d, n, was, Opened(d, now, t))
                   && Worked(d, n, was, Opened(d, now, t), b, taken)
  }

  /** The search ends with a goal that was open. */
  lemma OpenGoalIsDone(d: Domain, n: nat, was: seq<Lists>, mid: seq<Lists>, above: Option<nat>, bound: Option<nat>,
                       taken: seq<Visit>, x: Visit)
    requires n < |d.p.succs| && Kept(d, n, was, mid) && Worked(d, n, was, mid, above, taken) && x.v < |d.adj|
    requires x.v in mid[n].open && x.v in mid[n].closed && x.g == mid[n].closed[x.v]
    requires Kept(d, n, mid, TakenFrom(mid, n, x.v)) && NoGreater(bound, above)
    ensures Done(d, n, was, TakenFrom(mid, n, x.v), Capped(bound, Some(x.g)), taken + [x])
  {
    var b := Capped(bound, Some(x.g));
    var took := TakenFrom(mid, n, x.v);
    hide Worked, Kept, AllOpen;
    IsSettled(d, took, b, x);
    NothingOpens(took);
    KeptLength(d, n, mid, took);
    NothingChanges(d, n, took);
    WorkedOn(d, n, was, mid, took, above, b, taken, x);
  }

  lemma KeptLength(d: Domain, n: nat, was: seq<Lists>, now: seq<Lists>)
    requires n < |d.p.succs| && Kept(d, n, was, now)
    ensures |was| == |now| == |d.p.succs|
  {
  }

  /** Opening one more known state. */
  lemma OpeningIsAllowed(d: Domain, n: nat, was: seq<Lists>, now: seq<Lists>, t: nat)
    requires n < |d.p.succs| && Kept(d, n, was, now) && d.project(t) < |now| && S.Touches(d.p, n, d.project(t))
    ensures Kept(d, n, was, Opened(d, now, t))
  {
  }

  /** The search ends with a goal among the children of x.v. */
  lemma ChildGoalIsDone(d: Domain, n: nat, was: seq<Lists>, mid: seq<Lists>, now: seq<Lists>,
                        above: Option<nat>, bound: Option<nat>, taken: seq<Visit>, x: Visit, i: nat)
    requires Sound(d) && GoalsComeLast(d) && n < |d.p.succs| && Kept(d, n, was, mid)
    requires Worked(d, n, was, mid, above, taken) && NoGreater(bound, above)
    requires x.v in mid[n].open && x.v in mid[n].closed && x.g == mid[n].closed[x.v]
    requires x.v < |d.adj| && x.v !in d.goals && d.project(x.v) == n
    requires Kept(d, n, TakenFrom(mid, n, x.v), now) && GoalAt(d, TakenFrom(mid, n, x.v), now, bound, x.v, x.g, i)
    ensures Done(d, n, was, now, Capped(bound, Some(x.g + d.adj[x.v][i].weight)), taken + [x])
  {
    var took := TakenFrom(mid, n, x.v);
    var e := d.adj[x.v][i];
    var b := Capped(bound, Some(x.g + e.weight));
    assert Stays(d, x.v, e);
    GoalIsReported(d, took, now, bound, b, x.v, x.g, i);
    GoalSettles(d, took, now, bound, b, x.v, x.g, i);
    OpeningIsAllowed(d, n, took, now, e.target);
    assert Kept(d, n, was, Opened(d, now, e.target)) by {
      assert Kept(d, n, mid, Opened(d, now, e.target));
      KeptOn(d, n, was, mid, Opened(d, now, e.target));
    }
    hide Worked, Kept, AllOpen, Settled, GoalsComeLast, Sound;
    WorkedOn(d, n, was, mid, Opened(d, now, e.target), above, b, taken, x);
  }

  /** The i-th child is closed and reported; every other list is as it should be. */
  lemma GoalIsAt(d: Domain, n: nat, was: seq<Lists>, mid: seq<Lists>, now: seq<Lists>, bound: Option<nat>,
                 v: nat, g: nat, i: nat)
    requires n < |d.p.succs| && Kept(d, n, was, mid) && Kept(d, n, mid, now) && AllOpen(was, mid)
    requires v < |d.adj| && i < |d.adj[v]| && NewGoal(d, mid, now, g, d.adj[v][i])
    requires forall j :: 0 <= j < i ==> Handled(d, now, bound, g, d.adj[v][j])
    ensures GoalAt(d, was, now, bound, v, g, i)
  {
    var t := d.adj[v][i].target;
    var shown := Opened(d, now, t);
    forall c | 0 <= c < |mid| ensures Opens(was[c], shown[c]) {
      assert Opens(was[c], mid[c]) && NoWorse(was[c], mid[c]);
      assert Opens(mid[c], shown[c]) && NoWorse(mid[c], shown[c]);
      OpensOn(was[c], mid[c], shown[c]);
    }
  }

  lemma NothingOpens(blocks: seq<Lists>)
    ensures AllOpen(blocks, blocks)
  {
  }

  lemma NothingDone(d: Domain, n: nat, blocks: seq<Lists>, bound: Option<nat>)
    requires n < |blocks|
    ensures Worked(d, n, blocks, blocks, bound, [])
  {
  }

  lemma IsSettled(d: Domain, blocks: seq<Lists>, bound: Option<nat>, x: Visit)
    requires x.v < |d.adj|
    requires Beats(x.g + d.h(x.v), bound) ==> x.v !in d.goals
    requires Beats(x.g + d.h(x.v), bound) ==>
               forall i :: 0 <= i < |d.adj[x.v]| ==> Handled(d, blocks, bound, x.g, d.adj[x.v][i])
    ensures Settled(d, blocks, bound, x)
  {
  }

  class Worker {
    const d: Domain
    var blocks: seq<Lists>
    var bound: Option<nat>

    ghost predicate Valid()
      reads this
    {
      Sound(d) && AllOk(d, blocks)
    }

    /** The initial state is open and closed in its block; all else is empty. */
    constructor (d: Domain)
      requires Sound(d)
      ensures Valid() && this.d == d && bound == None
    {
      this.d, bound := d, None;
      blocks := seq(|d.p.succs|, _ => Lists({}, map[]))[d.project(d.init) := Lists({d.init}, map[d.init := 0])];
      assert Connects(d.adj, Here(d.init), d.init, d.init) && Here(d.init).Cost() == 0;
    }

    /** Other workers may have lowered the bound since it was last read. */
    method ReadBound() returns (b: Option<nat>)
      modifies this`bound
      ensures b == bound && NoGreater(bound, old(bound))
    {
      assert NoGreater(bound, bound);
      b :| NoGreater(b, bound);
      bound := b;
    }

    /** The state of least f' in a block's open list. */
    method Take(n: nat) returns (v: nat)
      requires Valid() && n < |blocks| && blocks[n].open != {}
      modifies this`blocks
      ensures Valid() && v in old(blocks)[n].open && v in old(blocks)[n].closed
      ensures forall u :: u in old(blocks)[n].open && u in old(blocks)[n].closed ==>
                d.fPrime(v, old(blocks)[n].closed[v]) <= d.fPrime(u, old(blocks)[n].closed[u])
      ensures blocks == old(blocks)[n := old(blocks)[n].(open := old(blocks)[n].open - {v})]
    {
      var l := blocks[n];
      assert BlockOk(d, n, l);
      v :| v in l.open;
      var rest := l.open - {v};
      while rest != {}
        invariant v in l.open && rest <= l.open
        invariant forall u :: u in l.open - rest ==> d.fPrime(v, l.closed[v]) <= d.fPrime(u, l.closed[u])
        decreases |rest|
      {
        var u :| u in rest;
        if d.fPrime(u, l.closed[u]) < d.fPrime(v, l.closed[v]) { v := u; }
        rest := rest - {u};
      }
      blocks := blocks[n := l.(open := l.open - {v})];
    }

    /** One child of a state of block n: only the child's own block changes, and only
        if the child is new or cheaper and within the bound.  A new goal is reported
        and is not put into the open list. */
    method Generate(n: nat, v: nat, g: nat, e: Edge) returns (found: Option<nat>)
      requires Valid() && n < |blocks| && v < |d.adj| && d.project(v) == n && Achieved(d.adj, d.init, v, g)
      requires e in d.adj[v]
      modifies this`blocks, this`bound
      ensures Valid() && Kept(d, n, old(blocks), blocks) && NoGreater(bound, old(bound))
      ensures |blocks| == |old(blocks)| && d.project(e.target) < |blocks|
      ensures forall c :: 0 <= c < |blocks| && c != d.project(e.target) ==> blocks[c] == old(blocks)[c]
      ensures var was, l := old(blocks)[d.project(e.target)], blocks[d.project(e.target)];
              var cg := g + e.weight;
              if Beats(cg + d.h(e.target), bound) && Improves(was, e.target, cg)
              then
                && l.closed == was.closed[e.target := cg]
                && (if found.Some? then l.open == was.open else l.open == was.open + {e.target})
                && found == if e.target !in was.closed && e.target in d.goals then Some(cg) else None
              else l == was && found == None
      ensures found.Some? ==> GoalCost(d, found.value) && Beats(found.value, old(bound))
      ensures found.None? ==> AllOpen(old(blocks), blocks) && Handled(d, blocks, bound, g, e)
      ensures found.Some? ==> found == Some(g + e.weight) && NewGoal(d, old(blocks), blocks, g, e)
    {
      hide Kept, BlockOk, NoWorse, Achieved;
      found := None;
      assert Stays(d, v, e);
      AchievedOn(d.adj, d.init, v, g, e);
      var cg := g + e.weight;
      var b := ReadBound();
      NothingChanges(d, n, blocks);
      var block := d.project(e.target);
      if !Beats(cg + d.h(e.target), b) { return; }
      var l := blocks[block];
      if e.target in l.closed {
        if l.closed[e.target] > cg {
          LowerIsOk(d, block, l, e.target, cg, l.open + {e.target});
          OneBlockChanges(d, n, blocks, block, Lists(l.open + {e.target}, l.closed[e.target := cg]));
          blocks := blocks[block := Lists(l.open + {e.target}, l.closed[e.target := cg])];
        }
      } else {
        var closed := l.closed[e.target := cg];
        LowerIsOk(d, block, l, e.target, cg, l.open);
        OneBlockChanges(d, n, blocks, block, Lists(l.open, closed));
        LowerIsOk(d, block, l, e.target, cg, l.open + {e.target});
        OneBlockChanges(d, n, blocks, block, Lists(l.open + {e.target}, closed));
        if e.target in d.goals {
          blocks := blocks[block := Lists(l.open, closed)];
          return Some(cg);
        }
        blocks := blocks[block := Lists(l.open + {e.target}, closed)];
      }
    }

    /** search_nblock; `patience` is the number of turns before should_switch says so.
        The lists of blocks outside the scope of n are untouched, no state is
        forgotten, and what is reported is the cost of a real path to a goal, below
        the bound.  A search that reports nothing has used up its turns or the open
        list, each turn on another state or on one that has become cheaper, and has
        settled every state that is no longer open. */
    method SearchNBlock(n: nat, patience: nat) returns (found: Option<nat>, ghost taken: seq<Visit>)
      requires Valid() && n < |blocks|
      modifies this`blocks, this`bound
      ensures Valid() && Kept(d, n, old(blocks), blocks) && NoGreater(bound, old(bound))
      ensures found.Some? ==> GoalCost(d, found.value) && Beats(found.value, old(bound))
      ensures found.None? ==> Worked(d, n, old(blocks), blocks, bound, taken)
      ensures found.Some? && GoalsComeLast(d) ==> Done(d, n, old(blocks), blocks, Capped(bound, found), taken)
      ensures found.None? ==> |taken| == patience || (|taken| < patience && blocks[n].open == {})
    {
      hide Kept, NoWorse, Achieved, Worked, AllOpen, Settled, GoalAt, GoalsComeLast, Done;
      found, taken := None, [];
      var turns := patience;
      NothingChanges(d, n, blocks);
      NothingDone(d, n, blocks, bound);
      while blocks[n].open != {} && turns > 0
        invariant Valid() && Kept(d, n, old(blocks), blocks) && NoGreater(bound, old(bound)) && found.None?
        invariant |taken| + turns == patience && Worked(d, n, old(blocks), blocks, bound, taken)
        decreases turns
      {
        turns := turns - 1;
        ghost var was, above := blocks, bound;
        var v := Take(n);
        TakingIsAllowed(d, n, was, blocks[n]);
        KeptOn(d, n, old(blocks), was, blocks);
        ghost var took := blocks;
        var g := blocks[n].closed[v];
        ghost var x := Visit(v, g);
        assert BlockOk(d, n, blocks[n]);
        var b := ReadBound();
        if Beats(g + d.h(v), b) {
          if v in d.goals {
            OpenGoalIsDone(d, n, old(blocks), was, above, bound, taken, x);
            return Some(g), taken + [x];
          }
          found := ExpandAll(n, v, g);
          KeptOn(d, n, old(blocks), took, blocks);
          if found.Some? {
            if GoalsComeLast(d) {
              ghost var i :| 0 <= i < |d.adj[v]| && found == Some(g + d.adj[v][i].weight)
                             && GoalAt(d, took, blocks, bound, v, g, i);
              ChildGoalIsDone(d, n, old(blocks), was, blocks, above, bound, taken, x, i);
            }
            taken := taken + [x];
            return;
          }
          assert Settled(d, blocks, bound, x) by { IsSettled(d, blocks, bound, x); }
        } else {
          NothingChanges(d, n, blocks);
          NothingOpens(blocks);
          assert Settled(d, blocks, bound, x) by { IsSettled(d, blocks, bound, x); }
        }
        WorkedOn(d, n, old(blocks), was, blocks, above, bound, taken, x);
        taken := taken + [x];
      }
    }

    /** Either a child that is a new goal is reported, and the siblings after it are
        dropped, or every child within the bound is known at no more than its g. */
    method ExpandAll(n: nat, v: nat, g: nat) returns (found: Option<nat>)
      requires Valid() && n < |blocks| && v < |d.adj| && d.project(v) == n && Achieved(d.adj, d.init, v, g)
      modifies this`blocks, this`bound
      ensures Valid() && Kept(d, n, old(blocks), blocks) && NoGreater(bound, old(bound))
      ensures found.Some? ==> GoalCost(d, found.value) && Beats(found.value, old(bound))
      ensures found.None? ==> forall i :: 0 <= i < |d.adj[v]| ==> Handled(d, blocks, bound, g, d.adj[v][i])
      ensures found.None? ==> AllOpen(old(blocks), blocks)
      ensures found.Some? ==> exists i :: 0 <= i < |d.adj[v]| && found == Some(g + d.adj[v][i].weight)
                                          && GoalAt(d, old(blocks), blocks, bound, v, g, i)
    {
      hide Kept, BlockOk, NoWorse, Achieved, AllOpen, Handled, GoalAt, NewGoal, Sound;
      NothingChanges(d, n, blocks);
      NothingOpens(blocks);
      found := None;
      var i := 0;
      while i < |d.adj[v]|
        invariant 0 <= i <= |d.adj[v]| && Valid() && Kept(d, n, old(blocks), blocks)
        invariant NoGreater(bound, old(bound)) && found.None? && AllOpen(old(blocks), blocks)
        invariant forall j :: 0 <= j < i ==> Handled(d, blocks, bound, g, d.adj[v][j])
      {
        ghost var was, above := blocks, bound;
        found := Generate(n, v, g, d.adj[v][i]);
        KeptOn(d, n, old(blocks), was, blocks);
        forall j | 0 <= j < i ensures Handled(d, blocks, bound, g, d.adj[v][j]) {
          StaysHandled(d, n, was, above, blocks, bound, g, d.adj[v][j]);
        }
        if found.Some? {
          GoalIsAt(d, n, old(blocks), was, blocks, bound, v, g, i);
          return;
        }
        AllOpenOn(d, n, old(blocks), was, blocks);
        i := i + 1;
      }
    }
  }

  lemma KeptOn(d: Domain, n: nat, a: seq<Lists>, b: seq<Lists>, c: seq<Lists>)
    requires n < |d.p.succs| && Kept(d, n, a, b) && Kept(d, n, b, c)
    ensures Kept(d, n, a, c)
  {
    forall i | 0 <= i < |a| ensures NoWorse(a[i], c[i]) {
      assert NoWorse(a[i], b[i]) && NoWorse(b[i], c[i]);
    }
  }

  // ---------- what the scheduler sees of it ----------

  /** best is the least f' of the open list, None if that is empty. */
  ghost predicate IsBest(d: Domain, l: Lists, best: Option<nat>) {
    match best
    case None => l.open == {}
    case Some(f) =>
      && (exists v :: v in l.open && v in l.closed && d.fPrime(v, l.closed[v]) == f)
      && forall v :: v in l.open && v in l.closed ==> f <= d.fPrime(v, l.closed[v])
  }

  /** A search is a step the scheduler allows its holder: the best values of blocks
      outside the scope stay what they were. */
  lemma SearchIsAllowed(d: Domain, n: nat, was: seq<Lists>, now: seq<Lists>, k: S.Setup, v: S.View,
      best: seq<Option<nat>>)
    requires n < |d.p.succs| && Kept(d, n, was, now) && k.p == d.p
    requires |v.best| == |best| == |was|
    requires forall c :: 0 <= c < |was| ==> was[c].open <= was[c].closed.Keys && IsBest(d, was[c], v.best[c])
    requires forall c :: 0 <= c < |was| ==> now[c].open <= now[c].closed.Keys && IsBest(d, now[c], best[c])
    ensures S.Searches(k, v, v.(best := best), n)
  {
    forall c | 0 <= c < |was| && !S.Touches(k.p, n, c) ensures best[c] == v.best[c] {
      assert now[c] == was[c];
      BestIsUnique(d, was[c], v.best[c], best[c]);
    }
  }

  lemma BestIsUnique(d: Domain, l: Lists, a: Option<nat>, b: Option<nat>)
    requires IsBest(d, l, a) && IsBest(d, l, b)
    ensures a == b
  {
    if a.Some? && b.Some? {
      var v :| v in l.open && v in l.closed && d.fPrime(v, l.closed[v]) == a.value;
      var u :| u in l.open && u in l.closed && d.fPrime(u, l.closed[u]) == b.value;
    }
  }
}
