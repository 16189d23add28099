/** Optimality of HDA*: whatever the interleaving and however long messages are
    buffered, no part of an optimal path is ever lost. */
module HdaOptimality {
  import opened Graphs
  import opened HdaModel
  import opened HdaTermination

  // ---------- every cost is the cost of a real walk ----------

  ghost predicate Real(pb: Problem, n: Node) {
    n.v < |pb.adj| && Achieved(pb.adj, pb.init, n.v, n.g)
  }

  ghost predicate GoalCost(pb: Problem, c: nat) {
    exists q: Walk :: q.In(pb.adj) && q.Start() == pb.init && pb.goal(q.End()) && q.Cost() == c
  }

  /** A state that belongs to thread d. */
  ghost predicate Belongs(pb: Problem, n: Node, d: nat) {
    Real(pb, n) && pb.owner(n.v) == d
  }

  ghost predicate AtMost(b: Option<nat>, c: nat) {
    b.Some? && b.value <= c
  }

  ghost predicate HandOk(pb: Problem, pc: Pc, t: nat, bound: Option<nat>, best: Option<nat>) {
    && (Busy(pc) ==> Belongs(pb, pc.node, t))
    && (pc.Expanding? ==> pc.next <= |pb.adj[pc.node.v]|)
    && (pc.Recorded? ==> pb.goal(pc.node.v) && AtMost(best, pc.node.g))
    && (pc.Publishing? ==> pb.goal(pc.node.v) && pc.b <= pc.node.g && GoalCost(pb, pc.b))
  }

  ghost predicate StoreOk(pb: Problem, th: Thread, t: nat) {
    && (forall v :: v in th.closed ==> Belongs(pb, Node(v, th.closed[v]), t))
    && th.open <= th.closed.Keys
    && (forall n :: n in th.q ==> Belongs(pb, n, t))
    && (forall d, n :: 0 <= d < |th.out| && n in th.out[d] ==> Belongs(pb, n, d))
  }

  ghost predicate SoundInv(pb: Problem, s: View) {
    && |s.threads| == pb.threads
    && (forall t :: 0 <= t < pb.threads ==>
          StoreOk(pb, s.threads[t], t) && HandOk(pb, s.threads[t].pc, t, s.bound, s.best)
          && (s.threads[t].rootOpen ==> t == pb.owner(pb.init)))
    && (s.bound.Some? ==> GoalCost(pb, s.bound.value))
    && (s.best.Some? ==> GoalCost(pb, s.best.value))
  }

  // ---------- nothing cheap is lost ----------

  ghost predicate InClosed(th: Thread, n: Node) {
    n.v in th.closed && th.closed[n.v] <= n.g
  }

  ghost predicate InSeq(ns: seq<Node>, n: Node) {
    exists i :: 0 <= i < |ns| && ns[i].v == n.v && ns[i].g <= n.g
  }

  ghost predicate InBuffers(s: View, d: nat, n: Node) {
    exists t :: 0 <= t < |s.threads| && d < |s.threads[t].out| && InSeq(s.threads[t].out[d], n)
  }

  /** n, or a cheaper copy of it, is in its owner's closed list, on its way there,
      or cannot beat the bound. */
  ghost predicate Covered(pb: Problem, s: View, n: Node) {
    var d := pb.owner(n.v);
    || TooCostly(pb, s.bound, n)
    || (d < |s.threads| && (InClosed(s.threads[d], n) || InSeq(s.threads[d].q, n)))
    || InBuffers(s, d, n)
  }

  /** The first i children of n are covered, and if n is a goal its cost is published. */
  ghost predicate Expanded(pb: Problem, s: View, n: Node, i: nat) {
    && n.v < |pb.adj| && i <= |pb.adj[n.v]|
    && (pb.goal(n.v) ==> AtMost(s.bound, n.g))
    && forall j :: 0 <= j < i ==> Covered(pb, s, Child(pb, n, j))
  }

  ghost predicate InHand(pb: Problem, s: View, pc: Pc, n: Node) {
    Busy(pc) && pc.node.v == n.v && pc.node.g <= n.g && (pc.Expanding? ==> Expanded(pb, s, pc.node, pc.next))
  }

  ghost predicate Handled(pb: Problem, s: View, pc: Pc, n: Node) {
    || TooCostly(pb, s.bound, n)
    || (n.v < |pb.adj| && Expanded(pb, s, n, |pb.adj[n.v]|))
    || InHand(pb, s, pc, n)
  }

  ghost predicate DutiesOk(pb: Problem, s: View, th: Thread, pc: Pc) {
    forall v :: v in th.closed ==> v in th.open || Handled(pb, s, pc, Node(v, th.closed[v]))
  }

  ghost predicate DutyInv(pb: Problem, s: View) {
    && |s.threads| == pb.threads && pb.owner(pb.init) < pb.threads
    && (forall t :: 0 <= t < pb.threads ==> DutiesOk(pb, s, s.threads[t], s.threads[t].pc))
    && (var o := s.threads[pb.owner(pb.init)]; o.rootOpen || Handled(pb, s, o.pc, Node(pb.init, 0)))
  }

  ghost predicate OptInv(pb: Problem, s: View) {
    TermInv(pb, s) && SoundInv(pb, s) && DutyInv(pb, s)
  }

  // ---------- the end of a run ----------

  /** Along any walk that would beat the bound, a finished search has a state at
      least as cheap, closed and fully expanded. */
  lemma {:induction false} WalkIsExpanded(pb: Problem, s: View, q: Walk, rest: nat) returns (n: Node)
    requires WellPosed(pb) && OptInv(pb, s) && IsComplete(pb, s)
    requires q.In(pb.adj) && q.Start() == pb.init
    requires pb.h(q.End()) <= rest && (s.bound.Some? ==> q.Cost() + rest < s.bound.value)
    requires HeuristicAlong(pb, q, rest)
    ensures n.v == q.End() && n.g <= q.Cost() && n.v < |pb.adj|
    ensures Expanded(pb, s, n, |pb.adj[n.v]|)
  {
    CompleteIsQuiet(pb, s);
    match q
    case Here(v) =>
      n := Node(v, 0);
    case Then(p, e) =>
      var m := WalkIsExpanded(pb, s, p, rest + e.weight);
      var j :| 0 <= j < |pb.adj[m.v]| && pb.adj[m.v][j] == e;
      var c := Child(pb, m, j);
      assert Covered(pb, s, c);
      assert !TooCostly(pb, s.bound, c);
      CoveredAtRest(pb, s, c);
      var d := pb.owner(c.v);
      n := Node(c.v, s.threads[d].closed[c.v]);
      assert DutiesOk(pb, s, s.threads[d], s.threads[d].pc);
      assert StoreOk(pb, s.threads[d], d);
  }

  /** `rest` plus the cost from a vertex of q to its end bounds the heuristic there. */
  ghost predicate HeuristicAlong(pb: Problem, q: Walk, rest: nat) {
    pb.h(q.End()) <= rest
    && match q case Here(_) => true case Then(p, e) => HeuristicAlong(pb, p, rest + e.weight)
  }

  lemma CoveredAtRest(pb: Problem, s: View, n: Node)
    requires WellPosed(pb) && NothingPending(pb, s) && Covered(pb, s, n) && !TooCostly(pb, s.bound, n)
    ensures pb.owner(n.v) < |s.threads| && InClosed(s.threads[pb.owner(n.v)], n)
  {
    var d := pb.owner(n.v);
    assert s.threads[d].q == [];
    forall t | 0 <= t < |s.threads| && d < |s.threads[t].out| ensures !InSeq(s.threads[t].out[d], n) {
      assert Quiet(s.threads[t]) && s.threads[t].out[d] == [];
    }
  }

  lemma {:induction false} AdmissibleAlong(pb: Problem, q: Walk, tail: Walk)
    requires WellPosed(pb) && q.In(pb.adj) && tail.In(pb.adj) && tail.Start() == q.End() && pb.goal(tail.End())
    ensures HeuristicAlong(pb, q, tail.Cost())
  {
    match q
    case Here(_) =>
    case Then(p, e) =>
      var hop := Then(Here(p.End()), e);
      WalkStaysInside(pb.adj, p);
      assert hop.In(pb.adj);
      JoinIsAWalk(pb.adj, hop, tail);
      AdmissibleAlong(pb, p, Join(hop, tail));
  }

  /** The bound is the cost of a walk to a goal and no walk to a goal is cheaper;
      without a bound, no goal can be reached at all. */
  ghost predicate BoundIsOptimal(pb: Problem, bound: Option<nat>) {
    && (bound.Some? ==> GoalCost(pb, bound.value))
    && forall c :: GoalCost(pb, c) ==> bound.Some? && bound.value <= c
  }

  lemma CompleteIsOptimal(pb: Problem, s: View)
    requires WellPosed(pb) && OptInv(pb, s) && IsComplete(pb, s)
    ensures BoundIsOptimal(pb, s.bound)
  {
    forall c | GoalCost(pb, c) ensures s.bound.Some? && s.bound.value <= c {
      var q: Walk :| q.In(pb.adj) && q.Start() == pb.init && pb.goal(q.End()) && q.Cost() == c;
      if !(s.bound.Some? && s.bound.value <= c) {
        WalkStaysInside(pb.adj, q);
        AdmissibleAlong(pb, q, Here(q.End()));
        var n := WalkIsExpanded(pb, s, q, 0);
      }
    }
  }

  // ---------- soundness is preserved ----------

  /** What duplicate detection does to the closed and open lists: a state that is known
      already is opened again only if it has become cheaper. */
  ghost predicate Merged(th: Thread, r: Thread, ns: seq<Node>) {
    && th.open <= r.open <= r.closed.Keys
    && (forall v :: v in th.closed ==> v in r.closed && r.closed[v] <= th.closed[v])
    && (forall v :: v in r.closed ==> v in r.open || (v in th.closed && r.closed[v] == th.closed[v]))
    && (forall v :: v in r.open ==> v in th.open || v !in th.closed || r.closed[v] < th.closed[v])
    && (forall v :: v in r.closed ==> (v in th.closed && r.closed[v] == th.closed[v]) || Node(v, r.closed[v]) in ns)
  }

  lemma AcceptMerges(th: Thread, r: Thread, ns: seq<Node>, n: Node)
    requires Merged(th, r, ns)
    ensures Merged(th, Accept(r, n), ns + [n]) && InClosed(Accept(r, n), n)
    ensures forall m :: InClosed(r, m) ==> InClosed(Accept(r, n), m)
  {
  }

  lemma MergedMore(th: Thread, r: Thread, ns: seq<Node>, n: Node)
    requires Merged(th, r, ns)
    ensures Merged(th, r, ns + [n])
  {
  }

  lemma {:induction false} AbsorbMerges(th: Thread, ns: seq<Node>, keep: seq<bool>)
    requires |keep| == |ns| && th.open <= th.closed.Keys
    ensures Merged(th, Absorb(th, ns, keep), ns)
    ensures forall i :: 0 <= i < |ns| && keep[i] ==> InClosed(Absorb(th, ns, keep), ns[i])
  {
    if ns != [] {
      var l := |ns| - 1;
      AbsorbMerges(th, ns[..l], keep[..l]);
      assert ns == ns[..l] + [ns[l]];
      var r := Absorb(th, ns[..l], keep[..l]);
      AcceptMerges(th, r, ns[..l], ns[l]);
      MergedMore(th, r, ns[..l], ns[l]);
      forall i | 0 <= i < |ns| && keep[i] ensures InClosed(Absorb(th, ns, keep), ns[i]) {
        if i < l { assert InClosed(r, ns[..l][i]); }
      }
    }
  }

  /** Thread d takes messages that belong to it. */
  lemma DrainIsSound(pb: Problem, th: Thread, t: nat, keep: seq<bool>)
    requires StoreOk(pb, th, t) && |keep| == |th.q|
    ensures StoreOk(pb, Drain(th, keep), t)
  {
    AbsorbMerges(th, th.q, keep);
  }

  lemma ReplaceIsSound(pb: Problem, s: View, r: View, t: nat)
    requires SoundInv(pb, s) && t < pb.threads
    requires |r.threads| == |s.threads| && r.threads == s.threads[t := r.threads[t]]
    requires StoreOk(pb, r.threads[t], t) && HandOk(pb, r.threads[t].pc, t, r.bound, r.best)
    requires r.threads[t].rootOpen ==> s.threads[t].rootOpen
    requires r.bound.Some? ==> GoalCost(pb, r.bound.value)
    requires r.best.Some? ==> GoalCost(pb, r.best.value)
    requires s.best.Some? ==> AtMost(r.best, s.best.value)
    ensures SoundInv(pb, r)
  {
    forall x | 0 <= x < pb.threads
      ensures StoreOk(pb, r.threads[x], x) && HandOk(pb, r.threads[x].pc, x, r.bound, r.best)
              && (r.threads[x].rootOpen ==> x == pb.owner(pb.init))
    {
      assert StoreOk(pb, s.threads[x], x) && HandOk(pb, s.threads[x].pc, x, s.bound, s.best);
    }
  }

  lemma PostIsSound(pb: Problem, s: View, d: nat, ns: seq<Node>)
    requires SoundInv(pb, s) && d < pb.threads && forall n :: n in ns ==> Belongs(pb, n, d)
    ensures SoundInv(pb, Post(s, d, ns))
  {
    assert StoreOk(pb, s.threads[d], d) && HandOk(pb, s.threads[d].pc, d, s.bound, s.best);
    ReplaceIsSound(pb, s, Post(s, d, ns), d);
  }

  lemma DeliverIsSound(pb: Problem, s: View, t: nat, d: nat)
    requires SoundInv(pb, s) && t < pb.threads && d < pb.threads && |s.threads[t].out| == pb.threads
    ensures SoundInv(pb, Deliver(s, t, d))
  {
    var th := s.threads[t];
    var m := s.(threads := s.threads[t := th.(out := th.out[d := []])]);
    assert StoreOk(pb, th, t) && HandOk(pb, th.pc, t, s.bound, s.best);
    ReplaceIsSound(pb, s, m, t);
    PostIsSound(pb, m, d, th.out[d]);
  }

  lemma ChildIsReal(pb: Problem, n: Node, i: nat)
    requires WellPosed(pb) && Real(pb, n) && i < |pb.adj[n.v]|
    ensures Real(pb, Child(pb, n, i))
  {
    AchievedOn(pb.adj, pb.init, n.v, n.g, pb.adj[n.v][i]);
  }

  lemma AcceptIsSound(pb: Problem, th: Thread, t: nat, c: Node)
    requires StoreOk(pb, th, t) && Real(pb, c) && pb.owner(c.v) == t
    ensures StoreOk(pb, Accept(th, c), t)
  {
  }

  lemma BufferIsSound(pb: Problem, th: Thread, t: nat, c: Node, d: nat)
    requires StoreOk(pb, th, t) && Real(pb, c) && pb.owner(c.v) == d && d < |th.out|
    ensures StoreOk(pb, th.(out := th.out[d := th.out[d] + [c]]), t)
  {
  }

  lemma SendIsSound(pb: Problem, s: View, t: nat, c: Node, deliver: bool)
    requires WellPosed(pb) && SoundInv(pb, s) && t < pb.threads && |s.threads[t].out| == pb.threads && Real(pb, c)
    ensures SoundInv(pb, Send(pb, s, t, c, deliver))
  {
    hide StoreOk, HandOk, Real, GoalCost;
    var th := s.threads[t];
    assert StoreOk(pb, th, t) && HandOk(pb, th.pc, t, s.bound, s.best);
    var d := pb.owner(c.v);
    if d == t {
      AcceptIsSound(pb, th, t, c);
      ReplaceIsSound(pb, s, SetThread(s, t, Accept(th, c)), t);
    } else {
      var m := SetThread(s, t, th.(out := th.out[d := th.out[d] + [c]]));
      BufferIsSound(pb, th, t, c, d);
      ReplaceIsSound(pb, s, m, t);
      if deliver { DeliverIsSound(pb, m, t, d); }
    }
  }

  lemma GoalIsGoalCost(pb: Problem, n: Node)
    requires Real(pb, n) && pb.goal(n.v)
    ensures GoalCost(pb, n.g)
  {
  }

  lemma ActionKeepsSound(pb: Problem, s: View, t: nat, a: Action)
    requires WellPosed(pb) && SoundInv(pb, s) && Enabled(pb, s, t, a)
    ensures SoundInv(pb, After(pb, s, t, a))
  {
    match a
    case TryFlush(d) => DeliverIsSound(pb, s, t, d);
    case KeepChild(deliver) => ChildIsSound(pb, s, t, deliver);
    case Receive(_) => DrainingIsSound(pb, s, t, a);
    case Wake(_) => DrainingIsSound(pb, s, t, a);
    case Take(_) => HandlingIsSound(pb, s, t, a);
    case TakeRoot => HandlingIsSound(pb, s, t, a);
    case Keep => HandlingIsSound(pb, s, t, a);
    case ReadBest => HandlingIsSound(pb, s, t, a);
    case Publish => HandlingIsSound(pb, s, t, a);
    case _ => PlainIsSound(pb, s, t, a);
  }

  lemma ChildIsSound(pb: Problem, s: View, t: nat, deliver: bool)
    requires WellPosed(pb) && SoundInv(pb, s) && Enabled(pb, s, t, KeepChild(deliver))
    ensures SoundInv(pb, After(pb, s, t, KeepChild(deliver)))
  {
    var th := s.threads[t];
    assert HandOk(pb, th.pc, t, s.bound, s.best);
    var c := Child(pb, th.pc.node, th.pc.next);
    ChildIsReal(pb, th.pc.node, th.pc.next);
    SendIsSound(pb, s, t, c, deliver);
    var m := Send(pb, s, t, c, deliver);
    assert StoreOk(pb, m.threads[t], t);
    ReplaceIsSound(pb, m, After(pb, s, t, KeepChild(deliver)), t);
  }

  lemma DrainingIsSound(pb: Problem, s: View, t: nat, a: Action)
    requires SoundInv(pb, s) && Enabled(pb, s, t, a) && (a.Receive? || a.Wake?)
    ensures SoundInv(pb, After(pb, s, t, a))
  {
    var th := s.threads[t];
    assert StoreOk(pb, th, t);
    DrainIsSound(pb, th, t, a.keep);
    ReplaceIsSound(pb, s, After(pb, s, t, a), t);
  }

  lemma HandlingIsSound(pb: Problem, s: View, t: nat, a: Action)
    requires WellPosed(pb) && SoundInv(pb, s) && Enabled(pb, s, t, a)
    requires a.Take? || a.TakeRoot? || a.Keep? || a.ReadBest? || a.Publish?
    ensures SoundInv(pb, After(pb, s, t, a))
  {
    var th := s.threads[t];
    assert StoreOk(pb, th, t) && HandOk(pb, th.pc, t, s.bound, s.best);
    if a.TakeRoot? {
      assert Connects(pb.adj, Here(pb.init), pb.init, pb.init) && Here(pb.init).Cost() == 0;
    }
    if a.Keep? && pb.goal(th.pc.node.v) { GoalIsGoalCost(pb, th.pc.node); }
    ReplaceIsSound(pb, s, After(pb, s, t, a), t);
  }

  lemma PlainIsSound(pb: Problem, s: View, t: nat, a: Action)
    requires SoundInv(pb, s) && Enabled(pb, s, t, a)
    requires a.Enter? || a.Leave? || a.EndFlush? || a.Skip? || a.EndSpin? || a.Check? || a.TakeNothing?
             || a.Discard? || a.DropChild? || a.EndExpansion?
    ensures SoundInv(pb, After(pb, s, t, a))
  {
    assert StoreOk(pb, s.threads[t], t) && HandOk(pb, s.threads[t].pc, t, s.bound, s.best);
    ReplaceIsSound(pb, s, After(pb, s, t, a), t);
  }

  // ---------- coverage is preserved ----------

  /** r covers whatever s covered, and its bound is no higher. */
  ghost predicate Better(pb: Problem, s: View, r: View) {
    && |r.threads| == |s.threads|
    && (s.bound.Some? ==> AtMost(r.bound, s.bound.value))
    && forall n: Node :: Covered(pb, s, n) ==> Covered(pb, r, n)
  }

  lemma BetterExpanded(pb: Problem, s: View, r: View, n: Node, i: nat)
    requires Better(pb, s, r) && Expanded(pb, s, n, i)
    ensures Expanded(pb, r, n, i)
  {
    forall j | 0 <= j < i ensures Covered(pb, r, Child(pb, n, j)) {
      assert Covered(pb, s, Child(pb, n, j));
    }
  }

  lemma BetterHandled(pb: Problem, s: View, r: View, pc: Pc, n: Node)
    requires Better(pb, s, r) && Handled(pb, s, pc, n)
    ensures Handled(pb, r, pc, n)
  {
    if n.v < |pb.adj| && Expanded(pb, s, n, |pb.adj[n.v]|) {
      BetterExpanded(pb, s, r, n, |pb.adj[n.v]|);
    }
    if InHand(pb, s, pc, n) && pc.Expanding? {
      BetterExpanded(pb, s, r, pc.node, pc.next);
    }
  }

  lemma BetterDuties(pb: Problem, s: View, r: View, th: Thread, pc: Pc)
    requires Better(pb, s, r) && DutiesOk(pb, s, th, pc)
    ensures DutiesOk(pb, r, th, pc)
  {
    forall v | v in th.closed && v !in th.open ensures Handled(pb, r, pc, Node(v, th.closed[v])) {
      BetterHandled(pb, s, r, pc, Node(v, th.closed[v]));
    }
  }

  /** Coverage does not look at open lists, program counters or flags. */
  lemma SameStores(pb: Problem, s: View, r: View)
    requires |r.threads| == |s.threads| && (s.bound.Some? ==> AtMost(r.bound, s.bound.value))
    requires forall t :: 0 <= t < |s.threads| ==>
               && r.threads[t].closed == s.threads[t].closed && r.threads[t].q == s.threads[t].q
               && r.threads[t].out == s.threads[t].out
    ensures Better(pb, s, r)
  {
    forall n: Node | Covered(pb, s, n) ensures Covered(pb, r, n) {
      var d := pb.owner(n.v);
      if InBuffers(s, d, n) {
        var t :| 0 <= t < |s.threads| && d < |s.threads[t].out| && InSeq(s.threads[t].out[d], n);
        assert InSeq(r.threads[t].out[d], n);
      }
    }
  }

  /** Draining the queue moves every message to the closed list or drops it for a reason. */
  lemma DrainCovers(pb: Problem, s: View, r: View, t: nat, keep: seq<bool>)
    requires t < |s.threads| == |r.threads| && LegalDrops(pb, s.bound, s.threads[t].q, keep)
    requires s.threads[t].open <= s.threads[t].closed.Keys
    requires r.bound == s.bound && r.threads == s.threads[t := r.threads[t]]
    requires r.threads[t].closed == Drain(s.threads[t], keep).closed && r.threads[t].out == s.threads[t].out
    ensures Better(pb, s, r)
  {
    var th := s.threads[t];
    AbsorbMerges(th, th.q, keep);
    forall n: Node | Covered(pb, s, n) ensures Covered(pb, r, n) {
      var d := pb.owner(n.v);
      if InBuffers(s, d, n) {
        var x :| 0 <= x < |s.threads| && d < |s.threads[x].out| && InSeq(s.threads[x].out[d], n);
        assert InSeq(r.threads[x].out[d], n);
      } else if d == t && InSeq(th.q, n) {
        var i :| 0 <= i < |th.q| && th.q[i].v == n.v && th.q[i].g <= n.g;
        if keep[i] { assert InClosed(Absorb(th, th.q, keep), th.q[i]); }
      }
    }
  }

  lemma InSeqAppend(a: seq<Node>, b: seq<Node>, n: Node)
    ensures InSeq(a + b, n) <==> InSeq(a, n) || InSeq(b, n)
  {
    if InSeq(a, n) {
      var i :| 0 <= i < |a| && a[i].v == n.v && a[i].g <= n.g;
      assert (a + b)[i] == a[i];
    }
    if InSeq(b, n) {
      var i :| 0 <= i < |b| && b[i].v == n.v && b[i].g <= n.g;
      assert (a + b)[|a| + i] == b[i];
    }
  }

  lemma DeliverCovers(pb: Problem, s: View, t: nat, d: nat)
    requires t < |s.threads| && d < |s.threads| && d < |s.threads[t].out| && (d == t ==> s.threads[t].out[d] == [])
    ensures Better(pb, s, Deliver(s, t, d))
  {
    var r := Deliver(s, t, d);
    var ns := s.threads[t].out[d];
    forall n: Node | Covered(pb, s, n) ensures Covered(pb, r, n) {
      var o := pb.owner(n.v);
      if InBuffers(s, o, n) {
        var x :| 0 <= x < |s.threads| && o < |s.threads[x].out| && InSeq(s.threads[x].out[o], n);
        if x == t && o == d {
          InSeqAppend(s.threads[d].q, ns, n);
          assert ns != [];
        } else {
          assert InSeq(r.threads[x].out[o], n);
        }
      } else if o < |s.threads| && InSeq(s.threads[o].q, n) {
        InSeqAppend(s.threads[o].q, ns, n);
      }
    }
  }

  lemma SendCovers(pb: Problem, s: View, t: nat, c: Node, deliver: bool)
    requires t < |s.threads| && pb.owner(c.v) < |s.threads| == |s.threads[t].out| && s.threads[t].out[t] == []
    ensures Better(pb, s, Send(pb, s, t, c, deliver)) && Covered(pb, Send(pb, s, t, c, deliver), c)
  {
    var th := s.threads[t];
    var d := pb.owner(c.v);
    if d == t {
      LocalAcceptCovers(pb, s, t, c);
    } else {
      var m := SetThread(s, t, th.(out := th.out[d := th.out[d] + [c]]));
      BufferCovers(pb, s, t, c);
      if deliver {
        DeliverCovers(pb, m, t, d);
      }
    }
  }

  lemma LocalAcceptCovers(pb: Problem, s: View, t: nat, c: Node)
    requires t < |s.threads| && pb.owner(c.v) == t
    ensures Better(pb, s, SetThread(s, t, Accept(s.threads[t], c)))
    ensures Covered(pb, SetThread(s, t, Accept(s.threads[t], c)), c)
  {
    var r := SetThread(s, t, Accept(s.threads[t], c));
    forall n: Node | Covered(pb, s, n) ensures Covered(pb, r, n) {
      var o := pb.owner(n.v);
      if InBuffers(s, o, n) {
        var x :| 0 <= x < |s.threads| && o < |s.threads[x].out| && InSeq(s.threads[x].out[o], n);
        assert InSeq(r.threads[x].out[o], n);
      }
    }
  }

  lemma BufferCovers(pb: Problem, s: View, t: nat, c: Node)
    requires t < |s.threads| && pb.owner(c.v) < |s.threads[t].out|
    ensures var d := pb.owner(c.v);
            var m := SetThread(s, t, s.threads[t].(out := s.threads[t].out[d := s.threads[t].out[d] + [c]]));
            Better(pb, s, m) && Covered(pb, m, c)
  {
    var th := s.threads[t];
    var d := pb.owner(c.v);
    var m := SetThread(s, t, th.(out := th.out[d := th.out[d] + [c]]));
    assert m.threads[t].out[d][|th.out[d]|] == c;
    assert InSeq(m.threads[t].out[d], c);
    forall n: Node | Covered(pb, s, n) ensures Covered(pb, m, n) {
      var o := pb.owner(n.v);
      if InBuffers(s, o, n) {
        var x :| 0 <= x < |s.threads| && o < |s.threads[x].out| && InSeq(s.threads[x].out[o], n);
        if x == t && o == d { InSeqAppend(th.out[d], [c], n); }
        assert InSeq(m.threads[x].out[o], n);
      }
    }
  }

  // ---------- duties are preserved ----------

  /** Whatever the old program counter took care of, the new one takes care of. */
  ghost predicate Handover(pb: Problem, r: View, pc: Pc, pc': Pc) {
    forall n: Node :: Handled(pb, r, pc, n) ==> Handled(pb, r, pc', n)
  }

  lemma IdleHandover(pb: Problem, r: View, pc: Pc, pc': Pc)
    requires !Busy(pc)
    ensures Handover(pb, r, pc, pc')
  {
  }

  lemma SameNodeHandover(pb: Problem, r: View, pc: Pc, pc': Pc)
    requires Busy(pc) && Busy(pc') && pc'.node == pc.node
    requires pc'.Expanding? ==>
               (pc.Expanding? ==> Expanded(pb, r, pc.node, pc.next)) ==> Expanded(pb, r, pc.node, pc'.next)
    ensures Handover(pb, r, pc, pc')
  {
  }

  lemma CoveredIsMonotone(pb: Problem, s: View, m: Node, n: Node)
    requires m.v == n.v && m.g <= n.g && Covered(pb, s, m)
    ensures Covered(pb, s, n)
  {
    var d := pb.owner(n.v);
    if d < |s.threads| && InSeq(s.threads[d].q, m) {
      InSeqIsMonotone(s.threads[d].q, m, n);
    }
    if InBuffers(s, d, m) {
      var t :| 0 <= t < |s.threads| && d < |s.threads[t].out| && InSeq(s.threads[t].out[d], m);
      InSeqIsMonotone(s.threads[t].out[d], m, n);
    }
  }

  lemma InSeqIsMonotone(ns: seq<Node>, m: Node, n: Node)
    requires m.v == n.v && m.g <= n.g && InSeq(ns, m)
    ensures InSeq(ns, n)
  {
  }

  lemma ExpandedIsMonotone(pb: Problem, s: View, m: Node, n: Node, i: nat)
    requires m.v == n.v && m.g <= n.g && Expanded(pb, s, m, i)
    ensures Expanded(pb, s, n, i)
  {
    forall j | 0 <= j < i ensures Covered(pb, s, Child(pb, n, j)) {
      CoveredIsMonotone(pb, s, Child(pb, m, j), Child(pb, n, j));
    }
  }

  /** Handing a finished or worthless state back to the loop. */
  lemma EndHandover(pb: Problem, r: View, pc: Pc)
    requires Busy(pc) && pc.node.v < |pb.adj|
    requires TooCostly(pb, r.bound, pc.node) || (pc.Expanding? && pc.next == |pb.adj[pc.node.v]|)
    ensures Handover(pb, r, pc, Loop)
  {
    forall n: Node | Handled(pb, r, pc, n) ensures Handled(pb, r, Loop, n) {
      if InHand(pb, r, pc, n) && !TooCostly(pb, r.bound, n) {
        ExpandedIsMonotone(pb, r, pc.node, n, pc.next);
      }
    }
  }

  lemma TurnDuties(pb: Problem, s: View, r: View, t: nat, ns: seq<Node>)
    requires DutyInv(pb, s) && Better(pb, s, r) && t < pb.threads
    requires forall x :: 0 <= x < pb.threads && x != t ==>
               && r.threads[x].closed == s.threads[x].closed && r.threads[x].open == s.threads[x].open
               && r.threads[x].rootOpen == s.threads[x].rootOpen && r.threads[x].pc == s.threads[x].pc
    requires Merged(s.threads[t], r.threads[t], ns)
    requires r.threads[t].rootOpen == s.threads[t].rootOpen
    requires Handover(pb, r, s.threads[t].pc, r.threads[t].pc)
    ensures DutyInv(pb, r)
  {
    forall x | 0 <= x < pb.threads ensures DutiesOk(pb, r, r.threads[x], r.threads[x].pc) {
      BetterDuties(pb, s, r, s.threads[x], s.threads[x].pc);
    }
    var o := pb.owner(pb.init);
    if !s.threads[o].rootOpen {
      BetterHandled(pb, s, r, s.threads[o].pc, Node(pb.init, 0));
    }
  }

  lemma PlainKeepsDuties(pb: Problem, s: View, t: nat, a: Action)
    requires OptInv(pb, s) && Enabled(pb, s, t, a)
    requires a.Enter? || a.Leave? || a.EndFlush? || a.Skip? || a.EndSpin? || a.Check? || a.TakeNothing?
    ensures DutyInv(pb, After(pb, s, t, a))
  {
    hide Covered, Better, TermInv, DutyInv, DutiesOk, Expanded, Handled, HandOk, Belongs;
    var r := After(pb, s, t, a);
    assert StoreOk(pb, s.threads[t], t);
    SameStores(pb, s, r);
    IdleHandover(pb, r, s.threads[t].pc, r.threads[t].pc);
    TurnDuties(pb, s, r, t, []);
  }

  /** A step that changes only t's program counter, and perhaps lowers the bound. */
  lemma PcKeepsDuties(pb: Problem, s: View, r: View, t: nat)
    requires DutyInv(pb, s) && SoundInv(pb, s) && t < pb.threads && |r.threads| == pb.threads
    requires r.threads == s.threads[t := s.threads[t].(pc := r.threads[t].pc)]
    requires s.bound.Some? ==> AtMost(r.bound, s.bound.value)
    requires Handover(pb, r, s.threads[t].pc, r.threads[t].pc)
    ensures DutyInv(pb, r)
  {
    assert StoreOk(pb, s.threads[t], t);
    SameStores(pb, s, r);
    TurnDuties(pb, s, r, t, []);
  }

  lemma EndingKeepsDuties(pb: Problem, s: View, t: nat, a: Action)
    requires OptInv(pb, s) && Enabled(pb, s, t, a) && (a.Discard? || a.EndExpansion?)
    ensures DutyInv(pb, After(pb, s, t, a))
  {
    var r := After(pb, s, t, a);
    assert HandOk(pb, s.threads[t].pc, t, s.bound, s.best);
    EndHandover(pb, r, s.threads[t].pc);
    PcKeepsDuties(pb, s, r, t);
  }

  lemma HandlingKeepsDuties(pb: Problem, s: View, t: nat, a: Action)
    requires OptInv(pb, s) && Enabled(pb, s, t, a)
    requires a.Keep? || a.ReadBest? || a.Publish? || a.DropChild?
    ensures DutyInv(pb, After(pb, s, t, a))
  {
    var r := After(pb, s, t, a);
    assert HandOk(pb, s.threads[t].pc, t, s.bound, s.best);
    SameNodeHandover(pb, r, s.threads[t].pc, r.threads[t].pc);
    PcKeepsDuties(pb, s, r, t);
  }

  lemma TakingKeepsDuties(pb: Problem, s: View, t: nat, a: Action)
    requires OptInv(pb, s) && Enabled(pb, s, t, a) && (a.Take? || a.TakeRoot?)
    ensures DutyInv(pb, After(pb, s, t, a))
  {
    var r := After(pb, s, t, a);
    var th := s.threads[t];
    SameStores(pb, s, r);
    forall x | 0 <= x < pb.threads ensures DutiesOk(pb, r, r.threads[x], r.threads[x].pc) {
      BetterDuties(pb, s, r, s.threads[x], s.threads[x].pc);
      if x == t { IdleHandover(pb, r, th.pc, r.threads[t].pc); }
    }
    var o := pb.owner(pb.init);
    if !s.threads[o].rootOpen {
      BetterHandled(pb, s, r, s.threads[o].pc, Node(pb.init, 0));
      if o == t { IdleHandover(pb, r, th.pc, r.threads[t].pc); }
    } else if a.TakeRoot? {
      assert t == o;
    }
  }

  lemma DrainedKeepsDuties(pb: Problem, s: View, r: View, t: nat, keep: seq<bool>, pc: Pc)
    requires DutyInv(pb, s) && SoundInv(pb, s) && t < pb.threads && LegalDrops(pb, s.bound, s.threads[t].q, keep)
    requires r == SetThread(s, t, Drain(s.threads[t], keep).(pc := pc)) && !Busy(s.threads[t].pc)
    ensures DutyInv(pb, r)
  {
    var th := s.threads[t];
    assert StoreOk(pb, th, t);
    AbsorbMerges(th, th.q, keep);
    IdleHandover(pb, r, th.pc, pc);
    DrainCovers(pb, s, r, t, keep);
    TurnDuties(pb, s, r, t, th.q);
  }

  lemma DrainingKeepsDuties(pb: Problem, s: View, t: nat, a: Action)
    requires OptInv(pb, s) && Enabled(pb, s, t, a) && (a.Receive? || a.Wake?)
    ensures DutyInv(pb, After(pb, s, t, a))
  {
    var th := s.threads[t];
    if a.Wake? && IsComplete(pb, s) {
      IdleHandover(pb, After(pb, s, t, a), th.pc, Received(false));
      PcKeepsDuties(pb, s, After(pb, s, t, a), t);
    } else if a.Receive? && th.pc.Taking? && th.qEmpty && !th.pc.hs {
      CompletingKeepsDuties(pb, s, t, a.keep);
    } else {
      DrainedKeepsDuties(pb, s, After(pb, s, t, a), t, a.keep, After(pb, s, t, a).threads[t].pc);
    }
  }

  lemma CompletingKeepsDuties(pb: Problem, s: View, t: nat, keep: seq<bool>)
    requires OptInv(pb, s) && Enabled(pb, s, t, Receive(keep))
    requires s.threads[t].pc.Taking? && s.threads[t].qEmpty && !s.threads[t].pc.hs
    ensures DutyInv(pb, After(pb, s, t, Receive(keep)))
  {
    var r := After(pb, s, t, Receive(keep));
    assert StoreOk(pb, s.threads[t], t);
    SameStores(pb, s, r);
    IdleHandover(pb, r, s.threads[t].pc, Waiting);
    TurnDuties(pb, s, r, t, []);
  }

  lemma FlushKeepsDuties(pb: Problem, s: View, t: nat, d: nat)
    requires OptInv(pb, s) && Enabled(pb, s, t, TryFlush(d))
    ensures DutyInv(pb, After(pb, s, t, TryFlush(d)))
  {
    assert StoreOk(pb, s.threads[t], t) && ThreadOk(pb, s.threads[t], t, IsComplete(pb, s), s.done);
    DeliverCovers(pb, s, t, d);
    var r := Deliver(s, t, d);
    IdleHandover(pb, r, s.threads[t].pc, r.threads[t].pc);
    TurnDuties(pb, s, r, t, []);
  }

  lemma BetterTwice(pb: Problem, s: View, m: View, r: View)
    requires Better(pb, s, m) && Better(pb, m, r)
    ensures Better(pb, s, r)
  {
  }

  /** Apart from thread t's closed and open list, r looks like s to the duties. */
  ghost predicate SameDuties(s: View, r: View, t: nat) {
    && |r.threads| == |s.threads|
    && (forall x :: 0 <= x < |s.threads| ==>
          r.threads[x].rootOpen == s.threads[x].rootOpen && r.threads[x].pc == s.threads[x].pc)
    && (forall x :: 0 <= x < |s.threads| && x != t ==>
          r.threads[x].closed == s.threads[x].closed && r.threads[x].open == s.threads[x].open)
  }

  lemma DeliverShape(s: View, t: nat, d: nat)
    requires t < |s.threads| && d < |s.threads| && d < |s.threads[t].out|
    ensures SameDuties(s, Deliver(s, t, d), t)
    ensures Deliver(s, t, d).threads[t].closed == s.threads[t].closed
            && Deliver(s, t, d).threads[t].open == s.threads[t].open
  {
  }

  lemma SendShape(pb: Problem, s: View, t: nat, c: Node, deliver: bool)
    requires t < |s.threads| && pb.owner(c.v) < |s.threads| == |s.threads[t].out|
    requires s.threads[t].open <= s.threads[t].closed.Keys
    ensures SameDuties(s, Send(pb, s, t, c, deliver), t)
    ensures Merged(s.threads[t], Send(pb, s, t, c, deliver).threads[t], [c])
  {
    var th := s.threads[t];
    var d := pb.owner(c.v);
    if d == t {
      AcceptMerges(th, th, [], c);
    } else {
      var m := SetThread(s, t, th.(out := th.out[d := th.out[d] + [c]]));
      if deliver { DeliverShape(m, t, d); }
    }
  }

  lemma OwnStores(pb: Problem, s: View, t: nat)
    requires TermInv(pb, s) && SoundInv(pb, s) && t < pb.threads
    ensures t < |s.threads[t].out| && s.threads[t].out[t] == [] && s.threads[t].open <= s.threads[t].closed.Keys
  {
    assert ThreadOk(pb, s.threads[t], t, IsComplete(pb, s), s.done);
    assert StoreOk(pb, s.threads[t], t);
  }

  lemma ChildKeepsDuties(pb: Problem, s: View, t: nat, deliver: bool)
    requires DutyInv(pb, s) && Enabled(pb, s, t, KeepChild(deliver))
    requires s.threads[t].out[t] == [] && s.threads[t].open <= s.threads[t].closed.Keys
    ensures DutyInv(pb, After(pb, s, t, KeepChild(deliver)))
  {
    SendingKeepsDuties(pb, s, t, deliver);
  }

  lemma SendingKeepsDuties(pb: Problem, s: View, t: nat, deliver: bool)
    requires DutyInv(pb, s) && t < pb.threads && s.threads[t].pc.Expanding? && |s.threads[t].out| == pb.threads
    requires var pc := s.threads[t].pc;
             && pc.node.v < |pb.adj| && pc.next < |pb.adj[pc.node.v]|
             && pb.owner(Child(pb, pc.node, pc.next).v) < pb.threads
    requires s.threads[t].out[t] == [] && s.threads[t].open <= s.threads[t].closed.Keys
    ensures var pc := s.threads[t].pc;
            DutyInv(pb, SetPc(Send(pb, s, t, Child(pb, pc.node, pc.next), deliver), t, Expanding(pc.node, pc.next + 1)))
  {
    var pc := s.threads[t].pc;
    var c := Child(pb, pc.node, pc.next);
    SendCovers(pb, s, t, c, deliver);
    SendShape(pb, s, t, c, deliver);
    var m := Send(pb, s, t, c, deliver);
    SentKeepsDuties(pb, s, m, t, c);
  }

  lemma SentKeepsDuties(pb: Problem, s: View, m: View, t: nat, c: Node)
    requires DutyInv(pb, s) && t < pb.threads && s.threads[t].pc.Expanding?
    requires var pc := s.threads[t].pc;
             pc.node.v < |pb.adj| && pc.next < |pb.adj[pc.node.v]| && c == Child(pb, pc.node, pc.next)
    requires Better(pb, s, m) && Covered(pb, m, c) && Merged(s.threads[t], m.threads[t], [c])
    requires SameDuties(s, m, t)
    ensures DutyInv(pb, SetPc(m, t, Expanding(s.threads[t].pc.node, s.threads[t].pc.next + 1)))
  {
    var pc := s.threads[t].pc;
    var r := SetPc(m, t, Expanding(pc.node, pc.next + 1));
    SameStores(pb, m, r);
    BetterTwice(pb, s, m, r);
    assert Covered(pb, r, c);
    SameNodeHandover(pb, r, pc, r.threads[t].pc);
    TurnDuties(pb, s, r, t, [c]);
  }

  lemma ActionKeepsOpt(pb: Problem, s: View, t: nat, a: Action)
    requires WellPosed(pb) && OptInv(pb, s) && Enabled(pb, s, t, a)
    ensures OptInv(pb, After(pb, s, t, a))
  {
    ActionKeepsTerm(pb, s, t, a);
    ActionKeepsSound(pb, s, t, a);
    match a
    case TryFlush(d) => FlushKeepsDuties(pb, s, t, d);
    case KeepChild(deliver) =>
      OwnStores(pb, s, t);
      ChildKeepsDuties(pb, s, t, deliver);
    case Receive(_) => DrainingKeepsDuties(pb, s, t, a);
    case Wake(_) => DrainingKeepsDuties(pb, s, t, a);
    case Take(_) => TakingKeepsDuties(pb, s, t, a);
    case TakeRoot => TakingKeepsDuties(pb, s, t, a);
    case Enter => PlainKeepsDuties(pb, s, t, a);
    case Leave => PlainKeepsDuties(pb, s, t, a);
    case EndFlush => PlainKeepsDuties(pb, s, t, a);
    case Skip => PlainKeepsDuties(pb, s, t, a);
    case EndSpin => PlainKeepsDuties(pb, s, t, a);
    case Check => PlainKeepsDuties(pb, s, t, a);
    case TakeNothing => PlainKeepsDuties(pb, s, t, a);
    case Discard => EndingKeepsDuties(pb, s, t, a);
    case EndExpansion => EndingKeepsDuties(pb, s, t, a);
    case _ => HandlingKeepsDuties(pb, s, t, a);
  }

  // ---------- the theorem ----------

  lemma InitialOpt(pb: Problem, s: View)
    requires WellPosed(pb) && Initial(pb, s)
    ensures OptInv(pb, s)
  {
    InitialTerm(pb, s);
  }

  lemma {:induction false} RunKeepsOpt(pb: Problem, trace: seq<View>, i: nat)
    requires WellPosed(pb) && Run(pb, trace) && i < |trace|
    ensures OptInv(pb, trace[i])
  {
    if i == 0 {
      InitialOpt(pb, trace[0]);
    } else {
      RunKeepsOpt(pb, trace, i - 1);
      assert Next(pb, trace[i - 1], trace[i - 1 + 1]);
      NextKeepsOpt(pb, trace[i - 1], trace[i]);
    }
  }

  lemma NextKeepsOpt(pb: Problem, s: View, r: View)
    requires WellPosed(pb) && OptInv(pb, s) && Next(pb, s, r)
    ensures OptInv(pb, r)
  {
    var t, a :| Enabled(pb, s, t, a) && r == After(pb, s, t, a);
    ActionKeepsOpt(pb, s, t, a);
  }

  /** Main theorem: in every interleaving, with buffered or immediate sends, once the
      counter is at its maximum or `done` is set the shared bound is the cost of a
      cheapest walk to a goal, and infinite exactly if no goal can be reached. */
  lemma FinalBoundIsOptimal(pb: Problem, trace: seq<View>, i: nat)
    requires WellPosed(pb) && Run(pb, trace) && i < |trace|
    requires IsComplete(pb, trace[i]) || trace[i].done
    ensures BoundIsOptimal(pb, trace[i].bound)
  {
    RunKeepsOpt(pb, trace, i);
    CompleteIsOptimal(pb, trace[i]);
  }
}
