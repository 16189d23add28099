/** What the predecessors that PASE stores are good for: in every interleaving they lead
    from any discovered vertex back to the source. */
module PasePaths {
  import opened Graphs
  import opened PaseModel
  import opened PredecessorPaths

  /** The distances and predecessors of the vertex table. */
  function Packs(states: seq<VertexState>): (g: seq<Pack>)
    ensures |g| == |states| && forall v :: 0 <= v < |g| ==> g[v] == Pack(states[v].g, states[v].pred)
  {
    seq(|states|, v requires 0 <= v < |states| => Pack(states[v].g, states[v].pred))
  }

  /** The vertex a worker expands may have become closer since the worker read its
      distance, but not farther. */
  ghost predicate ReadOk(states: seq<VertexState>, wk: Worker) {
    wk.Expanding? ==>
      var v := wk.entry.vertex;
      v < |states| && states[v].g.Some? && states[v].g.value <= wk.vdist
  }

  ghost predicate PathInv(pb: Problem, s: View) {
    && AllExplained(pb.adj, pb.source, Packs(s.board.states))
    && forall w :: 0 <= w < |s.workers| ==> ReadOk(s.board.states, s.workers[w])
  }

  lemma RelaxOneKeepsPaths(pb: Problem, b: Board, v: nat, vdist: nat, e: Edge)
    requires AllExplained(pb.adj, pb.source, Packs(b.states)) && v < |pb.adj| && e in pb.adj[v]
    requires v < |b.states| && b.states[v].g.Some? && b.states[v].g.value <= vdist
    ensures var c := RelaxOne(pb, b, v, vdist, e);
            AllExplained(pb.adj, pb.source, Packs(c.states)) && Closer(Packs(b.states), Packs(c.states))
  {
    var c := RelaxOne(pb, b, v, vdist, e);
    if c != b {
      var g := Packs(b.states);
      LoweringKeepsExplained(pb.adj, pb.source, g, v, vdist, e);
      assert Packs(c.states) == g[e.target := Pack(Some(vdist + e.weight), v)];
    }
  }

  lemma CloserOn(g: seq<Pack>, h: seq<Pack>, k: seq<Pack>)
    requires Closer(g, h) && Closer(h, k)
    ensures Closer(g, k)
  {
  }

  lemma {:induction false} RelaxAllKeepsPaths(pb: Problem, b: Board, v: nat, vdist: nat, es: seq<Edge>)
    requires AllExplained(pb.adj, pb.source, Packs(b.states)) && v < |pb.adj|
    requires forall e :: e in es ==> e in pb.adj[v]
    requires v < |b.states| && b.states[v].g.Some? && b.states[v].g.value <= vdist
    ensures var c := RelaxAll(pb, b, v, vdist, es);
            AllExplained(pb.adj, pb.source, Packs(c.states)) && Closer(Packs(b.states), Packs(c.states))
  {
    if es != [] {
      hide AllExplained, RelaxOne;
      var front := es[..|es| - 1];
      RelaxAllKeepsPaths(pb, b, v, vdist, front);
      var c := RelaxAll(pb, b, v, vdist, front);
      assert Packs(b.states)[v].dist.Some? && Packs(c.states)[v].dist.Some?;
      RelaxOneKeepsPaths(pb, c, v, vdist, es[|es| - 1]);
      CloserOn(Packs(b.states), Packs(c.states), Packs(RelaxAll(pb, b, v, vdist, es).states));
    }
  }

  lemma FinishKeepsPaths(pb: Problem, b: Board, entry: Entry, vdist: nat)
    requires entry.vertex < |pb.adj| && entry.vertex < |b.states|
    requires AllExplained(pb.adj, pb.source, Packs(b.states))
    requires b.states[entry.vertex].g.Some? && b.states[entry.vertex].g.value <= vdist
    ensures var c := Finish(pb, b, entry, vdist);
            AllExplained(pb.adj, pb.source, Packs(c.states)) && Closer(Packs(b.states), Packs(c.states))
  {
    var v := entry.vertex;
    RelaxAllKeepsPaths(pb, b, v, vdist, pb.adj[v]);
    assert Packs(Finish(pb, b, entry, vdist).states) == Packs(RelaxAll(pb, b, v, vdist, pb.adj[v]).states);
  }

  lemma ReadStaysOk(s: seq<VertexState>, t: seq<VertexState>, wk: Worker)
    requires ReadOk(s, wk) && Closer(Packs(s), Packs(t))
    ensures ReadOk(t, wk)
  {
    if wk.Expanding? { assert Packs(s)[wk.entry.vertex].dist.Some?; }
  }

  lemma InitialPaths(pb: Problem, s: View)
    requires Initial(pb, s)
    ensures PathInv(pb, s)
  {
  }

  lemma StepKeepsPaths(pb: Problem, s: View, t: View, w: nat)
    requires PathInv(pb, s) && Step(pb, s, t, w)
    ensures PathInv(pb, t)
  {
    assert ReadOk(s.board.states, s.workers[w]);
    if Relaxes(pb, s, t, w) {
      FinishKeepsPaths(pb, s.board, s.workers[w].entry, s.workers[w].vdist);
      forall x | 0 <= x < |t.workers| ensures ReadOk(t.board.states, t.workers[x]) {
        if x != w { ReadStaysOk(s.board.states, t.board.states, s.workers[x]); }
      }
    } else {
      assert Packs(t.board.states) == Packs(s.board.states);
      forall x | 0 <= x < |t.workers| ensures ReadOk(t.board.states, t.workers[x]) {
        if x != w { ReadStaysOk(s.board.states, t.board.states, s.workers[x]); }
      }
    }
  }

  lemma {:induction false} RunKeepsPaths(pb: Problem, trace: seq<View>, i: nat)
    requires Run(pb, trace) && i < |trace|
    ensures PathInv(pb, trace[i])
  {
    if i == 0 {
      InitialPaths(pb, trace[0]);
    } else {
      hide PathInv, Step, Initial;
      RunKeepsPaths(pb, trace, i - 1);
      assert Next(pb, trace[i - 1], trace[i - 1 + 1]);
      var w :| Step(pb, trace[i - 1], trace[i], w);
      StepKeepsPaths(pb, trace[i - 1], trace[i], w);
    }
  }

  /** Main theorem: with positive weights, in every state of every run the predecessors
      of a discovered vertex lead back to the source without a cycle, along a walk no
      longer than the recorded distance. */
  lemma PredecessorsLeadToSource(pb: Problem, trace: seq<View>, i: nat, x: nat) returns (q: Walk)
    requires Positive(pb.adj) && Run(pb, trace) && i < |trace|
    requires Known(Packs(trace[i].board.states), x)
    ensures Connects(pb.adj, q, pb.source, x) && AlongPreds(Packs(trace[i].board.states), q) && Simple(q)
    ensures q.Cost() <= Packs(trace[i].board.states)[x].dist.value
  {
    RunKeepsPaths(pb, trace, i);
    q := PredecessorPath(pb.adj, pb.source, Packs(trace[i].board.states), x);
  }

  lemma CheaperIsWithin(pb: Problem, v: nat, d: nat, q: Walk)
    requires WithinFactor(pb, v, d) && Connects(pb.adj, q, pb.source, v) && q.Cost() <= d
    ensures WithinFactor(pb, v, q.Cost())
  {
    assert q.Cost() as real <= d as real;
    assert Achieved(pb.adj, pb.source, v, q.Cost());
    hide Connects;
  }

  /** Main theorem: once the search is done, the path read off the predecessors of the
      destination is within W of every walk to it. */
  lemma DoneMeansPath(pb: Problem, trace: seq<View>, i: nat) returns (q: Walk)
    requires WellPosed(pb) && Positive(pb.adj) && Run(pb, trace) && i < |trace| && trace[i].isDone
    ensures Connects(pb.adj, q, pb.source, pb.dest) && AlongPreds(Packs(trace[i].board.states), q) && Simple(q)
    ensures WithinFactor(pb, pb.dest, q.Cost())
  {
    assert pb.dest < |pb.adj|;
    hide WellPosed, Run, Positive, AlongPreds, Simple, Connects, WithinFactor;
    BoundedSuboptimality(pb, trace, i, pb.dest);
    q := PredecessorsLeadToSource(pb, trace, i, pb.dest);
    CheaperIsWithin(pb, pb.dest, trace[i].board.states[pb.dest].g.value, q);
  }
}
