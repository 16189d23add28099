/** Tables of distances and predecessors, as the parallel searches write them without
    stopping each other: a distance may be larger than the one that follows from its
    predecessor, never smaller. */
module PredecessorPaths {
  import opened Graphs

  /** Distance and predecessor of a vertex.  `dist` is None where the source stores
      the largest integer. */
  datatype Pack = Pack(dist: Option<nat>, pred: int)

  ghost predicate Positive(adj: Adjacency) {
    forall v, i :: 0 <= v < |adj| && 0 <= i < |adj[v]| ==> adj[v][i].weight > 0
  }

  ghost predicate HasEdge(adj: Adjacency, u: nat, v: nat, w: nat) {
    u < |adj| && Edge(v, w) in adj[u]
  }

  predicate Known(gpred: seq<Pack>, x: nat) {
    x < |gpred| && gpred[x].dist.Some?
  }

  /** x has a predecessor at a distance that explains its own. */
  ghost predicate Explained(adj: Adjacency, gpred: seq<Pack>, x: nat)
    requires Known(gpred, x)
  {
    var p := gpred[x].pred;
    && 0 <= p < |gpred| && gpred[p].dist.Some?
    && exists w :: HasEdge(adj, p, x, w) && gpred[p].dist.value + w <= gpred[x].dist.value
  }

  ghost predicate AllExplained(adj: Adjacency, source: nat, gpred: seq<Pack>) {
    && |gpred| == |adj| && source < |gpred| && gpred[source].dist == Some(0)
    && forall x :: 0 <= x < |gpred| && x != source && gpred[x].dist.Some? ==> Explained(adj, gpred, x)
  }

  /** Each vertex of the walk after the first has the one before it as its predecessor. */
  ghost predicate AlongPreds(gpred: seq<Pack>, q: Walk) {
    match q
    case Here(_) => true
    case Then(p, e) => e.target < |gpred| && gpred[e.target].pred == p.End() && AlongPreds(gpred, p)
  }

  ghost predicate NoFarther(gpred: seq<Pack>, vs: set<nat>, d: nat) {
    forall v :: v in vs ==> Known(gpred, v) && gpred[v].dist.value <= d
  }

  /** The predecessor chain of x reaches the source along edges, never comes to a
      vertex twice, and is no longer than the recorded distance. */
  lemma {:induction false} PredecessorPath(adj: Adjacency, source: nat, gpred: seq<Pack>, x: nat) returns (q: Walk)
    requires Positive(adj) && AllExplained(adj, source, gpred) && Known(gpred, x)
    ensures Connects(adj, q, source, x) && AlongPreds(gpred, q) && q.Cost() <= gpred[x].dist.value
    ensures Simple(q) && NoFarther(gpred, Visited(q), gpred[x].dist.value)
    decreases gpred[x].dist.value
  {
    if x == source {
      q := Here(x);
    } else {
      assert Explained(adj, gpred, x);
      var p: nat := gpred[x].pred;
      var w :| HasEdge(adj, p, x, w) && gpred[p].dist.value + w <= gpred[x].dist.value;
      var i :| 0 <= i < |adj[p]| && adj[p][i] == Edge(x, w);
      var b := PredecessorPath(adj, source, gpred, p);
      q := Then(b, Edge(x, w));
    }
  }

  /** Distances only shrink. */
  ghost predicate Closer(g: seq<Pack>, h: seq<Pack>) {
    |g| == |h| && forall x :: 0 <= x < |g| && g[x].dist.Some? ==> h[x].dist.Some? && h[x].dist.value <= g[x].dist.value
  }

  /** Lowering the distance of an edge's target explains it by the edge's tail v, whose
      distance may have fallen below d since it was read. */
  lemma LoweringKeepsExplained(adj: Adjacency, source: nat, g: seq<Pack>, v: nat, d: nat, e: Edge)
    requires AllExplained(adj, source, g) && Known(g, v) && g[v].dist.value <= d
    requires v < |adj| && e in adj[v] && e.target < |g|
    requires g[e.target].dist.None? || d + e.weight < g[e.target].dist.value
    ensures var h := g[e.target := Pack(Some(d + e.weight), v)];
            AllExplained(adj, source, h) && Closer(g, h) && e.target != v && e.target != source
  {
    var h := g[e.target := Pack(Some(d + e.weight), v)];
    assert e == Edge(e.target, e.weight) && HasEdge(adj, v, e.target, e.weight);
    forall x | 0 <= x < |h| && x != source && h[x].dist.Some? ensures Explained(adj, h, x) {
      if x == e.target {
        assert h[v].dist.value + e.weight <= h[x].dist.value;
      } else {
        assert Explained(adj, g, x);
        var w :| HasEdge(adj, g[x].pred, x, w) && g[g[x].pred].dist.value + w <= g[x].dist.value;
        assert h[h[x].pred].dist.value + w <= h[x].dist.value;
      }
    }
  }
}
