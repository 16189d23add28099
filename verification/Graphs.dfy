/** Finite weighted graphs and walks, shared by the search models.

    A walk is built by appending one edge at a time, so that a proof about "the
    first vertex on the way that is not yet expanded" follows the data. */
module Graphs {

  datatype Option<+T> = None | Some(value: T)

  datatype Edge = Edge(target: nat, weight: nat)

  /** Vertices are 0 .. |adj|; adj[v] lists the out-edges of v. */
  type Adjacency = seq<seq<Edge>>

  ghost predicate ValidGraph(adj: Adjacency) {
    forall v, i :: 0 <= v < |adj| && 0 <= i < |adj[v]| ==> adj[v][i].target < |adj|
  }

  datatype Walk = Here(at: nat) | Then(before: Walk, edge: Edge) {

    function Start(): nat {
      match this
      case Here(v) => v
      case Then(p, _) => p.Start()
    }

    function End(): nat {
      match this
      case Here(v) => v
      case Then(_, e) => e.target
    }

    function Cost(): nat {
      match this
      case Here(_) => 0
      case Then(p, e) => p.Cost() + e.weight
    }

    ghost predicate In(adj: Adjacency) {
      match this
      case Here(v) => v < |adj|
      case Then(p, e) => p.In(adj) && p.End() < |adj| && e in adj[p.End()]
    }
  }

  ghost predicate Connects(adj: Adjacency, w: Walk, u: nat, v: nat) {
    w.In(adj) && w.Start() == u && w.End() == v
  }

  /** The vertices on a walk, its end included. */
  function Visited(w: Walk): set<nat> {
    match w
    case Here(v) => {v}
    case Then(p, e) => Visited(p) + {e.target}
  }

  predicate Simple(w: Walk) {
    match w
    case Here(_) => true
    case Then(p, e) => Simple(p) && e.target !in Visited(p)
  }

  function Steps(w: Walk): nat {
    match w
    case Here(_) => 0
    case Then(p, _) => Steps(p) + 1
  }

  /** d is the cost of a walk from u to v. */
  ghost predicate Achieved(adj: Adjacency, u: nat, v: nat, d: nat) {
    exists q: Walk :: Connects(adj, q, u, v) && q.Cost() == d
  }

  lemma AchievedOn(adj: Adjacency, u: nat, v: nat, d: nat, e: Edge)
    requires Achieved(adj, u, v, d) && v < |adj| && e in adj[v]
    ensures Achieved(adj, u, e.target, d + e.weight)
  {
    var q :| Connects(adj, q, u, v) && q.Cost() == d;
    assert Connects(adj, Then(q, e), u, e.target) && Then(q, e).Cost() == d + e.weight;
  }

  lemma WalkStaysInside(adj: Adjacency, w: Walk)
    requires ValidGraph(adj) && w.In(adj)
    ensures w.Start() < |adj| && w.End() < |adj|
  {
    match w
    case Here(_) =>
    case Then(p, e) => WalkStaysInside(adj, p);
  }

  function Join(p: Walk, q: Walk): Walk {
    match q
    case Here(_) => p
    case Then(q', e) => Then(Join(p, q'), e)
  }

  lemma JoinIsAWalk(adj: Adjacency, p: Walk, q: Walk)
    requires p.In(adj) && q.In(adj) && p.End() == q.Start()
    ensures Join(p, q).In(adj)
    ensures Join(p, q).Start() == p.Start() && Join(p, q).End() == q.End()
    ensures Join(p, q).Cost() == p.Cost() + q.Cost()
  {
    match q
    case Here(_) =>
    case Then(q', _) => JoinIsAWalk(adj, p, q');
  }
}
