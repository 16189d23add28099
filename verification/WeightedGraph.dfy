/** The grid graph PWSA and PASE search: eight-way moves between free cells, the
    neighbour lists in one array, and the length of a predecessor path. */
module WeightedGraph {
  import opened Graphs
  import opened PredecessorPaths
  import opened PwsaModel
  import opened PwsaSearch

  const OBSTACLE: int := -1

  const DROW: seq<int> := [-1, -1, -1, 0, 0, 1, 1, 1]
  const DCOL: seq<int> := [-1, 0, 1, -1, 1, -1, 0, 1]
  const DIST: seq<nat> := [14142, 10000, 14142, 10000, 10000, 14142, 10000, 14142]

  datatype Coords = Coords(row: nat, col: nat)

  /** grid holds vertex numbers, or OBSTACLE; vertices holds where each vertex is. */
  datatype Map = Map(height: nat, width: nat, grid: seq<seq<int>>, vertices: seq<Coords>) {

    predicate Valid() {
      && |grid| == height && (forall r :: 0 <= r < height ==> |grid[r]| == width)
      && (forall v :: 0 <= v < |vertices| ==>
            vertices[v].row < height && vertices[v].col < width && grid[vertices[v].row][vertices[v].col] == v)
      && (forall r, c :: 0 <= r < height && 0 <= c < width ==> CellOk(r, c))
    }

    predicate CellOk(r: nat, c: nat)
      requires |grid| == height && r < height && |grid[r]| == width && c < width
    {
      grid[r][c] == OBSTACLE || (0 <= grid[r][c] < |vertices| && vertices[grid[r][c]] == Coords(r, c))
    }

    /** The neighbour of v in direction i. */
    function Look(v: nat, i: nat): Option<Edge>
      requires Valid() && v < |vertices| && i < 8
    {
      var r, c := vertices[v].row + DROW[i], vertices[v].col + DCOL[i];
      if 0 <= r < height && 0 <= c < width && grid[r][c] != OBSTACLE
      then
        assert CellOk(r, c);
        Some(Edge(grid[r][c], DIST[i]))
      else None
    }

    /** The neighbours in the first i directions, in order. */
    function Around(v: nat, i: nat): (es: seq<Edge>)
      requires Valid() && v < |vertices| && i <= 8
    {
      if i == 0 then []
      else
        match Look(v, i - 1)
        case None => Around(v, i - 1)
        case Some(e) => Around(v, i - 1) + [e]
    }

    lemma {:induction false} AroundHas(v: nat, i: nat, e: Edge)
      requires Valid() && v < |vertices| && i <= 8
      ensures e in Around(v, i) <==> exists j :: 0 <= j < i && Look(v, j) == Some(e)
    {
      if i > 0 { AroundHas(v, i - 1, e); }
    }

    function Adj(): (a: Adjacency)
      requires Valid()
      ensures |a| == |vertices| && forall v :: 0 <= v < |a| ==> a[v] == Around(v, 8)
    {
      seq(|vertices|, v requires 0 <= v < |vertices| => Around(v, 8))
    }

    /** Direction 7 - i leads back. */
    lemma LookBack(v: nat, i: nat)
      requires Valid() && v < |vertices| && i < 8 && Look(v, i).Some?
      ensures Look(v, i).value.target < |vertices|
      ensures Look(Look(v, i).value.target, 7 - i) == Some(Edge(v, DIST[i]))
    {
      var r, c := vertices[v].row + DROW[i], vertices[v].col + DCOL[i];
      assert CellOk(r, c);
      assert DROW[7 - i] == -DROW[i] && DCOL[7 - i] == -DCOL[i] && DIST[7 - i] == DIST[i];
    }

    /** The graph is well formed, with positive weights. */
    lemma AdjIsValid()
      requires Valid()
      ensures ValidGraph(Adj())
      ensures forall v, i :: 0 <= v < |Adj()| && 0 <= i < |Adj()[v]| ==> Adj()[v][i].weight > 0
    {
      forall v, i | 0 <= v < |Adj()| && 0 <= i < |Adj()[v]|
        ensures Adj()[v][i].target < |Adj()| && Adj()[v][i].weight > 0
      {
        var e := Adj()[v][i];
        assert e in Around(v, 8);
        AroundHas(v, 8, e);
        var j :| 0 <= j < 8 && Look(v, j) == Some(e);
        LookBack(v, j);
        assert DIST[j] == 14142 || DIST[j] == 10000;
      }
    }

    /** u is one of the eight cells around v. */
    predicate Touching(u: nat, v: nat)
      requires u < |vertices| && v < |vertices|
    {
      u != v && -1 <= vertices[u].row - vertices[v].row <= 1 && -1 <= vertices[u].col - vertices[v].col <= 1
    }

    /** The neighbours are the vertices in the eight cells around: 10000 in the same row
        or column, 14142 across a corner. */
    lemma EdgesAreTouching(u: nat, v: nat, w: nat)
      requires Valid() && u < |vertices| && v < |vertices|
      ensures var straight := vertices[u].row == vertices[v].row || vertices[u].col == vertices[v].col;
              Edge(u, w) in Adj()[v] <==> Touching(u, v) && w == if straight then 10000 else 14142
    {
      AroundHas(v, 8, Edge(u, w));
      if Edge(u, w) in Adj()[v] {
        var j :| 0 <= j < 8 && Look(v, j) == Some(Edge(u, w));
        LookMeans(v, j);
      } else if Touching(u, v) {
        var dr, dc := vertices[u].row - vertices[v].row, vertices[u].col - vertices[v].col;
        var j := if dr == -1 then dc + 1 else if dr == 0 then (if dc == -1 then 3 else 4) else dc + 6;
        assert DROW[j] == dr && DCOL[j] == dc;
        assert Look(v, j) == Some(Edge(u, DIST[j]));
      }
    }

    lemma LookMeans(v: nat, i: nat)
      requires Valid() && v < |vertices| && i < 8 && Look(v, i).Some?
      ensures var e := Look(v, i).value;
              && e.target < |vertices| && e.weight == DIST[i]
              && vertices[e.target] == Coords(vertices[v].row + DROW[i], vertices[v].col + DCOL[i])
    {
      assert CellOk(vertices[v].row + DROW[i], vertices[v].col + DCOL[i]);
    }

    /** Every edge can be taken back at the same cost. */
    lemma AdjIsSymmetric(u: nat, v: nat, w: nat)
      requires Valid() && u < |vertices| && v < |vertices| && Edge(v, w) in Adj()[u]
      ensures Edge(u, w) in Adj()[v]
    {
      AroundHas(u, 8, Edge(v, w));
      var j :| 0 <= j < 8 && Look(u, j) == Some(Edge(v, w));
      LookBack(u, j);
      AroundHas(v, 8, Edge(u, w));
      assert Look(v, 7 - j) == Some(Edge(u, w));
    }

    /** weight_between: None where the source gives up with an error. */
    function WeightBetween(u: nat, v: nat): Option<nat>
      requires u < |vertices| && v < |vertices|
    {
      var dr, dc := vertices[u].row - vertices[v].row, vertices[u].col - vertices[v].col;
      var diff := (if dr < 0 then -dr else dr) + (if dc < 0 then -dc else dc);
      if diff == 0 then Some(0) else if diff == 1 then Some(10000) else if diff == 2 then Some(14142) else None
    }

    /** On an edge, weight_between finds the weight stored with it. */
    lemma WeightOfEdge(u: nat, v: nat, w: nat)
      requires Valid() && u < |vertices| && v < |vertices| && Edge(v, w) in Adj()[u]
      ensures WeightBetween(u, v) == Some(w) && WeightBetween(v, u) == Some(w)
    {
      EdgesAreTouching(v, u, w);
      SameCellSameVertex(u, v);
      hide Valid, Adj;
    }

    lemma SameCellSameVertex(u: nat, v: nat)
      requires Valid() && u < |vertices| && v < |vertices|
      ensures vertices[u] == vertices[v] ==> u == v
    {
    }
  }

  /** A grid graph meets what PWSA asks of its input. */
  lemma GridIsWellPosed(m: Map, pb: Problem)
    requires m.Valid() && pb.adj == m.Adj()
    requires pb.source < |m.vertices| && pb.dest < |m.vertices| && pb.leader < pb.workers && pb.splitCutoff >= 1
    ensures WellPosed(pb)
  {
    m.AdjIsValid();
  }

  class Graph {
    const m: Map
    var neighborOffsets: seq<nat>
    var neighbors: seq<Edge>

    constructor (m: Map)
      requires m.Valid()
      ensures Valid() && this.m == m
    {
      this.m, neighborOffsets, neighbors := m, [], [];
      new;
      PopulateNeighbors();
    }

    /** The lists of all vertices, one after the other. */
    ghost predicate Valid()
      reads this
    {
      m.Valid() && Sliced(m, neighbors, neighborOffsets, |m.vertices|)
    }

    method PopulateNeighbors()
      requires m.Valid() && neighbors == []
      modifies this
      ensures Valid()
    {
      var offsets: seq<nat> := [];
      var list: seq<Edge> := [];
      var v := 0;
      while v < |m.vertices|
        invariant 0 <= v <= |m.vertices| && Sliced(m, list, offsets + [|list|], v)
      {
        ghost var before, marks := list, offsets + [|list|];
        offsets := offsets + [|list|];
        var i := 0;
        while i < 8
          invariant 0 <= i <= 8 && list == before + m.Around(v, i)
        {
          var r, c := m.vertices[v].row + DROW[i], m.vertices[v].col + DCOL[i];
          if 0 <= r < m.height && 0 <= c < m.width && m.grid[r][c] != OBSTACLE {
            assert m.CellOk(r, c);
            list := list + [Edge(m.grid[r][c], DIST[i])];
          }
          i := i + 1;
        }
        SlicedGrows(m, before, marks, list, v);
        v := v + 1;
      }
      neighborOffsets := offsets + [|list|];
      neighbors := list;
    }

    function Degree(v: nat): (d: nat)
      reads this
      requires Valid() && v < |m.vertices|
      ensures d == |m.Adj()[v]|
    {
      assert SliceAt(m, neighbors, neighborOffsets, v);
      neighborOffsets[v + 1] - neighborOffsets[v]
    }

    /** The i-th neighbour of v, read from the shared array. */
    function Neighbor(v: nat, i: nat): (e: Edge)
      reads this
      requires Valid() && v < |m.vertices| && i < Degree(v)
      ensures e == m.Adj()[v][i]
    {
      assert SliceAt(m, neighbors, neighborOffsets, v);
      neighbors[neighborOffsets[v] + i]
    }

    /** pathlen: following predecessors from a discovered vertex ends at the source.
        The length is that of the one walk along the predecessors, and at most the
        recorded distance. */
    method Pathlen(pb: Problem, gpred: seq<Pack>, src: nat, dst: nat) returns (len: nat)
      requires m.Valid() && pb.adj == m.Adj() && WellPosed(pb) && GraphOk(pb, gpred)
      requires src == pb.source && Known(gpred, dst)
      ensures len <= gpred[dst].dist.value
      ensures exists q :: Connects(pb.adj, q, src, dst) && AlongPreds(gpred, q) && q.Cost() == len
      ensures forall q :: Connects(pb.adj, q, src, dst) && AlongPreds(gpred, q) ==> q.Cost() == len
    {
      var curr := dst;
      len := 0;
      ghost var q := Here(dst);
      while curr != src
        invariant Known(gpred, curr) && Connects(pb.adj, q, curr, dst) && AlongPreds(gpred, q) && q.Cost() == len
        invariant len + gpred[curr].dist.value <= gpred[dst].dist.value
        decreases gpred[curr].dist.value
      {
        assert Explained(pb.adj, gpred, curr);
        var pred: nat := gpred[curr].pred;
        ghost var w :| HasEdge(pb.adj, pred, curr, w) && gpred[pred].dist.value + w <= gpred[curr].dist.value;
        m.WeightOfEdge(pred, curr, w);
        assert w > 0 by { PositiveEdge(pb, pred, curr, w); }
        var step := m.WeightBetween(curr, pred);
        len := len + step.value;
        ghost var first := Then(Here(pred), Edge(curr, w));
        JoinIsAWalk(pb.adj, first, q);
        JoinAlongPreds(gpred, first, q);
        q := Join(first, q);
        curr := pred;
      }
      forall r | Connects(pb.adj, r, src, dst) && AlongPreds(gpred, r) ensures r.Cost() == len {
        ChainIsUnique(m, pb, gpred, q, r);
      }
    }
  }

  lemma {:induction false} JoinAlongPreds(gpred: seq<Pack>, p: Walk, q: Walk)
    requires AlongPreds(gpred, p) && AlongPreds(gpred, q) && p.End() == q.Start()
    ensures AlongPreds(gpred, Join(p, q)) && Join(p, q).End() == q.End()
  {
    match q
    case Here(_) =>
    case Then(r, _) => JoinAlongPreds(gpred, p, r);
  }

  /** The predecessors determine the walk: a grid has no loops and no parallel edges. */
  lemma {:induction false} ChainIsUnique(m: Map, pb: Problem, gpred: seq<Pack>, q: Walk, r: Walk)
    requires m.Valid() && pb.adj == m.Adj() && WellPosed(pb) && GraphOk(pb, gpred) && q.End() == r.End()
    requires q.In(pb.adj) && q.Start() == pb.source && AlongPreds(gpred, q)
    requires r.In(pb.adj) && r.Start() == pb.source && AlongPreds(gpred, r)
    ensures q == r
    decreases q
  {
    if q.Then? { SourceIsNoTarget(m, pb, gpred, q); }
    if r.Then? { SourceIsNoTarget(m, pb, gpred, r); }
    if q.Then? && r.Then? {
      var u, x := q.before.End(), q.End();
      assert q.edge == Edge(x, q.edge.weight) && r.edge == Edge(x, r.edge.weight);
      WalkStaysInside(pb.adj, q);
      m.WeightOfEdge(u, x, q.edge.weight);
      m.WeightOfEdge(u, x, r.edge.weight);
      ChainIsUnique(m, pb, gpred, q.before, r.before);
    }
  }

  lemma SourceIsNoTarget(m: Map, pb: Problem, gpred: seq<Pack>, q: Walk)
    requires m.Valid() && pb.adj == m.Adj() && WellPosed(pb) && GraphOk(pb, gpred)
    requires q.In(pb.adj) && q.Then? && AlongPreds(gpred, q)
    ensures q.End() != pb.source
  {
    if q.End() == pb.source {
      assert q.edge == Edge(pb.source, q.edge.weight) && q.before.End() == pb.source;
      m.WeightOfEdge(pb.source, pb.source, q.edge.weight);
      PositiveEdge(pb, pb.source, pb.source, q.edge.weight);
    }
  }

  lemma PositiveEdge(pb: Problem, u: nat, v: nat, w: nat)
    requires WellPosed(pb) && HasEdge(pb.adj, u, v, w)
    ensures w > 0
  {
    var i :| 0 <= i < |pb.adj[u]| && pb.adj[u][i] == Edge(v, w);
  }

  /** The list of u lies between its mark and the next one. */
  ghost predicate SliceAt(m: Map, list: seq<Edge>, marks: seq<nat>, u: nat)
    requires m.Valid() && u < |m.vertices| && u + 1 < |marks|
  {
    marks[u] <= marks[u + 1] <= |list| && list[marks[u]..marks[u + 1]] == m.Around(u, 8)
  }

  ghost predicate Sliced(m: Map, list: seq<Edge>, marks: seq<nat>, v: nat)
    requires m.Valid() && v <= |m.vertices|
  {
    && |marks| == v + 1 && marks[v] == |list|
    && forall u {:trigger SliceAt(m, list, marks, u)} :: 0 <= u < v ==> SliceAt(m, list, marks, u)
  }

  lemma SlicedGrows(m: Map, before: seq<Edge>, marks: seq<nat>, list: seq<Edge>, v: nat)
    requires m.Valid() && v < |m.vertices| && Sliced(m, before, marks, v) && list == before + m.Around(v, 8)
    ensures Sliced(m, list, marks + [|list|], v + 1)
  {
    forall u: nat | u < v + 1 ensures SliceAt(m, list, marks + [|list|], u) {
      if u < v {
        assert SliceAt(m, before, marks, u);
        assert list[marks[u]..marks[u + 1]] == before[marks[u]..marks[u + 1]];
      } else {
        assert list[|before|..|list|] == m.Around(v, 8);
      }
    }
  }
}
