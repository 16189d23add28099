/** PASE: parallel A* for slow expansions over one shared multimap.

    Workers share the vertex table `states`, the multimap `M` and the flag
    `isDone`.  Every lock-protected section and every unlocked shared access of
    the source is one step; an execution is any interleaving of the steps of any
    number of workers.  Sequential consistency is assumed. */
module PaseModel {
  import opened Graphs

  /** `h` is the two-argument heuristic handed to the search, `weight` the W such
      that h is W times an admissible and consistent estimate. */
  datatype Problem = Problem(adj: Adjacency, source: nat, dest: nat, h: (nat, nat) -> nat, ghost weight: real)

  /** weight * c, written as a sum so that proofs stay linear. */
  ghost function Scaled(weight: real, c: nat): real {
    if c == 0 then 0.0 else Scaled(weight, c - 1) + weight
  }

  lemma {:induction false} ScaledIsProduct(weight: real, c: nat)
    ensures Scaled(weight, c) == weight * c as real
  {
    if c != 0 {
      ScaledIsProduct(weight, c - 1);
      assert c as real == (c - 1) as real + 1.0;
    }
  }

  lemma {:induction false} ScaledAdds(weight: real, c: nat, d: nat)
    ensures Scaled(weight, c + d) == Scaled(weight, c) + Scaled(weight, d)
  {
    if d != 0 { ScaledAdds(weight, c, d - 1); }
  }

  lemma {:induction false} ScaledCovers(weight: real, c: nat)
    requires weight >= 1.0
    ensures Scaled(weight, c) >= c as real
  {
    if c != 0 { ScaledCovers(weight, c - 1); }
  }

  ghost predicate WellPosed(pb: Problem) {
    && ValidGraph(pb.adj) && pb.source < |pb.adj| && pb.dest < |pb.adj|
    && pb.weight >= 1.0
    && (forall r: Walk :: r.In(pb.adj) ==> pb.h(r.Start(), r.End()) as real <= Scaled(pb.weight, r.Cost()))
    && (forall v, i :: 0 <= v < |pb.adj| && 0 <= i < |pb.adj[v]| ==>
          pb.h(v, pb.dest) as real
          <= Scaled(pb.weight, pb.adj[v][i].weight) + pb.h(pb.adj[v][i].target, pb.dest) as real)
  }

  /** `g` is None where the source stores INT_MAX. */
  datatype VertexState = VertexState(isExpanded: bool, beingExpanded: bool, g: Option<nat>, pred: int)

  /** A multimap node; `id` is its identity, which an iterator refers to. */
  datatype Entry = Entry(key: nat, vertex: nat, id: nat)

  datatype Board = Board(states: seq<VertexState>, entries: seq<Entry>, nextId: nat)

  datatype Worker =
    | Idle
    | Claimed(entry: Entry)
    | Expanding(entry: Entry, vdist: nat)
    | Exited

  datatype View = View(board: Board, isDone: bool, workers: seq<Worker>)

  // ---------- the multimap ----------

  ghost predicate Ordered(es: seq<Entry>) {
    forall i, j :: 0 <= i < j < |es| ==> es[i].key <= es[j].key && es[i].id != es[j].id
  }

  /** std::multimap inserts behind the equal keys. */
  function UpperBound(es: seq<Entry>, key: nat): (p: nat)
    ensures p <= |es|
    ensures forall i :: 0 <= i < p ==> es[i].key <= key
    ensures Ordered(es) ==> forall i :: p <= i < |es| ==> key < es[i].key
  {
    if es == [] then 0
    else if es[|es| - 1].key <= key && UpperBound(es[..|es| - 1], key) == |es| - 1 then |es|
    else UpperBound(es[..|es| - 1], key)
  }

  function Insert(es: seq<Entry>, e: Entry): seq<Entry> {
    var p := UpperBound(es, e.key);
    es[..p] + [e] + es[p..]
  }

  function Erase(es: seq<Entry>, id: nat): seq<Entry> {
    if es == [] then []
    else if es[0].id == id then es[1..]
    else [es[0]] + Erase(es[1..], id)
  }

  predicate IsExpanded(states: seq<VertexState>, v: nat) {
    v < |states| && states[v].isExpanded
  }

  /** What is left of a scanned prefix: the scan erases entries of expanded vertices. */
  function Purge(es: seq<Entry>, states: seq<VertexState>): seq<Entry> {
    if es == [] then []
    else Purge(es[..|es| - 1], states)
         + (if IsExpanded(states, es[|es| - 1].vertex) then [] else [es[|es| - 1]])
  }

  function PurgeUpTo(es: seq<Entry>, k: nat, states: seq<VertexState>): seq<Entry>
    requires k <= |es|
  {
    Purge(es[..k], states) + es[k..]
  }

  // ---------- the steps ----------

  ghost predicate Independent(pb: Problem, states: seq<VertexState>, u: nat, v: nat) {
    && u < |states| && v < |states| && states[u].g.Some? && states[v].g.Some?
    && states[u].g.value + pb.h(u, v) >= states[v].g.value
  }

  ghost predicate Claimable(pb: Problem, b: Board, i: nat) {
    && i < |b.entries|
    && var v := b.entries[i].vertex;
    && v < |b.states| && !b.states[v].isExpanded && !b.states[v].beingExpanded
    && forall e :: e in Purge(b.entries[..i], b.states) ==> Independent(pb, b.states, e.vertex, v)
  }

  function Claim(b: Board, i: nat): Board
    requires i < |b.entries| && b.entries[i].vertex < |b.states|
  {
    var v := b.entries[i].vertex;
    b.(states := b.states[v := b.states[v].(beingExpanded := true)],
       entries := PurgeUpTo(b.entries, i, b.states))
  }

  function RelaxOne(pb: Problem, b: Board, v: nat, vdist: nat, e: Edge): Board {
    if e.target >= |b.states| then b
    else
      var nbrdist := vdist + e.weight;
      var prior := b.states[e.target];
      if prior.g.Some? && prior.g.value <= nbrdist then b
      else Board(b.states[e.target := prior.(g := Some(nbrdist), pred := v)],
                 Insert(b.entries, Entry(nbrdist + pb.h(e.target, pb.dest), e.target, b.nextId)),
                 b.nextId + 1)
  }

  function RelaxAll(pb: Problem, b: Board, v: nat, vdist: nat, es: seq<Edge>): Board {
    if es == [] then b
    else RelaxOne(pb, RelaxAll(pb, b, v, vdist, es[..|es| - 1]), v, vdist, es[|es| - 1])
  }

  function Finish(pb: Problem, b: Board, entry: Entry, vdist: nat): Board
    requires entry.vertex < |pb.adj| && entry.vertex < |b.states|
  {
    var v := entry.vertex;
    var r := RelaxAll(pb, b, v, vdist, pb.adj[v]);
    if v < |r.states|
    then r.(states := r.states[v := r.states[v].(isExpanded := true)], entries := Erase(r.entries, entry.id))
    else r
  }

  ghost predicate FindsNothing(pb: Problem, s: View, t: View, w: nat) {
    && w < |s.workers| && s.workers[w].Idle?
    && exists k: nat :: k <= |s.board.entries|
         && t == s.(board := s.board.(entries := PurgeUpTo(s.board.entries, k, s.board.states)))
  }

  ghost predicate Claims(pb: Problem, s: View, t: View, w: nat) {
    && w < |s.workers| && s.workers[w].Idle?
    && exists i: nat :: Claimable(pb, s.board, i)
         && t == s.(board := Claim(s.board, i), workers := s.workers[w := Claimed(s.board.entries[i])])
  }

  ghost predicate Arrives(pb: Problem, s: View, t: View, w: nat) {
    && w < |s.workers| && s.workers[w].Claimed? && s.workers[w].entry.vertex == pb.dest
    && t == s.(isDone := true, workers := s.workers[w := Exited])
  }

  /** The read of g outside the lock. */
  ghost predicate ReadsG(pb: Problem, s: View, t: View, w: nat) {
    && w < |s.workers| && s.workers[w].Claimed? && s.workers[w].entry.vertex != pb.dest
    && var entry := s.workers[w].entry;
    && entry.vertex < |s.board.states| && s.board.states[entry.vertex].g.Some?
    && t == s.(workers := s.workers[w := Expanding(entry, s.board.states[entry.vertex].g.value)])
  }

  ghost predicate Relaxes(pb: Problem, s: View, t: View, w: nat) {
    && w < |s.workers| && s.workers[w].Expanding?
    && var entry := s.workers[w].entry;
    && entry.vertex < |pb.adj| && entry.vertex < |s.board.states|
    && t == s.(board := Finish(pb, s.board, entry, s.workers[w].vdist), workers := s.workers[w := Idle])
  }

  ghost predicate Leaves(pb: Problem, s: View, t: View, w: nat) {
    w < |s.workers| && s.workers[w].Idle? && s.isDone && t == s.(workers := s.workers[w := Exited])
  }

  ghost predicate Step(pb: Problem, s: View, t: View, w: nat) {
    || FindsNothing(pb, s, t, w) || Claims(pb, s, t, w) || Arrives(pb, s, t, w)
    || ReadsG(pb, s, t, w) || Relaxes(pb, s, t, w) || Leaves(pb, s, t, w)
  }

  ghost predicate Initial(pb: Problem, s: View) {
    && pb.source < |pb.adj|
    && |s.board.states| == |pb.adj|
    && (forall v :: 0 <= v < |pb.adj| ==>
          s.board.states[v] == VertexState(false, false, if v == pb.source then Some(0) else None, -1))
    && s.board.entries == [Entry(pb.h(pb.source, pb.dest), pb.source, 0)]
    && s.board.nextId == 1
    && !s.isDone
    && forall w :: 0 <= w < |s.workers| ==> s.workers[w] == Idle
  }

  // ---------- the invariant ----------

  /** d is at most W times the cost of every walk from the source to v. */
  ghost predicate Near(pb: Problem, v: nat, d: nat) {
    forall q: Walk :: Connects(pb.adj, q, pb.source, v) ==> d as real <= Scaled(pb.weight, q.Cost())
  }

  ghost predicate EntryOk(pb: Problem, b: Board, e: Entry) {
    && e.vertex < |b.states| && e.id < b.nextId
    && b.states[e.vertex].g.Some?
    && e.key >= b.states[e.vertex].g.value + pb.h(e.vertex, pb.dest)
  }

  ghost predicate Queued(pb: Problem, b: Board, v: nat)
    requires v < |b.states| && b.states[v].g.Some?
  {
    exists e :: e in b.entries && e.vertex == v && e.key == b.states[v].g.value + pb.h(v, pb.dest)
  }

  /** Every out-neighbour of v has a distance that v's expansion justifies. */
  ghost predicate Settled(pb: Problem, b: Board, v: nat)
    requires v < |pb.adj|
  {
    forall i, q: Walk :: 0 <= i < |pb.adj[v]| && Connects(pb.adj, q, pb.source, v) ==>
      && var e := pb.adj[v][i];
      && e.target < |b.states| && b.states[e.target].g.Some?
      && b.states[e.target].g.value as real <= Scaled(pb.weight, q.Cost()) + e.weight as real
  }

  ghost predicate VertexOk(pb: Problem, b: Board, v: nat)
    requires v < |b.states| == |pb.adj|
  {
    var x := b.states[v];
    && (x.g.Some? ==> Achieved(pb.adj, pb.source, v, x.g.value))
    && (x.g.Some? && !x.isExpanded ==> Queued(pb, b, v))
    && (x.isExpanded ==> x.beingExpanded && Settled(pb, b, v))
    && (x.beingExpanded ==> x.g.Some? && Near(pb, v, x.g.value))
  }

  ghost predicate BoardOk(pb: Problem, b: Board) {
    && |b.states| == |pb.adj|
    && pb.source < |pb.adj| && b.states[pb.source].g == Some(0)
    && Ordered(b.entries)
    && (forall e :: e in b.entries ==> EntryOk(pb, b, e))
    && (forall v :: 0 <= v < |b.states| ==> VertexOk(pb, b, v))
  }

  /** What a worker that has claimed a vertex can rely on: its iterator is alive,
      its vertex is not yet expanded, and the distance it has read is justified. */
  ghost predicate HoldOk(pb: Problem, b: Board, wk: Worker) {
    wk.Claimed? || wk.Expanding? ==>
      && wk.entry in b.entries
      && wk.entry.vertex < |b.states|
      && b.states[wk.entry.vertex].beingExpanded && !b.states[wk.entry.vertex].isExpanded
      && (wk.Expanding? ==>
            && wk.entry.vertex != pb.dest
            && Near(pb, wk.entry.vertex, wk.vdist)
            && Achieved(pb.adj, pb.source, wk.entry.vertex, wk.vdist))
  }

  predicate Holds(wk: Worker, v: nat) {
    (wk.Claimed? || wk.Expanding?) && wk.entry.vertex == v
  }

  /** A vertex under expansion is in some worker's hands, unless it is the destination. */
  ghost predicate Owned(pb: Problem, s: View, v: nat)
    requires v < |s.board.states|
  {
    s.board.states[v].beingExpanded && !s.board.states[v].isExpanded ==>
      (exists w :: 0 <= w < |s.workers| && Holds(s.workers[w], v)) || (v == pb.dest && s.isDone)
  }

  ghost predicate Inv(pb: Problem, s: View) {
    && BoardOk(pb, s.board)
    && (forall w :: 0 <= w < |s.workers| ==> HoldOk(pb, s.board, s.workers[w]))
    && HoldersDistinct(s.workers)
    && !IsExpanded(s.board.states, pb.dest)
    && (forall v :: 0 <= v < |s.board.states| ==> Owned(pb, s, v))
    && (s.isDone ==> pb.dest < |s.board.states| && s.board.states[pb.dest].beingExpanded)
  }

  // ---------- multimap lemmas ----------

  lemma InsertOk(es: seq<Entry>, e: Entry)
    requires Ordered(es) && forall x :: x in es ==> x.id != e.id
    ensures Ordered(Insert(es, e))
    ensures forall x :: x in Insert(es, e) <==> x in es || x == e
  {
    var p := UpperBound(es, e.key);
    OrderedSplits(es, p);
    forall x, y | x in es[..p] && y in [e] ensures NoLater(x, y) {
    }
    OrderedJoins(es[..p], [e]);
    forall x, y | x in es[..p] + [e] && y in es[p..] ensures NoLater(x, y) {
      assert x != e ==> x in es[..p];
    }
    OrderedJoins(es[..p] + [e], es[p..]);
  }

  ghost predicate NoLater(x: Entry, y: Entry) {
    x.key <= y.key && x.id != y.id
  }

  ghost predicate AllNoLater(front: seq<Entry>, back: seq<Entry>) {
    forall x, y {:trigger NoLater(x, y)} :: x in front && y in back ==> NoLater(x, y)
  }

  lemma OrderedSplits(es: seq<Entry>, k: nat)
    requires Ordered(es) && k <= |es|
    ensures Ordered(es[..k]) && Ordered(es[k..]) && AllNoLater(es[..k], es[k..]) && es == es[..k] + es[k..]
  {
    forall x, y | x in es[..k] && y in es[k..] ensures NoLater(x, y) {
      var i :| 0 <= i < k && es[i] == x;
      var j :| k <= j < |es| && es[j] == y;
    }
  }

  lemma KeysRise(es: seq<Entry>, i: nat, j: nat)
    requires Ordered(es) && i <= j < |es|
    ensures es[i].key <= es[j].key
  {
  }

  lemma OrderedJoins(front: seq<Entry>, back: seq<Entry>)
    requires Ordered(front) && Ordered(back) && AllNoLater(front, back)
    ensures Ordered(front + back)
  {
    var r := front + back;
    forall i, j | 0 <= i < j < |r| ensures r[i].key <= r[j].key && r[i].id != r[j].id {
      if i < |front| <= j { assert NoLater(front[i], back[j - |front|]); }
    }
  }

  lemma SomeNoLater(front: seq<Entry>, back: seq<Entry>, f: seq<Entry>, b: seq<Entry>)
    requires AllNoLater(front, back) && (forall x :: x in f ==> x in front) && (forall y :: y in b ==> y in back)
    ensures AllNoLater(f, b)
  {
    forall x, y | x in f && y in b ensures NoLater(x, y) {
    }
  }

  lemma {:induction false} EraseOk(es: seq<Entry>, id: nat)
    requires Ordered(es)
    ensures Ordered(Erase(es, id))
    ensures forall x :: x in Erase(es, id) <==> x in es && x.id != id
  {
    if es != [] {
      hide Ordered;
      OrderedSplits(es, 1);
      EraseOk(es[1..], id);
      SomeNoLater(es[..1], es[1..], es[..1], Erase(es[1..], id));
      OrderedJoins(es[..1], Erase(es[1..], id));
      assert es[..1] == [es[0]];
      forall y | y in es[1..] ensures y.id != es[0].id {
        assert es[0] in es[..1] && NoLater(es[0], y);
      }
    }
  }

  lemma {:induction false} PurgeOk(es: seq<Entry>, states: seq<VertexState>)
    requires Ordered(es)
    ensures Ordered(Purge(es, states))
    ensures forall x :: x in Purge(es, states) <==> x in es && !IsExpanded(states, x.vertex)
  {
    if es != [] {
      hide Ordered, AllNoLater, IsExpanded;
      var k := |es| - 1;
      OrderedSplits(es, k);
      PurgeOk(es[..k], states);
      SomeNoLater(es[..k], es[k..], Purge(es[..k], states), es[k..]);
      OrderedJoins(Purge(es[..k], states), es[k..]);
      assert es[k..] == [es[k]];
    }
  }

  lemma PurgeUpToOk(es: seq<Entry>, k: nat, states: seq<VertexState>)
    requires Ordered(es) && k <= |es|
    ensures Ordered(PurgeUpTo(es, k, states))
    ensures forall x :: x in PurgeUpTo(es, k, states) ==> x in es
    ensures forall x :: x in es && !IsExpanded(states, x.vertex) ==> x in PurgeUpTo(es, k, states)
  {
    hide Ordered, AllNoLater, IsExpanded;
    OrderedSplits(es, k);
    PurgeOk(es[..k], states);
    SomeNoLater(es[..k], es[k..], Purge(es[..k], states), es[k..]);
    OrderedJoins(Purge(es[..k], states), es[k..]);
  }

  lemma PurgeKeepsBoard(pb: Problem, b: Board, k: nat)
    requires BoardOk(pb, b) && k <= |b.entries|
    ensures BoardOk(pb, b.(entries := PurgeUpTo(b.entries, k, b.states)))
    ensures forall e :: e in b.entries && !IsExpanded(b.states, e.vertex) ==> e in PurgeUpTo(b.entries, k, b.states)
  {
    PurgeUpToOk(b.entries, k, b.states);
    var c := b.(entries := PurgeUpTo(b.entries, k, b.states));
    forall v | 0 <= v < |c.states| ensures VertexOk(pb, c, v) {
      assert VertexOk(pb, b, v);
      if c.states[v].g.Some? && !c.states[v].isExpanded {
        var e :| e in b.entries && e.vertex == v && e.key == b.states[v].g.value + pb.h(v, pb.dest);
        assert e in c.entries;
      }
      if c.states[v].isExpanded { assert Settled(pb, c, v); }
    }
    forall e | e in c.entries ensures EntryOk(pb, c, e) { assert EntryOk(pb, b, e); }
  }

  // ---------- claiming: the bounded-suboptimality argument ----------

  /** On any walk from the source to an unexpanded vertex there is a first
      unexpanded vertex u; its distance is already justified by the part of the
      walk before it. */
  lemma {:induction false} FirstUnexpanded(pb: Problem, b: Board, p: Walk) returns (u: nat, rest: Walk)
    requires WellPosed(pb) && BoardOk(pb, b)
    requires p.In(pb.adj) && p.Start() == pb.source && !IsExpanded(b.states, p.End())
    ensures u < |b.states| && !b.states[u].isExpanded && b.states[u].g.Some?
    ensures Connects(pb.adj, rest, u, p.End()) && rest.Cost() <= p.Cost()
    ensures b.states[u].g.value as real <= Scaled(pb.weight, p.Cost() - rest.Cost())
  {
    WalkStaysInside(pb.adj, p);
    match p
    case Here(v) =>
      u, rest := v, p;
    case Then(q, e) =>
      if IsExpanded(b.states, q.End()) {
        u, rest := e.target, Here(e.target);
        var v := q.End();
        assert VertexOk(pb, b, v) && Settled(pb, b, v);
        var i :| 0 <= i < |pb.adj[v]| && pb.adj[v][i] == e;
        assert Connects(pb.adj, q, pb.source, v);
        ScaledAdds(pb.weight, q.Cost(), e.weight);
        ScaledCovers(pb.weight, e.weight);
      } else {
        var r;
        u, r := FirstUnexpanded(pb, b, q);
        rest := Then(r, e);
      }
  }

  /** Consistency along an edge extends to consistency along a walk. */
  lemma {:induction false} ConsistentAlong(pb: Problem, r: Walk)
    requires WellPosed(pb) && r.In(pb.adj)
    ensures pb.h(r.Start(), pb.dest) as real <= Scaled(pb.weight, r.Cost()) + pb.h(r.End(), pb.dest) as real
  {
    match r
    case Here(_) =>
    case Then(q, e) =>
      ConsistentAlong(pb, q);
      var v := q.End();
      var i :| 0 <= i < |pb.adj[v]| && pb.adj[v][i] == e;
      ScaledAdds(pb.weight, q.Cost(), e.weight);
  }

  /** An unexpanded vertex u waiting in the multimap bounds the key of, or was
      tested against, the claimable entry; either way it bounds its distance. */
  lemma WaitingVertexBounds(pb: Problem, b: Board, i: nat, u: nat, rest: Walk)
    requires WellPosed(pb) && BoardOk(pb, b) && Claimable(pb, b, i)
    requires u < |b.states| && !b.states[u].isExpanded && b.states[u].g.Some? && Queued(pb, b, u)
    requires Connects(pb.adj, rest, u, b.entries[i].vertex) && b.states[b.entries[i].vertex].g.Some?
    requires EntryOk(pb, b, b.entries[i])
    ensures b.states[b.entries[i].vertex].g.value as real
         <= b.states[u].g.value as real + Scaled(pb.weight, rest.Cost())
  {
    hide VertexOk, Ordered;
    var e := b.entries[i];
    var x :| x in b.entries && x.vertex == u && x.key == b.states[u].g.value + pb.h(u, pb.dest);
    var j :| 0 <= j < |b.entries| && b.entries[j] == x;
    if j < i {
      OrderedSplits(b.entries, i);
      PurgeOk(b.entries[..i], b.states);
      assert x == b.entries[..i][j];
      assert Independent(pb, b.states, u, e.vertex);
      assert pb.h(u, e.vertex) as real <= Scaled(pb.weight, rest.Cost());
    } else {
      KeysRise(b.entries, i, j);
      ConsistentAlong(pb, rest);
    }
  }

  /** The heart of PASE: an entry that passes the independence test, even a stale
      duplicate, belongs to a vertex whose distance is within W of every walk. */
  lemma ClaimableIsNear(pb: Problem, b: Board, i: nat)
    requires WellPosed(pb) && BoardOk(pb, b) && Claimable(pb, b, i)
    ensures b.states[b.entries[i].vertex].g.Some?
    ensures Near(pb, b.entries[i].vertex, b.states[b.entries[i].vertex].g.value)
  {
    hide Ordered, Settled, Independent, Purge;
    var v := b.entries[i].vertex;
    assert EntryOk(pb, b, b.entries[i]);
    var d := b.states[v].g.value;
    forall p: Walk | Connects(pb.adj, p, pb.source, v) ensures d as real <= Scaled(pb.weight, p.Cost()) {
      var u, rest := FirstUnexpanded(pb, b, p);
      assert VertexOk(pb, b, u) && Queued(pb, b, u);
      WaitingVertexBounds(pb, b, i, u, rest);
      ScaledAdds(pb.weight, p.Cost() - rest.Cost(), rest.Cost());
    }
  }

  /** The test itself: a vertex that nobody holds may be claimed exactly when its distance
      is at most that of every unexpanded vertex before it plus the heuristic between. */
  lemma ClaimableExactly(pb: Problem, b: Board, i: nat)
    requires BoardOk(pb, b) && i < |b.entries|
    ensures forall j :: 0 <= j <= i ==>
              b.entries[j].vertex < |b.states| && b.states[b.entries[j].vertex].g.Some?
    ensures Claimable(pb, b, i) <==>
              var v := b.entries[i].vertex;
              && !b.states[v].isExpanded && !b.states[v].beingExpanded
              && forall j :: 0 <= j < i && !b.states[b.entries[j].vertex].isExpanded ==>
                   b.states[b.entries[j].vertex].g.value + pb.h(b.entries[j].vertex, v) >= b.states[v].g.value
  {
    OrderedSplits(b.entries, i);
    PurgeOk(b.entries[..i], b.states);
    assert forall j :: 0 <= j <= i ==> EntryOk(pb, b, b.entries[j]);
    forall j | 0 <= j < i && !b.states[b.entries[j].vertex].isExpanded && Claimable(pb, b, i)
      ensures b.states[b.entries[j].vertex].g.value + pb.h(b.entries[j].vertex, b.entries[i].vertex)
              >= b.states[b.entries[i].vertex].g.value
    {
      assert b.entries[..i][j] == b.entries[j] && b.entries[j] in Purge(b.entries[..i], b.states);
      assert Independent(pb, b.states, b.entries[j].vertex, b.entries[i].vertex);
    }
  }

  lemma ClaimKeepsBoard(pb: Problem, b: Board, i: nat)
    requires WellPosed(pb) && BoardOk(pb, b) && Claimable(pb, b, i)
    ensures BoardOk(pb, Claim(b, i))
    ensures b.entries[i] in Claim(b, i).entries
    ensures forall e :: e in b.entries && !IsExpanded(b.states, e.vertex) ==> e in Claim(b, i).entries
  {
    ClaimableIsNear(pb, b, i);
    PurgeKeepsBoard(pb, b, i);
    var m := b.(entries := PurgeUpTo(b.entries, i, b.states));
    var c := Claim(b, i);
    forall e | e in c.entries ensures EntryOk(pb, c, e) { assert EntryOk(pb, m, e); }
    forall v | 0 <= v < |c.states| ensures VertexOk(pb, c, v) {
      assert VertexOk(pb, m, v);
      if c.states[v].g.Some? && !c.states[v].isExpanded {
        assert Queued(pb, m, v);
        var e :| e in m.entries && e.vertex == v && e.key == m.states[v].g.value + pb.h(v, pb.dest);
        assert e in c.entries;
      }
      if c.states[v].isExpanded {
        assert Settled(pb, m, v);
        assert Settled(pb, c, v);
      }
    }
  }

  // ---------- relaxing ----------

  /** b' has the same flags, no larger distances, and all entries of b. */
  ghost predicate Improves(b: Board, c: Board) {
    && |c.states| == |b.states|
    && (forall v :: 0 <= v < |b.states| ==>
          && c.states[v].isExpanded == b.states[v].isExpanded
          && c.states[v].beingExpanded == b.states[v].beingExpanded
          && (b.states[v].g.Some? ==> c.states[v].g.Some? && c.states[v].g.value <= b.states[v].g.value))
    && (forall e :: e in b.entries ==> e in c.entries)
  }

  lemma IdIsFresh(pb: Problem, b: Board, y: Entry)
    requires EntryOk(pb, b, y)
    ensures y.id != b.nextId
  {
  }

  /** Lowering one distance keeps the keys of the entries above their vertices. */
  lemma RelaxKeepsEntry(pb: Problem, b: Board, v: nat, vdist: nat, e: Edge, y: Entry)
    requires RelaxOne(pb, b, v, vdist, e) != b && e.target < |b.states|
    requires EntryOk(pb, b, y) || y == Entry(vdist + e.weight + pb.h(e.target, pb.dest), e.target, b.nextId)
    ensures EntryOk(pb, RelaxOne(pb, b, v, vdist, e), y)
  {
  }

  lemma RelaxOneKeepsBoard(pb: Problem, b: Board, v: nat, vdist: nat, e: Edge)
    requires WellPosed(pb) && BoardOk(pb, b)
    requires v < |pb.adj| && e in pb.adj[v] && Achieved(pb.adj, pb.source, v, vdist)
    ensures var c := RelaxOne(pb, b, v, vdist, e);
            BoardOk(pb, c) && Improves(b, c)
            && e.target < |c.states| && c.states[e.target].g.Some?
            && c.states[e.target].g.value <= vdist + e.weight
  {
    var c := RelaxOne(pb, b, v, vdist, e);
    var i :| 0 <= i < |pb.adj[v]| && pb.adj[v][i] == e;
    var t := e.target;
    if c != b {
      hide EntryOk, VertexOk, Achieved, WellPosed, Ordered, Insert, Improves;
      var x := Entry(vdist + e.weight + pb.h(t, pb.dest), t, b.nextId);
      forall y | y in b.entries ensures y.id != x.id { IdIsFresh(pb, b, y); }
      InsertOk(b.entries, x);
      RelaxImproves(pb, b, v, vdist, e, x);
      forall y | y in c.entries ensures EntryOk(pb, c, y) {
        RelaxKeepsEntry(pb, b, v, vdist, e, y);
      }
      forall u | 0 <= u < |c.states| ensures VertexOk(pb, c, u) {
        RelaxKeepsVertex(pb, b, v, vdist, e, x, u);
      }
    }
  }

  lemma RelaxImproves(pb: Problem, b: Board, v: nat, vdist: nat, e: Edge, x: Entry)
    requires RelaxOne(pb, b, v, vdist, e) != b && e.target < |b.states|
    requires x == Entry(vdist + e.weight + pb.h(e.target, pb.dest), e.target, b.nextId)
    requires forall y :: y in Insert(b.entries, x) <==> y in b.entries || y == x
    ensures Improves(b, RelaxOne(pb, b, v, vdist, e))
  {
  }

  lemma RelaxKeepsVertex(pb: Problem, b: Board, v: nat, vdist: nat, e: Edge, x: Entry, u: nat)
    requires WellPosed(pb) && BoardOk(pb, b)
    requires v < |pb.adj| && e in pb.adj[v] && Achieved(pb.adj, pb.source, v, vdist)
    requires u < |b.states| && e.target < |b.states|
    requires x.vertex == e.target && x.key == vdist + e.weight + pb.h(e.target, pb.dest)
    requires var c := RelaxOne(pb, b, v, vdist, e);
             && c != b && Improves(b, c) && x in c.entries
             && c.states[e.target].g == Some(vdist + e.weight)
    ensures VertexOk(pb, RelaxOne(pb, b, v, vdist, e), u)
  {
    var c := RelaxOne(pb, b, v, vdist, e);
    assert VertexOk(pb, b, u);
    if u == e.target {
      AchievedOn(pb.adj, pb.source, v, vdist, e);
      assert Queued(pb, c, u);
    } else if c.states[u].g.Some? && !c.states[u].isExpanded {
      var y :| y in b.entries && y.vertex == u && y.key == b.states[u].g.value + pb.h(u, pb.dest);
      assert y in c.entries;
    }
    if c.states[u].isExpanded {
      assert Settled(pb, b, u);
      forall i, q: Walk | 0 <= i < |pb.adj[u]| && Connects(pb.adj, q, pb.source, u)
        ensures var f := pb.adj[u][i];
                f.target < |c.states| && c.states[f.target].g.Some?
                && c.states[f.target].g.value as real <= Scaled(pb.weight, q.Cost()) + f.weight as real
      {
        var f := pb.adj[u][i];
        assert b.states[f.target].g.value as real <= Scaled(pb.weight, q.Cost()) + f.weight as real;
        assert c.states[f.target].g.value <= b.states[f.target].g.value;
      }
    }
  }

  lemma {:induction false} RelaxAllKeepsBoard(pb: Problem, b: Board, v: nat, vdist: nat, es: seq<Edge>)
    requires WellPosed(pb) && BoardOk(pb, b)
    requires v < |pb.adj| && (forall e :: e in es ==> e in pb.adj[v]) && Achieved(pb.adj, pb.source, v, vdist)
    ensures var c := RelaxAll(pb, b, v, vdist, es);
            BoardOk(pb, c) && Improves(b, c)
            && forall e :: e in es ==> e.target < |c.states| && c.states[e.target].g.Some?
                                       && c.states[e.target].g.value <= vdist + e.weight
  {
    if es != [] {
      var front := es[..|es| - 1];
      RelaxAllKeepsBoard(pb, b, v, vdist, front);
      RelaxOneKeepsBoard(pb, RelaxAll(pb, b, v, vdist, front), v, vdist, es[|es| - 1]);
      assert es == front + [es[|es| - 1]];
    }
  }

  lemma IdsAreDistinct(es: seq<Entry>, x: Entry, y: Entry)
    requires Ordered(es) && x in es && y in es && x != y
    ensures x.id != y.id
  {
    var i :| 0 <= i < |es| && es[i] == x;
    var j :| 0 <= j < |es| && es[j] == y;
    assert i < j || j < i;
  }

  lemma RelaxedIsSettled(pb: Problem, b: Board, v: nat, vdist: nat)
    requires |b.states| == |pb.adj| && v < |pb.adj| && Near(pb, v, vdist)
    requires forall e :: e in pb.adj[v] ==> e.target < |b.states| && b.states[e.target].g.Some?
                                            && b.states[e.target].g.value <= vdist + e.weight
    ensures Settled(pb, b, v)
  {
    forall i, q: Walk | 0 <= i < |pb.adj[v]| && Connects(pb.adj, q, pb.source, v)
      ensures var e := pb.adj[v][i];
              e.target < |b.states| && b.states[e.target].g.Some?
              && b.states[e.target].g.value as real <= Scaled(pb.weight, q.Cost()) + e.weight as real
    {
      assert pb.adj[v][i] in pb.adj[v];
    }
  }

  ghost predicate FinishedFrom(b: Board, c: Board, entry: Entry) {
    && |c.states| == |b.states|
    && (forall u :: 0 <= u < |b.states| ==>
          && c.states[u].beingExpanded == b.states[u].beingExpanded
          && c.states[u].isExpanded == (u == entry.vertex || b.states[u].isExpanded)
          && (b.states[u].g.Some? ==> c.states[u].g.Some? && c.states[u].g.value <= b.states[u].g.value))
    && (forall e :: e in b.entries && e.id != entry.id ==> e in c.entries)
  }

  lemma FinishKeepsBoard(pb: Problem, b: Board, entry: Entry, vdist: nat)
    requires WellPosed(pb) && BoardOk(pb, b)
    requires entry in b.entries && entry.vertex < |b.states| && b.states[entry.vertex].beingExpanded
    requires Near(pb, entry.vertex, vdist) && Achieved(pb.adj, pb.source, entry.vertex, vdist)
    ensures BoardOk(pb, Finish(pb, b, entry, vdist)) && FinishedFrom(b, Finish(pb, b, entry, vdist), entry)
  {
    var v := entry.vertex;
    var r := RelaxAll(pb, b, v, vdist, pb.adj[v]);
    RelaxAllKeepsBoard(pb, b, v, vdist, pb.adj[v]);
    RelaxedIsSettled(pb, r, v, vdist);
    SettleKeepsBoard(pb, r, entry);
    EraseOk(r.entries, entry.id);
  }

  lemma SettleKeepsBoard(pb: Problem, r: Board, entry: Entry)
    requires BoardOk(pb, r) && entry in r.entries && entry.vertex < |r.states|
    requires r.states[entry.vertex].beingExpanded && Settled(pb, r, entry.vertex)
    ensures BoardOk(pb, r.(states := r.states[entry.vertex := r.states[entry.vertex].(isExpanded := true)],
                           entries := Erase(r.entries, entry.id)))
  {
    var v := entry.vertex;
    var c := r.(states := r.states[v := r.states[v].(isExpanded := true)], entries := Erase(r.entries, entry.id));
    EraseOk(r.entries, entry.id);
    forall e | e in c.entries ensures EntryOk(pb, c, e) { assert EntryOk(pb, r, e); }
    forall u | 0 <= u < |c.states| ensures VertexOk(pb, c, u) {
      assert VertexOk(pb, r, u);
      if c.states[u].g.Some? && !c.states[u].isExpanded {
        assert Queued(pb, r, u);
        var e :| e in r.entries && e.vertex == u && e.key == r.states[u].g.value + pb.h(u, pb.dest);
        IdsAreDistinct(r.entries, e, entry);
        assert e in c.entries;
      }
      if c.states[u].isExpanded {
        assert Settled(pb, r, u);
        assert Settled(pb, c, u);
      }
    }
  }

  // ---------- every step keeps the invariant ----------

  lemma InitialOk(pb: Problem, s: View)
    requires WellPosed(pb) && Initial(pb, s)
    ensures Inv(pb, s)
  {
    var b := s.board;
    assert Connects(pb.adj, Here(pb.source), pb.source, pb.source);
    assert b.entries[0] in b.entries;
    forall v | 0 <= v < |b.states| ensures VertexOk(pb, b, v) {
      if v == pb.source {
        assert Achieved(pb.adj, pb.source, v, 0) by { assert Here(pb.source).Cost() == 0; }
        assert Queued(pb, b, v);
      }
    }
  }

  lemma OwnersKept(pb: Problem, s: View, t: View, w: nat)
    requires |s.board.states| == |t.board.states| && w < |s.workers| == |t.workers|
    requires forall x :: 0 <= x < |s.workers| && x != w ==> t.workers[x] == s.workers[x]
    requires s.isDone ==> t.isDone
    requires forall v :: 0 <= v < |s.board.states| ==> Owned(pb, s, v)
    requires forall v :: 0 <= v < |s.board.states| && t.board.states[v].beingExpanded
                           && !t.board.states[v].isExpanded ==>
               (s.board.states[v].beingExpanded && !s.board.states[v].isExpanded && !Holds(s.workers[w], v))
               || Holds(t.workers[w], v) || (v == pb.dest && t.isDone)
    ensures forall v :: 0 <= v < |t.board.states| ==> Owned(pb, t, v)
  {
    forall v | 0 <= v < |t.board.states| && t.board.states[v].beingExpanded && !t.board.states[v].isExpanded
      ensures (exists x :: 0 <= x < |t.workers| && Holds(t.workers[x], v)) || (v == pb.dest && t.isDone)
    {
      if !Holds(t.workers[w], v) && !(v == pb.dest && t.isDone) {
        assert Owned(pb, s, v);
        var x :| 0 <= x < |s.workers| && Holds(s.workers[x], v);
        assert Holds(t.workers[x], v);
      }
    }
  }

  lemma StepKeepsInv(pb: Problem, s: View, t: View, w: nat)
    requires WellPosed(pb) && Inv(pb, s) && Step(pb, s, t, w)
    ensures Inv(pb, t)
  {
    assert HoldOk(pb, s.board, s.workers[w]);
    if Claims(pb, s, t, w) {
      ClaimKeepsInv(pb, s, t, w);
    } else if Relaxes(pb, s, t, w) {
      RelaxKeepsInv(pb, s, t, w);
    } else {
      if FindsNothing(pb, s, t, w) {
        var k: nat :| k <= |s.board.entries|
          && t == s.(board := s.board.(entries := PurgeUpTo(s.board.entries, k, s.board.states)));
        PurgeKeepsBoard(pb, s.board, k);
      } else if ReadsG(pb, s, t, w) {
        assert VertexOk(pb, s.board, s.workers[w].entry.vertex);
      }
      forall x | 0 <= x < |t.workers| ensures HoldOk(pb, t.board, t.workers[x]) {
        assert HoldOk(pb, s.board, s.workers[x]);
      }
      OwnersKept(pb, s, t, w);
    }
  }

  ghost predicate HoldersDistinct(workers: seq<Worker>) {
    forall w, x, v :: 0 <= w < x < |workers| && Holds(workers[w], v) ==> !Holds(workers[x], v)
  }

  lemma NewHolderIsDistinct(workers: seq<Worker>, w: nat, e: Entry)
    requires w < |workers| && HoldersDistinct(workers)
    requires forall x :: 0 <= x < |workers| ==> !Holds(workers[x], e.vertex)
    ensures HoldersDistinct(workers[w := Claimed(e)])
  {
    var t := workers[w := Claimed(e)];
    forall x, y, v | 0 <= x < y < |t| && Holds(t[x], v) ensures !Holds(t[y], v) {
      if x == w { assert v == e.vertex; } else { assert Holds(workers[x], v); }
    }
  }

  lemma ClaimKeepsHold(pb: Problem, b: Board, i: nat, wk: Worker)
    requires BoardOk(pb, b) && Claimable(pb, b, i) && HoldOk(pb, b, wk)
    requires forall e :: e in b.entries && !IsExpanded(b.states, e.vertex) ==> e in Claim(b, i).entries
    ensures HoldOk(pb, Claim(b, i), wk) && !Holds(wk, b.entries[i].vertex)
  {
  }

  lemma ClaimFacts(pb: Problem, b: Board, i: nat)
    requires Claimable(pb, b, i) && b.entries[i] in Claim(b, i).entries
    ensures var c := Claim(b, i);
            && |c.states| == |b.states| && HoldOk(pb, c, Claimed(b.entries[i]))
            && IsExpanded(c.states, pb.dest) == IsExpanded(b.states, pb.dest)
            && (pb.dest < |b.states| && b.states[pb.dest].beingExpanded ==> c.states[pb.dest].beingExpanded)
  {
  }

  lemma ClaimKeepsInv(pb: Problem, s: View, t: View, w: nat)
    requires WellPosed(pb) && Inv(pb, s) && Claims(pb, s, t, w)
    ensures Inv(pb, t)
  {
    hide BoardOk, HoldOk, Claim, Owned, HoldersDistinct, Holds, IsExpanded, PurgeUpTo;
    var i: nat :| Claimable(pb, s.board, i)
      && t == s.(board := Claim(s.board, i), workers := s.workers[w := Claimed(s.board.entries[i])]);
    var e := s.board.entries[i];
    ClaimKeepsBoard(pb, s.board, i);
    ClaimFacts(pb, s.board, i);
    forall x | 0 <= x < |s.workers| ensures HoldOk(pb, t.board, s.workers[x]) && !Holds(s.workers[x], e.vertex) {
      ClaimKeepsHold(pb, s.board, i, s.workers[x]);
    }
    NewHolderIsDistinct(s.workers, w, e);
    ClaimKeepsOwners(pb, s, t, w, i);
  }

  lemma ClaimKeepsOwners(pb: Problem, s: View, t: View, w: nat, i: nat)
    requires Inv(pb, s) && w < |s.workers| && s.workers[w].Idle? && Claimable(pb, s.board, i)
    requires t == s.(board := Claim(s.board, i), workers := s.workers[w := Claimed(s.board.entries[i])])
    ensures forall v :: 0 <= v < |t.board.states| ==> Owned(pb, t, v)
  {
    assert Holds(t.workers[w], s.board.entries[i].vertex);
    OwnersKept(pb, s, t, w);
  }

  lemma RelaxKeepsInv(pb: Problem, s: View, t: View, w: nat)
    requires WellPosed(pb) && Inv(pb, s) && Relaxes(pb, s, t, w)
    ensures Inv(pb, t)
  {
    var entry := s.workers[w].entry;
    assert HoldOk(pb, s.board, s.workers[w]);
    FinishKeepsBoard(pb, s.board, entry, s.workers[w].vdist);
    forall x | 0 <= x < |t.workers| ensures HoldOk(pb, t.board, t.workers[x]) {
      assert HoldOk(pb, s.board, s.workers[x]);
      if x != w && (t.workers[x].Claimed? || t.workers[x].Expanding?) {
        var other := s.workers[x].entry;
        assert Holds(s.workers[w], entry.vertex) && Holds(s.workers[x], other.vertex);
        assert other.vertex != entry.vertex;
        IdsAreDistinct(s.board.entries, other, entry);
      }
    }
    OwnersKept(pb, s, t, w);
  }

  // ---------- whole runs ----------

  ghost predicate Next(pb: Problem, s: View, t: View) {
    exists w :: Step(pb, s, t, w)
  }

  ghost predicate Run(pb: Problem, trace: seq<View>) {
    && |trace| > 0 && Initial(pb, trace[0])
    && forall i :: 0 <= i < |trace| - 1 ==> Next(pb, trace[i], trace[i + 1])
  }

  lemma {:induction false} RunKeepsInv(pb: Problem, trace: seq<View>, i: nat)
    requires WellPosed(pb) && Run(pb, trace) && i < |trace|
    ensures Inv(pb, trace[i])
  {
    if i == 0 {
      InitialOk(pb, trace[0]);
    } else {
      RunKeepsInv(pb, trace, i - 1);
      assert Next(pb, trace[i - 1], trace[i - 1 + 1]);
      var w :| Step(pb, trace[i - 1], trace[i], w);
      StepKeepsInv(pb, trace[i - 1], trace[i], w);
    }
  }

  /** d is the cost of a walk to v and within the factor W of the cost of every walk to v. */
  ghost predicate WithinFactor(pb: Problem, v: nat, d: nat) {
    && Achieved(pb.adj, pb.source, v, d)
    && forall q: Walk :: Connects(pb.adj, q, pb.source, v) ==> d as real <= pb.weight * q.Cost() as real
  }

  lemma NearMeans(pb: Problem, v: nat, d: nat)
    requires Near(pb, v, d) && Achieved(pb.adj, pb.source, v, d)
    ensures WithinFactor(pb, v, d)
  {
    hide Connects, Achieved;
    forall q: Walk | Connects(pb.adj, q, pb.source, v) ensures d as real <= pb.weight * q.Cost() as real {
      ScaledIsProduct(pb.weight, q.Cost());
    }
  }

  /** Main theorem: in every interleaving, a vertex that some worker has claimed
      has a distance that is the cost of a real walk and at most W times the cost
      of every walk from the source; once the search is done this holds of the
      destination. */
  lemma BoundedSuboptimality(pb: Problem, trace: seq<View>, i: nat, v: nat)
    requires WellPosed(pb) && Run(pb, trace) && i < |trace| && v < |pb.adj|
    ensures |trace[i].board.states| == |pb.adj|
    ensures trace[i].board.states[v].beingExpanded || (v == pb.dest && trace[i].isDone) ==>
              && trace[i].board.states[v].g.Some?
              && WithinFactor(pb, v, trace[i].board.states[v].g.value)
  {
    RunKeepsInv(pb, trace, i);
    assert VertexOk(pb, trace[i].board, v);
    if trace[i].board.states[v].beingExpanded {
      NearMeans(pb, v, trace[i].board.states[v].g.value);
    }
  }

  /** Flags are never taken back and distances never rise. */
  ghost predicate Later(s: View, t: View) {
    && |s.board.states| == |t.board.states|
    && forall v :: 0 <= v < |s.board.states| ==>
         && (s.board.states[v].beingExpanded ==> t.board.states[v].beingExpanded)
         && (s.board.states[v].isExpanded ==> t.board.states[v].isExpanded)
         && (s.board.states[v].g.Some? ==> t.board.states[v].g.Some?
                                           && t.board.states[v].g.value <= s.board.states[v].g.value)
  }

  lemma LaterOn(s: View, m: View, r: View)
    requires Later(s, m) && Later(m, r)
    ensures Later(s, r)
  {
  }

  lemma StepGoesForward(pb: Problem, s: View, t: View, w: nat)
    requires WellPosed(pb) && Inv(pb, s) && Step(pb, s, t, w)
    ensures Later(s, t)
  {
    if Relaxes(pb, s, t, w) {
      assert HoldOk(pb, s.board, s.workers[w]);
      FinishKeepsBoard(pb, s.board, s.workers[w].entry, s.workers[w].vdist);
    }
  }

  lemma {:induction false} RunGoesForward(pb: Problem, trace: seq<View>, i: nat, j: nat)
    requires WellPosed(pb) && Run(pb, trace) && i <= j < |trace|
    ensures Later(trace[i], trace[j])
  {
    if i < j {
      hide Inv, Step, Initial, Later;
      RunGoesForward(pb, trace, i, j - 1);
      RunKeepsInv(pb, trace, j - 1);
      assert Next(pb, trace[j - 1], trace[j - 1 + 1]);
      var w :| Step(pb, trace[j - 1], trace[j], w);
      StepGoesForward(pb, trace[j - 1], trace[j], w);
      LaterOn(trace[i], trace[j - 1], trace[j]);
    }
  }

  /** The worker w claims v in the step from s to t. */
  ghost predicate ClaimsVertex(pb: Problem, s: View, t: View, w: nat, v: nat) {
    Claims(pb, s, t, w) && t.workers[w].Claimed? && t.workers[w].entry.vertex == v
  }

  /** No vertex is ever claimed twice, by the same worker or by another. */
  lemma NoReexpansion(pb: Problem, trace: seq<View>, i: nat, j: nat, w: nat, x: nat, v: nat)
    requires WellPosed(pb) && Run(pb, trace) && i < j < |trace| - 1
    requires ClaimsVertex(pb, trace[i], trace[i + 1], w, v)
    ensures !ClaimsVertex(pb, trace[j], trace[j + 1], x, v)
  {
    RunKeepsInv(pb, trace, i);
    RunGoesForward(pb, trace, i + 1, j);
  }

  /** With W = 1 a claimed vertex already has its exact distance, and no later
      relaxation changes it. */
  lemma ExactWhenUnweighted(pb: Problem, trace: seq<View>, i: nat, j: nat, v: nat)
    requires WellPosed(pb) && pb.weight == 1.0 && Run(pb, trace) && i <= j < |trace| && v < |pb.adj|
    ensures |trace[i].board.states| == |trace[j].board.states| == |pb.adj|
    ensures trace[i].board.states[v].beingExpanded ==>
              && trace[j].board.states[v].g == trace[i].board.states[v].g && trace[i].board.states[v].g.Some?
              && forall q: Walk :: Connects(pb.adj, q, pb.source, v) ==> trace[i].board.states[v].g.value <= q.Cost()
  {
    RunKeepsInv(pb, trace, j);
    RunGoesForward(pb, trace, i, j);
    RunKeepsInv(pb, trace, i);
    if trace[i].board.states[v].beingExpanded {
      NearIsExact(pb, trace[i].board, v);
      assert VertexOk(pb, trace[j].board, v);
    }
  }

  lemma NearIsExact(pb: Problem, b: Board, v: nat)
    requires pb.weight == 1.0 && v < |b.states| == |pb.adj| && VertexOk(pb, b, v) && b.states[v].beingExpanded
    ensures forall q: Walk :: Connects(pb.adj, q, pb.source, v) ==> b.states[v].g.value <= q.Cost()
  {
    forall q: Walk | Connects(pb.adj, q, pb.source, v) ensures b.states[v].g.value <= q.Cost() {
      ScaledIsProduct(1.0, q.Cost());
    }
  }

  /** The iterator kept across the unlocked expansion is never dangling: its node
      is still in the multimap after the relaxations, when the worker erases it. */
  lemma ErasedIteratorIsAlive(pb: Problem, trace: seq<View>, i: nat, w: nat)
    requires WellPosed(pb) && Run(pb, trace) && i < |trace|
    requires w < |trace[i].workers| && trace[i].workers[w].Expanding?
    ensures var wk := trace[i].workers[w];
            wk.entry.vertex < |pb.adj|
            && wk.entry in RelaxAll(pb, trace[i].board, wk.entry.vertex, wk.vdist, pb.adj[wk.entry.vertex]).entries
  {
    RunKeepsInv(pb, trace, i);
    var wk := trace[i].workers[w];
    assert HoldOk(pb, trace[i].board, wk);
    RelaxAllKeepsBoard(pb, trace[i].board, wk.entry.vertex, wk.vdist, pb.adj[wk.entry.vertex]);
  }

  lemma {:induction false} FirstUnexpandedEntry(b: Board, k: nat) returns (i: nat)
    requires k < |b.entries| && !IsExpanded(b.states, b.entries[k].vertex)
    ensures i <= k && !IsExpanded(b.states, b.entries[i].vertex)
    ensures forall j :: 0 <= j < i ==> IsExpanded(b.states, b.entries[j].vertex)
    decreases k
  {
    if j: nat :| j < k && !IsExpanded(b.states, b.entries[j].vertex) {
      i := FirstUnexpandedEntry(b, j);
    } else {
      i := k;
    }
  }

  /** No worker holds a vertex, and no entry can be claimed. */
  ghost predicate Spent(pb: Problem, s: View) {
    && (forall w, v :: 0 <= w < |s.workers| ==> !Holds(s.workers[w], v))
    && forall i :: !Claimable(pb, s.board, i)
  }

  /** An entry that is not expanded yet makes some entry claimable. */
  lemma SpentMeansExpanded(pb: Problem, s: View)
    requires WellPosed(pb) && Inv(pb, s) && Spent(pb, s) && !s.isDone
    ensures forall e :: e in s.board.entries ==> IsExpanded(s.board.states, e.vertex)
  {
    forall e | e in s.board.entries ensures IsExpanded(s.board.states, e.vertex) {
      if !IsExpanded(s.board.states, e.vertex) {
        var k :| 0 <= k < |s.board.entries| && s.board.entries[k] == e;
        var i := FirstUnexpandedEntry(s.board, k);
        assert EntryOk(pb, s.board, s.board.entries[i]);
        assert Owned(pb, s, s.board.entries[i].vertex);
        PurgeOk(s.board.entries[..i], s.board.states);
        assert Claimable(pb, s.board, i);
      }
    }
  }

  /** When there is nothing left to do, the search is done if and only if the
      destination can be reached. */
  lemma SpentIsDoneExactly(pb: Problem, s: View)
    requires WellPosed(pb) && Inv(pb, s) && Spent(pb, s)
    ensures s.isDone <==> exists p: Walk :: Connects(pb.adj, p, pb.source, pb.dest)
  {
    assert VertexOk(pb, s.board, pb.dest);
    if s.isDone {
      assert Achieved(pb.adj, pb.source, pb.dest, s.board.states[pb.dest].g.value);
    } else if p: Walk :| Connects(pb.adj, p, pb.source, pb.dest) {
      SpentMeansExpanded(pb, s);
      assert Owned(pb, s, pb.dest);
      assert !s.board.states[pb.dest].isExpanded by { assert !IsExpanded(s.board.states, pb.dest); }
      var u, _ := FirstUnexpanded(pb, s.board, p);
      assert VertexOk(pb, s.board, u) && Queued(pb, s.board, u);
    }
  }

  /** Main theorem: in no run is an unreachable destination announced, and no worker
      ever leaves. */
  lemma NeverDone(pb: Problem, trace: seq<View>, i: nat)
    requires WellPosed(pb) && Run(pb, trace) && i < |trace|
    requires !exists p: Walk :: Connects(pb.adj, p, pb.source, pb.dest)
    ensures !trace[i].isDone && forall w :: 0 <= w < |trace[i].workers| ==> !trace[i].workers[w].Exited?
  {
    RunKeepsInv(pb, trace, i);
    if trace[i].isDone {
      BoundedSuboptimality(pb, trace, i, pb.dest);
    }
    LeavingMeansDone(pb, trace, i);
  }

  lemma {:induction false} LeavingMeansDone(pb: Problem, trace: seq<View>, i: nat)
    requires Run(pb, trace) && i < |trace|
    ensures forall w :: 0 <= w < |trace[i].workers| && trace[i].workers[w].Exited? ==> trace[i].isDone
  {
    if i > 0 {
      LeavingMeansDone(pb, trace, i - 1);
      assert Next(pb, trace[i - 1], trace[i - 1 + 1]);
    }
  }

  /** From a state with nothing left to do that is not done, every step leads to such
      a state again: the workers scan in vain. */
  lemma ScanFindsNothingAgain(pb: Problem, s: View, t: View, w: nat)
    requires WellPosed(pb) && Inv(pb, s) && Spent(pb, s) && !s.isDone && Step(pb, s, t, w)
    ensures Spent(pb, t) && !t.isDone && t.workers == s.workers && t.board.states == s.board.states
  {
    assert !s.workers[w].Idle? ==> s.workers[w].Exited? || Holds(s.workers[w], s.workers[w].entry.vertex);
    assert FindsNothing(pb, s, t, w);
    var k: nat :| k <= |s.board.entries|
      && t == s.(board := s.board.(entries := PurgeUpTo(s.board.entries, k, s.board.states)));
    SpentMeansExpanded(pb, s);
    PurgeUpToOk(s.board.entries, k, s.board.states);
    forall i: nat ensures !Claimable(pb, t.board, i) {
      if i < |t.board.entries| { assert t.board.entries[i] in s.board.entries; }
    }
  }

  /** w is looking for an entry, and can look again. */
  ghost predicate ScansOn(pb: Problem, s: View, w: nat) {
    w < |s.workers| && s.workers[w] == Idle && exists t :: Step(pb, s, t, w)
  }

  lemma NextScan(pb: Problem, s: View, t: View)
    requires WellPosed(pb) && Inv(pb, s) && Spent(pb, s) && !s.isDone && Next(pb, s, t)
    ensures Spent(pb, t) && !t.isDone && t.board.states == s.board.states
  {
    hide Inv, Spent, Step;
    var w :| Step(pb, s, t, w);
    ScanFindsNothingAgain(pb, s, t, w);
  }

  lemma {:induction false} StuckStays(pb: Problem, trace: seq<View>, i: nat, j: nat)
    requires WellPosed(pb) && Run(pb, trace) && i <= j < |trace| && Spent(pb, trace[i]) && !trace[i].isDone
    ensures Spent(pb, trace[j]) && !trace[j].isDone && trace[j].board.states == trace[i].board.states
  {
    if i < j {
      assert Next(pb, trace[j - 1], trace[j - 1 + 1]);
      hide Inv, Spent, Next, Run;
      StuckStays(pb, trace, i, j - 1);
      RunKeepsInv(pb, trace, j - 1);
      NextScan(pb, trace[j - 1], trace[j]);
    }
  }

  /** Main theorem: a run that has come to such a state stays there for good, and
      every worker goes on scanning, since another step is always possible. */
  lemma StuckForever(pb: Problem, trace: seq<View>, i: nat, j: nat)
    requires WellPosed(pb) && Run(pb, trace) && i <= j < |trace| && Spent(pb, trace[i]) && !trace[i].isDone
    ensures Spent(pb, trace[j]) && !trace[j].isDone && trace[j].board.states == trace[i].board.states
    ensures forall w :: 0 <= w < |trace[j].workers| ==> ScansOn(pb, trace[j], w)
  {
    hide Spent, Run, ScansOn;
    StuckStays(pb, trace, i, j);
    LeavingMeansDone(pb, trace, j);
    AllScanOn(pb, trace[j]);
  }

  lemma AllScanOn(pb: Problem, s: View)
    requires Spent(pb, s) && forall w :: 0 <= w < |s.workers| ==> !s.workers[w].Exited?
    ensures forall w :: 0 <= w < |s.workers| ==> ScansOn(pb, s, w)
  {
    var t := s.(board := s.board.(entries := PurgeUpTo(s.board.entries, |s.board.entries|, s.board.states)));
    forall w | 0 <= w < |s.workers| ensures ScansOn(pb, s, w) {
      assert !s.workers[w].Idle? ==> Holds(s.workers[w], s.workers[w].entry.vertex);
      assert FindsNothing(pb, s, t, w) && Step(pb, s, t, w);
    }
  }
}
