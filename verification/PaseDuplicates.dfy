/** PASE never changes the key of a multimap entry; it inserts another one.  How many
    entries a vertex collects that way, in every interleaving. */
module PaseDuplicates {
  import opened Graphs
  import opened PaseModel

  /** An entry is inserted only when its vertex has come closer. */
  ghost predicate KeysFall(es: seq<Entry>) {
    forall e, f :: e in es && f in es && e.vertex == f.vertex && e.id < f.id ==> f.key < e.key
  }

  lemma FewerFall(es: seq<Entry>, fs: seq<Entry>)
    requires KeysFall(es) && forall e :: e in fs ==> e in es
    ensures KeysFall(fs)
  {
  }

  lemma InsertFalls(es: seq<Entry>, x: Entry)
    requires Ordered(es) && KeysFall(es)
    requires forall y :: y in es ==> y.id < x.id && (y.vertex == x.vertex ==> x.key < y.key)
    ensures KeysFall(Insert(es, x))
  {
    hide Ordered, Insert;
    InsertOk(es, x);
  }

  lemma RelaxOneFalls(pb: Problem, b: Board, v: nat, vdist: nat, e: Edge)
    requires BoardOk(pb, b) && KeysFall(b.entries)
    ensures KeysFall(RelaxOne(pb, b, v, vdist, e).entries)
  {
    hide KeysFall, Insert, Ordered, VertexOk;
    if RelaxOne(pb, b, v, vdist, e) != b {
      var x := Entry(vdist + e.weight + pb.h(e.target, pb.dest), e.target, b.nextId);
      forall y | y in b.entries ensures y.id < x.id && (y.vertex == x.vertex ==> x.key < y.key) {
        assert EntryOk(pb, b, y);
      }
      InsertFalls(b.entries, x);
    }
  }

  lemma {:induction false} RelaxAllFalls(pb: Problem, b: Board, v: nat, vdist: nat, es: seq<Edge>)
    requires WellPosed(pb) && BoardOk(pb, b) && KeysFall(b.entries)
    requires v < |pb.adj| && (forall e :: e in es ==> e in pb.adj[v]) && Achieved(pb.adj, pb.source, v, vdist)
    ensures KeysFall(RelaxAll(pb, b, v, vdist, es).entries)
  {
    if es != [] {
      hide BoardOk, WellPosed, Achieved, RelaxOne, Improves;
      var front := es[..|es| - 1];
      RelaxAllFalls(pb, b, v, vdist, front);
      RelaxAllKeepsBoard(pb, b, v, vdist, front);
      RelaxOneFalls(pb, RelaxAll(pb, b, v, vdist, front), v, vdist, es[|es| - 1]);
    }
  }

  lemma StepFalls(pb: Problem, s: View, t: View, w: nat)
    requires WellPosed(pb) && Inv(pb, s) && Step(pb, s, t, w) && KeysFall(s.board.entries)
    ensures KeysFall(t.board.entries)
  {
    if Relaxes(pb, s, t, w) {
      RelaxesFalls(pb, s, t, w);
    } else {
      forall k: nat | k <= |s.board.entries|
        ensures forall e :: e in PurgeUpTo(s.board.entries, k, s.board.states) ==> e in s.board.entries
      {
        PurgeUpToOk(s.board.entries, k, s.board.states);
      }
      FewerFall(s.board.entries, t.board.entries);
    }
  }

  lemma RelaxesFalls(pb: Problem, s: View, t: View, w: nat)
    requires WellPosed(pb) && Inv(pb, s) && Relaxes(pb, s, t, w) && KeysFall(s.board.entries)
    ensures KeysFall(t.board.entries)
  {
    assert HoldOk(pb, s.board, s.workers[w]);
    var entry, vdist := s.workers[w].entry, s.workers[w].vdist;
    var r := RelaxAll(pb, s.board, entry.vertex, vdist, pb.adj[entry.vertex]);
    RelaxAllKeepsBoard(pb, s.board, entry.vertex, vdist, pb.adj[entry.vertex]);
    RelaxAllFalls(pb, s.board, entry.vertex, vdist, pb.adj[entry.vertex]);
    hide Inv, WellPosed, Relaxes;
    EraseOk(r.entries, entry.id);
    FewerFall(r.entries, Erase(r.entries, entry.id));
  }

  lemma {:induction false} RunFalls(pb: Problem, trace: seq<View>, i: nat)
    requires WellPosed(pb) && Run(pb, trace) && i < |trace|
    ensures KeysFall(trace[i].board.entries)
  {
    if i > 0 {
      RunFalls(pb, trace, i - 1);
      RunKeepsInv(pb, trace, i - 1);
      assert Next(pb, trace[i - 1], trace[i - 1 + 1]);
      hide KeysFall, Inv, Step, WellPosed;
      var w :| Step(pb, trace[i - 1], trace[i], w);
      StepFalls(pb, trace[i - 1], trace[i], w);
    }
  }

  /** Main theorem: in every state of every run exactly one entry of an unexpanded,
      discovered vertex has the key that its distance gives, and it is the last one
      inserted; the others are stale, with larger keys. */
  lemma OneEntryIsCurrent(pb: Problem, trace: seq<View>, i: nat, v: nat) returns (e: Entry)
    requires WellPosed(pb) && Run(pb, trace) && i < |trace|
    requires v < |trace[i].board.states|
    requires trace[i].board.states[v].g.Some? && !trace[i].board.states[v].isExpanded
    ensures e in trace[i].board.entries && e.vertex == v
    ensures e.key == trace[i].board.states[v].g.value + pb.h(v, pb.dest)
    ensures forall f :: f in trace[i].board.entries && f.vertex == v && f != e ==> f.id < e.id && f.key > e.key
  {
    RunFalls(pb, trace, i);
    RunKeepsInv(pb, trace, i);
    var b := trace[i].board;
    assert VertexOk(pb, b, v) && Queued(pb, b, v);
    e :| e in b.entries && e.vertex == v && e.key == b.states[v].g.value + pb.h(v, pb.dest);
    forall f | f in b.entries && f.vertex == v && f != e ensures f.id < e.id && f.key > e.key {
      IdsAreDistinct(b.entries, e, f);
      assert EntryOk(pb, b, f);
    }
  }
}
