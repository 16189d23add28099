/** Discovered work is never lost, and a quiescent search has expanded everything. */
module PwsaCoverage {
  import opened Graphs
  import opened PredecessorPaths
  import opened PwsaModel
  import opened PwsaProtocol
  import opened PwsaStealing
  import opened PwsaSearch

  ghost predicate HasVertex(items: multiset<Item>, x: nat) {
    exists it :: it in items && it.v == x
  }

  /** A worker that has popped x, or has just shortened its distance. */
  predicate PcCarries(pb: Problem, pc: Pc, x: nat) {
    ((pc.Popped? || pc.Claiming?) && pc.v == x)
    || (pc.Discovered? && pc.v < |pb.adj| && pc.i < |pb.adj[pc.v]| && pb.adj[pc.v][pc.i].target == x)
  }

  ghost predicate Carries(pb: Problem, s: View, w: nat, x: nat)
    requires Sizes(pb, s) && w < pb.workers
  {
    HasVertex(WorkAt(s, w), x) || PcCarries(pb, s.workers[w].pc, x)
  }

  /** x is expanded, in some frontier or slot, or in a worker's hands. */
  ghost predicate NotLost(pb: Problem, s: View, x: nat)
    requires Sizes(pb, s) && x < |pb.adj|
  {
    s.expanded[x] || exists w :: 0 <= w < pb.workers && Carries(pb, s, w, x)
  }

  /** The worker is expanding x and has not come to edge j yet. */
  predicate PcExpands(pc: Pc, x: nat, j: nat) {
    (pc.Reading? && pc.v == x) || ((pc.Relaxing? || pc.Updating? || pc.Discovered?) && pc.v == x && pc.i <= j)
  }

  ghost predicate EdgeDone(pb: Problem, s: View, x: nat, j: nat)
    requires Sizes(pb, s) && x < |pb.adj| && j < |pb.adj[x]|
  {
    || Known(s.gpred, pb.adj[x][j].target)
    || exists w :: 0 <= w < pb.workers && PcExpands(s.workers[w].pc, x, j)
  }

  ghost predicate CoverInv(pb: Problem, s: View) {
    && Sizes(pb, s)
    && (forall x :: 0 <= x < |pb.adj| && Known(s.gpred, x) ==> NotLost(pb, s, x))
    && (forall x, j :: 0 <= x < |pb.adj| && 0 <= j < |pb.adj[x]| && x != pb.dest && s.expanded[x] ==>
          EdgeDone(pb, s, x, j))
    && (pb.dest < |pb.adj| && s.expanded[pb.dest] ==>
          s.isDone || exists w :: 0 <= w < pb.workers && s.workers[w].pc == Found)
  }

  ghost predicate SearchInv(pb: Problem, s: View) {
    ProtoInv(pb, s) && PathInv(pb, s) && CoverInv(pb, s)
  }

  lemma InitialCover(pb: Problem, s: View)
    requires WellPosed(pb) && Initial(pb, s)
    ensures CoverInv(pb, s)
  {
    assert Item(pb.h(pb.source), pb.source) in WorkAt(s, pb.leader);
    assert Carries(pb, s, pb.leader, pb.source);
  }

  // ---------- frames ----------

  /** Nothing that others carry or expand is touched; w itself passes on what it
      carried, and finishes the edges it leaves. */
  ghost predicate PassedOn(pb: Problem, s: View, r: View, w: nat)
    requires Sizes(pb, s) && Sizes(pb, r) && w < pb.workers
  {
    && (forall v :: 0 <= v < pb.workers && v != w ==> r.workers[v].pc == s.workers[v].pc)
    && (forall x :: 0 <= x < |pb.adj| && s.expanded[x] ==> r.expanded[x])
    && (forall x :: 0 <= x < |pb.adj| && Known(s.gpred, x) ==> Known(r.gpred, x))
    && (s.isDone ==> r.isDone)
    && (forall v, x :: 0 <= v < pb.workers && 0 <= x < |pb.adj| && Carries(pb, s, v, x) ==> NotLost(pb, r, x))
    && (forall x, j :: 0 <= x < |pb.adj| && 0 <= j < |pb.adj[x]| && PcExpands(s.workers[w].pc, x, j) ==>
          EdgeDone(pb, r, x, j))
    && (s.workers[w].pc == Found ==> r.isDone)
    && (forall x :: 0 <= x < |pb.adj| && Known(r.gpred, x) && !Known(s.gpred, x) ==> NotLost(pb, r, x))
    && (forall x, j :: 0 <= x < |pb.adj| && 0 <= j < |pb.adj[x]| && x != pb.dest && r.expanded[x] && !s.expanded[x] ==>
          EdgeDone(pb, r, x, j))
    && (pb.dest < |pb.adj| && r.expanded[pb.dest] && !s.expanded[pb.dest] ==> r.workers[w].pc == Found)
  }

  lemma PassedOnKeepsCover(pb: Problem, s: View, r: View, w: nat)
    requires CoverInv(pb, s) && Sizes(pb, r) && w < pb.workers && PassedOn(pb, s, r, w)
    ensures CoverInv(pb, r)
  {
    forall x | 0 <= x < |pb.adj| && Known(r.gpred, x) ensures NotLost(pb, r, x) {
      if Known(s.gpred, x) && !s.expanded[x] {
        var v :| 0 <= v < pb.workers && Carries(pb, s, v, x);
      }
    }
    forall x, j | 0 <= x < |pb.adj| && 0 <= j < |pb.adj[x]| && x != pb.dest && r.expanded[x]
      ensures EdgeDone(pb, r, x, j)
    {
      if s.expanded[x] && !Known(s.gpred, pb.adj[x][j].target) {
        assert EdgeDone(pb, s, x, j);
        var v :| 0 <= v < pb.workers && PcExpands(s.workers[v].pc, x, j);
        if v != w { assert PcExpands(r.workers[v].pc, x, j); }
      } else if s.expanded[x] {
        assert Known(r.gpred, pb.adj[x][j].target);
      }
    }
    if pb.dest < |pb.adj| && r.expanded[pb.dest] && !r.isDone {
      if s.expanded[pb.dest] {
        var v :| 0 <= v < pb.workers && s.workers[v].pc == Found;
        assert v != w && r.workers[v].pc == Found;
      } else {
        assert r.workers[w].pc == Found;
      }
    }
  }

  // ---------- stealing ----------

  lemma StealKeepsCover(pb: Problem, s: View, w: nat, a: Action)
    requires WellPosed(pb) && ProtoInv(pb, s) && CoverInv(pb, s) && Enabled(pb, s, w, a) && !IsSearch(a)
    ensures CoverInv(pb, After(pb, s, w, a))
  {
    var r := After(pb, s, w, a);
    StealLocal(pb, s, w, a);
    forall v, x | 0 <= v < pb.workers && 0 <= x < |pb.adj| && HasVertex(WorkAt(s, v), x)
      ensures exists u :: 0 <= u < pb.workers && HasVertex(WorkAt(r, u), x)
    {
      if a.Decide? && s.workers[w].pc.r >= 0 && s.workers[w].pc.sz == 2 {
        SplitKeepsVertex(pb, s, w, a.give, v, x);
      } else {
        SameWork(pb, s, w, a);
        assert HasVertex(WorkAt(r, v), x);
      }
    }
    StolenKeepsCover(pb, s, r, w);
  }

  lemma SplitKeepsVertex(pb: Problem, s: View, w: nat, give: multiset<Item>, v: nat, x: nat)
    requires ProtoInv(pb, s) && Enabled(pb, s, w, Decide(give)) && v < pb.workers && HasVertex(WorkAt(s, v), x)
    requires s.workers[w].pc.r >= 0 && s.workers[w].pc.sz == 2
    ensures exists u :: 0 <= u < pb.workers && HasVertex(WorkAt(After(pb, s, w, Decide(give)), u), x)
  {
    SplitTargetIsEmpty(pb, s, w);
    var r := After(pb, s, w, Decide(give));
    var t: nat := s.workers[w].pc.r;
    assert DebtOk(pb, s, w, t);
    var it :| it in WorkAt(s, v) && it.v == x;
    if v == w && it in give {
      assert it in WorkAt(r, t);
      assert HasVertex(WorkAt(r, t), x);
    } else {
      assert it in WorkAt(r, v);
      assert HasVertex(WorkAt(r, v), x);
    }
  }

  lemma StolenKeepsCover(pb: Problem, s: View, r: View, w: nat)
    requires CoverInv(pb, s) && Sizes(pb, r) && w < pb.workers
    requires r.gpred == s.gpred && r.expanded == s.expanded && r.isDone == s.isDone
    requires OutsideSearch(s.workers[w].pc) && OutsideSearch(r.workers[w].pc)
    requires forall v :: 0 <= v < pb.workers && v != w ==> r.workers[v].pc == s.workers[v].pc
    requires forall v, x :: 0 <= v < pb.workers && 0 <= x < |pb.adj| && HasVertex(WorkAt(s, v), x) ==>
               exists u :: 0 <= u < pb.workers && HasVertex(WorkAt(r, u), x)
    ensures CoverInv(pb, r)
  {
    forall v, x | 0 <= v < pb.workers && 0 <= x < |pb.adj| && Carries(pb, s, v, x) ensures NotLost(pb, r, x) {
      if HasVertex(WorkAt(s, v), x) {
        var u :| 0 <= u < pb.workers && HasVertex(WorkAt(r, u), x);
        assert Carries(pb, r, u, x);
      } else {
        assert Carries(pb, r, v, x);
      }
    }
    PassedOnKeepsCover(pb, s, r, w);
  }

  // ---------- searching ----------

  /** A search step changes w's frontier and program counter only. */
  ghost predicate OwnStep(pb: Problem, s: View, r: View, w: nat) {
    && Sizes(pb, s) && Sizes(pb, r) && w < pb.workers && r.slot == s.slot
    && r.workers == s.workers[w := r.workers[w]]
  }

  lemma OthersKeepCarrying(pb: Problem, s: View, r: View, w: nat)
    requires OwnStep(pb, s, r, w)
    requires forall x :: 0 <= x < |pb.adj| && Carries(pb, s, w, x) ==> NotLost(pb, r, x)
    ensures forall v, x :: 0 <= v < pb.workers && 0 <= x < |pb.adj| && Carries(pb, s, v, x) ==> NotLost(pb, r, x)
  {
    forall v, x | 0 <= v < pb.workers && 0 <= x < |pb.adj| && Carries(pb, s, v, x) ensures NotLost(pb, r, x) {
      if v != w {
        assert WorkAt(r, v) == WorkAt(s, v);
        assert Carries(pb, r, v, x);
      }
    }
  }

  /** w moves within the search body without discovering or expanding anything:
      what it carried is expanded or still carried, what it leaves behind is done. */
  lemma MoveKeepsCover(pb: Problem, s: View, r: View, w: nat)
    requires CoverInv(pb, s) && OwnStep(pb, s, r, w)
    requires r.gpred == s.gpred && r.expanded == s.expanded && (s.isDone ==> r.isDone)
    requires forall x :: HasVertex(WorkAt(s, w), x) ==> HasVertex(WorkAt(r, w), x)
    requires forall x :: 0 <= x < |pb.adj| && PcCarries(pb, s.workers[w].pc, x) ==>
               s.expanded[x] || Carries(pb, r, w, x)
    requires forall x, j :: 0 <= x < |pb.adj| && 0 <= j < |pb.adj[x]| && PcExpands(s.workers[w].pc, x, j) ==>
               PcExpands(r.workers[w].pc, x, j) || Known(s.gpred, pb.adj[x][j].target)
    requires s.workers[w].pc == Found ==> r.isDone
    ensures CoverInv(pb, r)
  {
    forall x | 0 <= x < |pb.adj| && Carries(pb, s, w, x) ensures NotLost(pb, r, x) {
      if !r.expanded[x] { assert Carries(pb, r, w, x); }
    }
    OthersKeepCarrying(pb, s, r, w);
    PassedOnKeepsCover(pb, s, r, w);
  }

  lemma SmallMoveKeepsCover(pb: Problem, s: View, w: nat, a: Action)
    requires WellPosed(pb) && PathInv(pb, s) && CoverInv(pb, s) && Enabled(pb, s, w, a)
    requires a.EndRound? || a.LoadExpanded? || a.ReadDistance? || a.LoadNeighbor? || a.Announce?
    ensures CoverInv(pb, After(pb, s, w, a))
  {
    assert PcKnown(pb, s.gpred, s.workers[w].pc);
    SmallMoveFacts(pb, s, w, a);
    MoveKeepsCover(pb, s, After(pb, s, w, a), w);
  }

  lemma SmallMoveFacts(pb: Problem, s: View, w: nat, a: Action)
    requires Enabled(pb, s, w, a) && PcKnown(pb, s.gpred, s.workers[w].pc)
    requires a.EndRound? || a.LoadExpanded? || a.ReadDistance? || a.LoadNeighbor? || a.Announce?
    ensures var r := After(pb, s, w, a);
            && OwnStep(pb, s, r, w) && r.gpred == s.gpred && r.expanded == s.expanded && (s.isDone ==> r.isDone)
            && WorkAt(r, w) == WorkAt(s, w)
            && (forall x :: 0 <= x < |pb.adj| && PcCarries(pb, s.workers[w].pc, x) ==>
                  s.expanded[x] || PcCarries(pb, r.workers[w].pc, x))
            && (forall x, j :: 0 <= x < |pb.adj| && 0 <= j < |pb.adj[x]| && PcExpands(s.workers[w].pc, x, j) ==>
                  PcExpands(r.workers[w].pc, x, j) || Known(s.gpred, pb.adj[x][j].target))
            && (s.workers[w].pc == Found ==> r.isDone)
  {
  }

  lemma PopKeepsCover(pb: Problem, s: View, w: nat, item: Item)
    requires CoverInv(pb, s) && Enabled(pb, s, w, Pop(item))
    ensures CoverInv(pb, After(pb, s, w, Pop(item)))
  {
    var r := After(pb, s, w, Pop(item));
    forall x | 0 <= x < |pb.adj| && Carries(pb, s, w, x) ensures NotLost(pb, r, x) {
      var it :| it in WorkAt(s, w) && it.v == x;
      if x != item.v { assert it in WorkAt(r, w); }
      assert Carries(pb, r, w, x);
    }
    OthersKeepCarrying(pb, s, r, w);
    PassedOnKeepsCover(pb, s, r, w);
  }

  lemma ExpandKeepsCover(pb: Problem, s: View, w: nat)
    requires CoverInv(pb, s) && Enabled(pb, s, w, CasExpanded)
    ensures CoverInv(pb, After(pb, s, w, CasExpanded))
  {
    var r := After(pb, s, w, CasExpanded);
    assert WorkAt(r, w) == WorkAt(s, w);
    forall x | 0 <= x < |pb.adj| && Carries(pb, s, w, x) ensures NotLost(pb, r, x) {
      if !r.expanded[x] { assert Carries(pb, r, w, x); }
    }
    OthersKeepCarrying(pb, s, r, w);
    forall x, j | 0 <= x < |pb.adj| && 0 <= j < |pb.adj[x]| && x != pb.dest && r.expanded[x] && !s.expanded[x]
      ensures EdgeDone(pb, r, x, j)
    {
      assert PcExpands(r.workers[w].pc, x, j);
    }
    PassedOnKeepsCover(pb, s, r, w);
  }

  lemma CasKeepsCover(pb: Problem, s: View, w: nat, succeeds: bool)
    requires WellPosed(pb) && PathInv(pb, s) && CoverInv(pb, s) && Enabled(pb, s, w, CasNeighbor(succeeds))
    ensures CoverInv(pb, After(pb, s, w, CasNeighbor(succeeds)))
  {
    var r := After(pb, s, w, CasNeighbor(succeeds));
    CasKeepsPath(pb, s, w, succeeds);
    assert WorkAt(r, w) == WorkAt(s, w);
    forall x | 0 <= x < |pb.adj| && Carries(pb, s, w, x) ensures NotLost(pb, r, x) {
      assert Carries(pb, r, w, x);
    }
    OthersKeepCarrying(pb, s, r, w);
    forall x, j | 0 <= x < |pb.adj| && 0 <= j < |pb.adj[x]| && PcExpands(s.workers[w].pc, x, j)
      ensures EdgeDone(pb, r, x, j)
    {
      assert PcExpands(r.workers[w].pc, x, j);
    }
    forall x | 0 <= x < |pb.adj| && Known(r.gpred, x) && !Known(s.gpred, x) ensures NotLost(pb, r, x) {
      assert Carries(pb, r, w, x);
    }
    PassedOnKeepsCover(pb, s, r, w);
  }

  lemma InsertKeepsCover(pb: Problem, s: View, w: nat)
    requires WellPosed(pb) && PathInv(pb, s) && CoverInv(pb, s) && Enabled(pb, s, w, InsertNeighbor)
    ensures CoverInv(pb, After(pb, s, w, InsertNeighbor))
  {
    assert PcKnown(pb, s.gpred, s.workers[w].pc);
    var r := After(pb, s, w, InsertNeighbor);
    assert WorkAt(r, w) == WorkAt(s, w) + Inserted(pb, s, w);
    InsertFacts(pb, s, w);
    MoveKeepsCover(pb, s, r, w);
  }

  lemma InsertFacts(pb: Problem, s: View, w: nat)
    requires Enabled(pb, s, w, InsertNeighbor) && PcKnown(pb, s.gpred, s.workers[w].pc)
    requires WorkAt(After(pb, s, w, InsertNeighbor), w) == WorkAt(s, w) + Inserted(pb, s, w)
    ensures var r := After(pb, s, w, InsertNeighbor);
            && OwnStep(pb, s, r, w) && r.gpred == s.gpred && r.expanded == s.expanded && r.isDone == s.isDone
            && (forall x :: HasVertex(WorkAt(s, w), x) ==> HasVertex(WorkAt(r, w), x))
            && (forall x :: 0 <= x < |pb.adj| && PcCarries(pb, s.workers[w].pc, x) ==>
                  s.expanded[x] || Carries(pb, r, w, x))
            && (forall x, j :: 0 <= x < |pb.adj| && 0 <= j < |pb.adj[x]| && PcExpands(s.workers[w].pc, x, j) ==>
                  PcExpands(r.workers[w].pc, x, j) || Known(s.gpred, pb.adj[x][j].target))
  {
    var r := After(pb, s, w, InsertNeighbor);
    var pc := s.workers[w].pc;
    var y := pb.adj[pc.v][pc.i].target;
    forall x | HasVertex(WorkAt(s, w), x) ensures HasVertex(WorkAt(r, w), x) {
      var it :| it in WorkAt(s, w) && it.v == x;
      assert it in WorkAt(r, w);
    }
    if !s.expanded[y] {
      assert Item(pc.d + pb.adj[pc.v][pc.i].weight + pb.h(y), y) in WorkAt(r, w);
      assert HasVertex(WorkAt(r, w), y);
    }
  }

  lemma ActionKeepsCover(pb: Problem, s: View, w: nat, a: Action)
    requires WellPosed(pb) && SearchInv(pb, s) && Enabled(pb, s, w, a)
    ensures CoverInv(pb, After(pb, s, w, a))
  {
    if a.Pop? {
      PopKeepsCover(pb, s, w, a.item);
    } else if a.CasExpanded? {
      ExpandKeepsCover(pb, s, w);
    } else if a.CasNeighbor? {
      CasKeepsCover(pb, s, w, a.succeeds);
    } else if a.InsertNeighbor? {
      InsertKeepsCover(pb, s, w);
    } else if IsSearch(a) {
      SmallMoveKeepsCover(pb, s, w, a);
    } else {
      StealKeepsCover(pb, s, w, a);
    }
  }

  lemma ActionKeepsSearch(pb: Problem, s: View, w: nat, a: Action)
    requires WellPosed(pb) && SearchInv(pb, s) && Enabled(pb, s, w, a)
    ensures SearchInv(pb, After(pb, s, w, a))
  {
    ActionKeepsProto(pb, s, w, a);
    ActionKeepsPath(pb, s, w, a);
    ActionKeepsCover(pb, s, w, a);
  }

  // ---------- the theorems ----------

  lemma {:induction false} RunKeepsSearch(pb: Problem, trace: seq<View>, i: nat)
    requires WellPosed(pb) && Run(pb, trace) && i < |trace|
    ensures SearchInv(pb, trace[i])
  {
    if i == 0 {
      InitialProto(pb, trace[0]);
      InitialPath(pb, trace[0]);
      InitialCover(pb, trace[0]);
    } else {
      RunKeepsSearch(pb, trace, i - 1);
      assert Next(pb, trace[i - 1], trace[i - 1 + 1]);
      NextKeepsSearch(pb, trace[i - 1], trace[i]);
    }
  }

  lemma NextKeepsSearch(pb: Problem, s: View, r: View)
    requires WellPosed(pb) && SearchInv(pb, s) && Next(pb, s, r)
    ensures SearchInv(pb, r)
  {
    var w, a :| Enabled(pb, s, w, a) && r == After(pb, s, w, a);
    ActionKeepsSearch(pb, s, w, a);
  }

  /** In every reachable state the predecessors of a discovered vertex lead back to
      the source without a cycle, along a walk no longer than the recorded distance. */
  lemma PredecessorsLeadToSource(pb: Problem, trace: seq<View>, i: nat, x: nat) returns (q: Walk)
    requires WellPosed(pb) && Run(pb, trace) && i < |trace| && Known(trace[i].gpred, x)
    ensures Connects(pb.adj, q, pb.source, x) && AlongPreds(trace[i].gpred, q) && Simple(q)
    ensures q.Cost() <= trace[i].gpred[x].dist.value
  {
    RunKeepsSearch(pb, trace, i);
    q := PredecessorPath(pb.adj, pb.source, trace[i].gpred, x);
  }

  /** Discovered work is never lost. */
  lemma DiscoveredIsNotLost(pb: Problem, trace: seq<View>, i: nat, x: nat)
    requires WellPosed(pb) && Run(pb, trace) && i < |trace| && Known(trace[i].gpred, x)
    ensures x < |pb.adj| && Sizes(pb, trace[i]) && NotLost(pb, trace[i], x)
  {
    RunKeepsSearch(pb, trace, i);
  }

  /** All frontiers and slots are empty and no worker is in the search body. */
  ghost predicate Quiescent(pb: Problem, s: View) {
    Sizes(pb, s) && forall w :: 0 <= w < pb.workers ==> WorkAt(s, w) == multiset{} && OutsideSearch(s.workers[w].pc)
  }

  lemma {:induction false} QuiescentExpands(pb: Problem, s: View, q: Walk)
    requires WellPosed(pb) && SearchInv(pb, s) && Quiescent(pb, s) && !s.isDone
    requires q.In(pb.adj) && q.Start() == pb.source
    ensures q.End() < |pb.adj| && s.expanded[q.End()] && q.End() != pb.dest
  {
    WalkStaysInside(pb.adj, q);
    var x := q.End();
    if q.Then? {
      QuiescentExpands(pb, s, q.before);
      var y := q.before.End();
      var j :| 0 <= j < |pb.adj[y]| && pb.adj[y][j] == q.edge;
      assert EdgeDone(pb, s, y, j);
    }
    assert Known(s.gpred, x);
    assert NotLost(pb, s, x);
  }

  /** If everything comes to rest without an announcement, every vertex that can be
      reached has been expanded, and the destination is not among them. */
  lemma QuiescenceIsExhaustive(pb: Problem, trace: seq<View>, i: nat)
    requires WellPosed(pb) && Run(pb, trace) && i < |trace| && Quiescent(pb, trace[i]) && !trace[i].isDone
    ensures forall q: Walk :: q.In(pb.adj) && q.Start() == pb.source ==>
              q.End() < |trace[i].expanded| && trace[i].expanded[q.End()] && q.End() != pb.dest
  {
    RunKeepsSearch(pb, trace, i);
    forall q: Walk | q.In(pb.adj) && q.Start() == pb.source
      ensures q.End() < |trace[i].expanded| && trace[i].expanded[q.End()] && q.End() != pb.dest
    {
      QuiescentExpands(pb, trace[i], q);
    }
  }

  /** The action wins the right to expand x. */
  ghost predicate WinsExpansion(pb: Problem, s: View, w: nat, a: Action, x: nat) {
    Enabled(pb, s, w, a) && a.CasExpanded? && s.workers[w].pc.v == x && !s.expanded[x]
  }

  lemma ExpandedStays(pb: Problem, s: View, w: nat, a: Action, x: nat)
    requires Enabled(pb, s, w, a) && x < |pb.adj| && s.expanded[x]
    ensures After(pb, s, w, a).expanded[x]
  {
  }

  /** No vertex is expanded twice. */
  lemma {:induction false} ExpandedOnce(
      pb: Problem, trace: seq<View>, who: seq<nat>, acts: seq<Action>, j: nat, k: nat, x: nat)
    requires Scheduled(pb, trace, who, acts) && j < k < |who|
    requires WinsExpansion(pb, trace[j], who[j], acts[j], x)
    ensures !WinsExpansion(pb, trace[k], who[k], acts[k], x)
  {
    StaysExpanded(pb, trace, who, acts, j, k, x);
  }

  lemma {:induction false} StaysExpanded(
      pb: Problem, trace: seq<View>, who: seq<nat>, acts: seq<Action>, j: nat, k: nat, x: nat)
    requires Scheduled(pb, trace, who, acts) && j < k <= |who|
    requires WinsExpansion(pb, trace[j], who[j], acts[j], x)
    ensures x < |pb.adj| && |trace[k].expanded| == |pb.adj| && trace[k].expanded[x]
    decreases k
  {
    if k > j + 1 {
      StaysExpanded(pb, trace, who, acts, j, k - 1, x);
      ExpandedStays(pb, trace[k - 1], who[k - 1], acts[k - 1], x);
    }
  }
}
