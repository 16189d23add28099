/** What the lock-free relaxation of PWSA guarantees: predecessors always describe
    real paths, and discovered work is never lost. */
module PwsaSearch {
  import opened Graphs
  import opened PredecessorPaths
  import opened PwsaModel
  import opened PwsaProtocol
  import opened PwsaStealing

  // ---------- paths ----------

  ghost predicate GraphOk(pb: Problem, gpred: seq<Pack>) {
    AllExplained(pb.adj, pb.source, gpred) && gpred[pb.source].pred == pb.source
  }

  ghost predicate ItemsKnown(gpred: seq<Pack>, items: multiset<Item>) {
    forall it :: it in items ==> Known(gpred, it.v)
  }

  ghost predicate PcKnown(pb: Problem, gpred: seq<Pack>, pc: Pc) {
    && (pc.Popped? || pc.Claiming? || pc.Reading? ==> Known(gpred, pc.v))
    && (pc.Relaxing? || pc.Updating? || pc.Discovered? ==>
          Known(gpred, pc.v) && gpred[pc.v].dist.value <= pc.d && pc.v < |pb.adj| && pc.i <= |pb.adj[pc.v]|)
    && (pc.Updating? || pc.Discovered? ==> AtEdge(pb, pc.v, pc.i))
    && (pc.Updating? ==> Shorter(pc.d + pb.adj[pc.v][pc.i].weight, pc.seen))
    && (pc.Discovered? ==> Known(gpred, pb.adj[pc.v][pc.i].target))
  }

  ghost predicate PathInv(pb: Problem, s: View) {
    && Sizes(pb, s) && GraphOk(pb, s.gpred)
    && forall w :: 0 <= w < pb.workers ==>
         ItemsKnown(s.gpred, WorkAt(s, w)) && PcKnown(pb, s.gpred, s.workers[w].pc)
  }

  lemma CloserKeepsKnown(pb: Problem, g: seq<Pack>, h: seq<Pack>, items: multiset<Item>, pc: Pc)
    requires Closer(g, h) && ItemsKnown(g, items) && PcKnown(pb, g, pc)
    ensures ItemsKnown(h, items) && PcKnown(pb, h, pc)
  {
  }

  /** A successful compare-and-swap explains the new distance by the expanding vertex. */
  lemma RelaxKeepsGraph(pb: Problem, g: seq<Pack>, v: nat, d: nat, i: nat)
    requires WellPosed(pb) && GraphOk(pb, g) && Known(g, v) && g[v].dist.value <= d && AtEdge(pb, v, i)
    requires Shorter(d + pb.adj[v][i].weight, g[pb.adj[v][i].target])
    ensures var e := pb.adj[v][i];
            var h := g[e.target := Pack(Some(d + e.weight), v)];
            GraphOk(pb, h) && Closer(g, h)
  {
    LoweringKeepsExplained(pb.adj, pb.source, g, v, d, pb.adj[v][i]);
  }

  lemma InitialPath(pb: Problem, s: View)
    requires WellPosed(pb) && Initial(pb, s)
    ensures PathInv(pb, s)
  {
    forall w | 0 <= w < pb.workers ensures ItemsKnown(s.gpred, WorkAt(s, w)) {
      forall it | it in WorkAt(s, w) ensures Known(s.gpred, it.v) {
        assert w == pb.leader && it == Item(pb.h(pb.source), pb.source);
      }
    }
  }

  predicate IsSearch(a: Action) {
    a.Pop? || a.EndRound? || a.LoadExpanded? || a.CasExpanded? || a.ReadDistance? || a.LoadNeighbor?
    || a.CasNeighbor? || a.InsertNeighbor? || a.Announce?
  }

  lemma StealKeepsPath(pb: Problem, s: View, w: nat, a: Action)
    requires WellPosed(pb) && ProtoInv(pb, s) && PathInv(pb, s) && Enabled(pb, s, w, a) && !IsSearch(a)
    ensures PathInv(pb, After(pb, s, w, a))
  {
    StealLocal(pb, s, w, a);
    if a.Decide? && s.workers[w].pc.r >= 0 && s.workers[w].pc.sz == 2 {
      SplitTargetIsEmpty(pb, s, w);
      forall x | 0 <= x < pb.workers ensures ItemsKnown(s.gpred, WorkAt(After(pb, s, w, a), x)) {
        SplitMoves(pb, s, w, a.give, x);
      }
    } else {
      SameWork(pb, s, w, a);
    }
    StolenKeepsPath(pb, s, After(pb, s, w, a), w);
  }

  predicate OutsideSearch(pc: Pc) {
    pc.Working? || pc.Top? || pc.Exited? || !InSearch(pc)
  }

  lemma StolenKeepsPath(pb: Problem, s: View, r: View, w: nat)
    requires PathInv(pb, s) && w < pb.workers && Sizes(pb, r) && r.gpred == s.gpred && OutsideSearch(r.workers[w].pc)
    requires forall x :: 0 <= x < pb.workers && x != w ==> r.workers[x].pc == s.workers[x].pc
    requires forall x :: 0 <= x < pb.workers ==> ItemsKnown(s.gpred, WorkAt(s, x)) ==> ItemsKnown(s.gpred, WorkAt(r, x))
    ensures PathInv(pb, r)
  {
  }

  lemma StealLocal(pb: Problem, s: View, w: nat, a: Action)
    requires Enabled(pb, s, w, a) && !IsSearch(a)
    ensures var r := After(pb, s, w, a);
            && Sizes(pb, r) && r.gpred == s.gpred && r.expanded == s.expanded && r.isDone == s.isDone
            && OutsideSearch(s.workers[w].pc) && OutsideSearch(r.workers[w].pc)
            && forall x :: 0 <= x < pb.workers && x != w ==> r.workers[x].pc == s.workers[x].pc
  {
    if a.Look? || a.LoadOwnRequest? || a.BlockCas? || a.RejectClear? || a.RejectAnswer? {
      BlockingLocal(pb, s, w, a);
    } else if a.AcquireCheck? || a.ResetAnswer? || a.Probe? || a.RequestCas? || a.PollAnswer? || a.GiveUp? {
      AskingLocal(pb, s, w, a);
    } else {
      ServingLocal(pb, s, w, a);
    }
  }

  lemma BlockingLocal(pb: Problem, s: View, w: nat, a: Action)
    requires Enabled(pb, s, w, a)
    requires a.Look? || a.LoadOwnRequest? || a.BlockCas? || a.RejectClear? || a.RejectAnswer?
    ensures var r := After(pb, s, w, a);
            && Sizes(pb, r) && r.gpred == s.gpred && r.expanded == s.expanded && r.isDone == s.isDone
            && OutsideSearch(s.workers[w].pc) && OutsideSearch(r.workers[w].pc)
            && forall x :: 0 <= x < pb.workers && x != w ==> r.workers[x].pc == s.workers[x].pc
  {
  }

  lemma AskingLocal(pb: Problem, s: View, w: nat, a: Action)
    requires Enabled(pb, s, w, a)
    requires a.AcquireCheck? || a.ResetAnswer? || a.Probe? || a.RequestCas? || a.PollAnswer? || a.GiveUp?
    ensures var r := After(pb, s, w, a);
            && Sizes(pb, r) && r.gpred == s.gpred && r.expanded == s.expanded && r.isDone == s.isDone
            && OutsideSearch(s.workers[w].pc) && OutsideSearch(r.workers[w].pc)
            && forall x :: 0 <= x < pb.workers && x != w ==> r.workers[x].pc == s.workers[x].pc
  {
  }

  lemma ServingLocal(pb: Problem, s: View, w: nat, a: Action)
    requires Enabled(pb, s, w, a)
    requires a.Judge? || a.Swap? || a.LoadRequest? || a.Decide? || a.Grant? || a.Refuse? || a.Clear?
    ensures var r := After(pb, s, w, a);
            && Sizes(pb, r) && r.gpred == s.gpred && r.expanded == s.expanded && r.isDone == s.isDone
            && OutsideSearch(s.workers[w].pc) && OutsideSearch(r.workers[w].pc)
            && forall x :: 0 <= x < pb.workers && x != w ==> r.workers[x].pc == s.workers[x].pc
  {
  }

  lemma SplitMoves(pb: Problem, s: View, w: nat, give: multiset<Item>, x: nat)
    requires ProtoInv(pb, s) && Enabled(pb, s, w, Decide(give)) && x < pb.workers
    requires s.workers[w].pc.r >= 0 && s.workers[w].pc.sz == 2
    ensures forall it :: it in WorkAt(After(pb, s, w, Decide(give)), x) ==>
              it in WorkAt(s, x) || it in WorkAt(s, w)
  {
  }

  lemma StayingKeepsPath(pb: Problem, s: View, r: View, w: nat)
    requires PathInv(pb, s) && w < pb.workers && Sizes(pb, r) && r.gpred == s.gpred && r.slot == s.slot
    requires r.workers == s.workers[w := r.workers[w]]
    requires ItemsKnown(r.gpred, WorkAt(r, w)) && PcKnown(pb, r.gpred, r.workers[w].pc)
    ensures PathInv(pb, r)
  {
    forall x | 0 <= x < pb.workers
      ensures ItemsKnown(r.gpred, WorkAt(r, x)) && PcKnown(pb, r.gpred, r.workers[x].pc)
    {
      if x != w { assert WorkAt(r, x) == WorkAt(s, x); }
    }
  }

  lemma SearchKeepsPath(pb: Problem, s: View, w: nat, a: Action)
    requires WellPosed(pb) && PathInv(pb, s) && Enabled(pb, s, w, a) && IsSearch(a) && !a.CasNeighbor?
    ensures PathInv(pb, After(pb, s, w, a))
  {
    assert ItemsKnown(s.gpred, WorkAt(s, w)) && PcKnown(pb, s.gpred, s.workers[w].pc);
    OwnSearchStep(pb, s, w, a);
    StayingKeepsPath(pb, s, After(pb, s, w, a), w);
  }

  lemma OwnSearchStep(pb: Problem, s: View, w: nat, a: Action)
    requires WellPosed(pb) && Enabled(pb, s, w, a) && IsSearch(a) && !a.CasNeighbor?
    requires ItemsKnown(s.gpred, WorkAt(s, w)) && PcKnown(pb, s.gpred, s.workers[w].pc)
    ensures var r := After(pb, s, w, a);
            && Sizes(pb, r) && r.gpred == s.gpred && r.slot == s.slot && r.workers == s.workers[w := r.workers[w]]
            && ItemsKnown(r.gpred, WorkAt(r, w)) && PcKnown(pb, r.gpred, r.workers[w].pc)
  {
    if a.Pop? {
      PopOwn(pb, s, w, a.item);
    } else if a.InsertNeighbor? {
      InsertOwn(pb, s, w);
    } else {
      MoveOwn(pb, s, w, a);
    }
  }

  lemma PopOwn(pb: Problem, s: View, w: nat, item: Item)
    requires Enabled(pb, s, w, Pop(item)) && ItemsKnown(s.gpred, WorkAt(s, w))
    ensures ItemsKnown(s.gpred, WorkAt(After(pb, s, w, Pop(item)), w)) && Known(s.gpred, item.v)
  {
    assert item in WorkAt(s, w);
  }

  lemma InsertOwn(pb: Problem, s: View, w: nat)
    requires Enabled(pb, s, w, InsertNeighbor)
    requires ItemsKnown(s.gpred, WorkAt(s, w)) && PcKnown(pb, s.gpred, s.workers[w].pc)
    ensures ItemsKnown(s.gpred, WorkAt(After(pb, s, w, InsertNeighbor), w))
    ensures PcKnown(pb, s.gpred, After(pb, s, w, InsertNeighbor).workers[w].pc)
  {
    assert WorkAt(After(pb, s, w, InsertNeighbor), w) == WorkAt(s, w) + Inserted(pb, s, w);
  }

  lemma MoveOwn(pb: Problem, s: View, w: nat, a: Action)
    requires Enabled(pb, s, w, a) && PcKnown(pb, s.gpred, s.workers[w].pc)
    requires a.EndRound? || a.LoadExpanded? || a.CasExpanded? || a.ReadDistance? || a.LoadNeighbor? || a.Announce?
    ensures WorkAt(After(pb, s, w, a), w) == WorkAt(s, w)
    ensures PcKnown(pb, s.gpred, After(pb, s, w, a).workers[w].pc)
  {
  }

  lemma CasKeepsPath(pb: Problem, s: View, w: nat, succeeds: bool)
    requires WellPosed(pb) && PathInv(pb, s) && Enabled(pb, s, w, CasNeighbor(succeeds))
    ensures PathInv(pb, After(pb, s, w, CasNeighbor(succeeds)))
    ensures Closer(s.gpred, After(pb, s, w, CasNeighbor(succeeds)).gpred)
  {
    hide HasEdge, GraphOk, Explained;
    var r := After(pb, s, w, CasNeighbor(succeeds));
    var pc := s.workers[w].pc;
    assert ItemsKnown(s.gpred, WorkAt(s, w)) && PcKnown(pb, s.gpred, pc);
    if succeeds && s.gpred[pb.adj[pc.v][pc.i].target] == pc.seen {
      RelaxKeepsGraph(pb, s.gpred, pc.v, pc.d, pc.i);
      forall x | 0 <= x < pb.workers
        ensures ItemsKnown(r.gpred, WorkAt(r, x)) && PcKnown(pb, r.gpred, r.workers[x].pc)
      {
        assert WorkAt(r, x) == WorkAt(s, x);
        CloserKeepsKnown(pb, s.gpred, r.gpred, WorkAt(s, x), s.workers[x].pc);
      }
    } else {
      StayingKeepsPath(pb, s, r, w);
    }
  }

  lemma ActionKeepsPath(pb: Problem, s: View, w: nat, a: Action)
    requires WellPosed(pb) && ProtoInv(pb, s) && PathInv(pb, s) && Enabled(pb, s, w, a)
    ensures PathInv(pb, After(pb, s, w, a))
  {
    if a.CasNeighbor? {
      CasKeepsPath(pb, s, w, a.succeeds);
    } else if IsSearch(a) {
      SearchKeepsPath(pb, s, w, a);
    } else {
      StealKeepsPath(pb, s, w, a);
    }
  }

  /** No action forgets a distance or makes one larger. */
  lemma ActionComesCloser(pb: Problem, s: View, w: nat, a: Action)
    requires WellPosed(pb) && PathInv(pb, s) && Enabled(pb, s, w, a)
    ensures Closer(s.gpred, After(pb, s, w, a).gpred)
  {
    hide Enabled, PathInv;
    if a.CasNeighbor? {
      CasKeepsPath(pb, s, w, a.succeeds);
    } else if IsSearch(a) {
      LeavesDistances(pb, s, w, a);
    } else {
      StealLocal(pb, s, w, a);
    }
  }

  lemma LeavesDistances(pb: Problem, s: View, w: nat, a: Action)
    requires Enabled(pb, s, w, a) && IsSearch(a) && !a.CasNeighbor?
    ensures After(pb, s, w, a).gpred == s.gpred
  {
  }

  /** A frontier that is not empty has an item of least priority. */
  lemma LeastExists(items: multiset<Item>) returns (item: Item)
    requires items != multiset{}
    ensures item in items && forall x :: x in items ==> item.priority <= x.priority
    decreases |items|
  {
    item :| item in items;
    if items - multiset{item} != multiset{} {
      var other := LeastExists(items - multiset{item});
      if other.priority < item.priority {
        forall x | x in items ensures other.priority <= x.priority {
          if x != item { assert x in items - multiset{item}; }
        }
        item := other;
      } else {
        forall x | x in items ensures item.priority <= x.priority {
          if x != item { assert x in items - multiset{item}; }
        }
      }
    } else {
      assert items == items - multiset{item} + multiset{item};
    }
  }
}
