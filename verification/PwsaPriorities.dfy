/** The priorities in the frontiers of PWSA: an item may be out of date, but a discovered
    vertex always has one that is not, or is in a worker's hands. */
module PwsaPriorities {
  import opened Graphs
  import opened PredecessorPaths
  import opened PwsaModel
  import opened PwsaProtocol
  import opened PwsaStealing
  import opened PwsaSearch
  import opened PwsaCoverage

  /** f = g + h, by the distance recorded for x. */
  function F(pb: Problem, gpred: seq<Pack>, x: nat): nat
    requires Known(gpred, x)
  {
    gpred[x].dist.value + pb.h(x)
  }

  /** An item promises no more than its vertex can keep. */
  ghost predicate Fair(pb: Problem, gpred: seq<Pack>, it: Item) {
    Known(gpred, it.v) && it.priority >= F(pb, gpred, it.v)
  }

  /** A discovered neighbour may have come closer since, by way of another vertex. */
  ghost predicate PcFair(pb: Problem, gpred: seq<Pack>, pc: Pc) {
    pc.Discovered? ==>
      && AtEdge(pb, pc.v, pc.i)
      && var e := pb.adj[pc.v][pc.i];
      && Known(gpred, e.target) && gpred[e.target].dist.value <= pc.d + e.weight
  }

  /** The worker has popped x, or has just given x the distance it has. */
  ghost predicate PcHolds(pb: Problem, gpred: seq<Pack>, pc: Pc, x: nat) {
    || ((pc.Popped? || pc.Claiming?) && pc.v == x)
    || (pc.Discovered? && AtEdge(pb, pc.v, pc.i) && pb.adj[pc.v][pc.i].target == x
        && Known(gpred, x) && gpred[x].dist.value == pc.d + pb.adj[pc.v][pc.i].weight)
  }

  /** x is in some frontier or slot with its present f, or in a worker's hands. */
  ghost predicate Waits(pb: Problem, s: View, x: nat)
    requires Sizes(pb, s) && Known(s.gpred, x)
  {
    || Item(F(pb, s.gpred, x), x) in Work(s, pb.workers)
    || exists w :: 0 <= w < pb.workers && PcHolds(pb, s.gpred, s.workers[w].pc, x)
  }

  ghost predicate PrioInv(pb: Problem, s: View) {
    && Sizes(pb, s)
    && (forall it :: it in Work(s, pb.workers) ==> Fair(pb, s.gpred, it))
    && (forall w :: 0 <= w < pb.workers ==> PcFair(pb, s.gpred, s.workers[w].pc))
    && (forall x :: 0 <= x < |pb.adj| && Known(s.gpred, x) && !s.expanded[x] ==> Waits(pb, s, x))
  }

  /** A step of w that leaves distances alone: what w held is expanded, still held, or in
      a frontier with its present f, and new items are fair. */
  ghost predicate Passes(pb: Problem, s: View, r: View, w: nat) {
    && Sizes(pb, s) && Sizes(pb, r) && w < pb.workers && r.gpred == s.gpred
    && (forall v :: 0 <= v < pb.workers && v != w ==> r.workers[v].pc == s.workers[v].pc)
    && (forall x :: 0 <= x < |pb.adj| && s.expanded[x] ==> r.expanded[x])
    && PcFair(pb, r.gpred, r.workers[w].pc)
    && (forall it :: it in Work(r, pb.workers) ==> it in Work(s, pb.workers) || Fair(pb, r.gpred, it))
    && (forall it :: it in Work(s, pb.workers) ==>
          it in Work(r, pb.workers) || PcHolds(pb, r.gpred, r.workers[w].pc, it.v))
    && (forall x :: 0 <= x < |pb.adj| && PcHolds(pb, s.gpred, s.workers[w].pc, x) ==>
          r.expanded[x] || PcHolds(pb, r.gpred, r.workers[w].pc, x)
          || (Known(r.gpred, x) && Item(F(pb, r.gpred, x), x) in Work(r, pb.workers)))
  }

  lemma PassingKeepsPrio(pb: Problem, s: View, r: View, w: nat)
    requires PrioInv(pb, s) && Passes(pb, s, r, w)
    ensures PrioInv(pb, r)
  {
    forall x | 0 <= x < |pb.adj| && Known(r.gpred, x) && !r.expanded[x] ensures Waits(pb, r, x) {
      assert Waits(pb, s, x);
      if Item(F(pb, s.gpred, x), x) !in Work(s, pb.workers) {
        var v :| 0 <= v < pb.workers && PcHolds(pb, s.gpred, s.workers[v].pc, x);
        if v != w { assert PcHolds(pb, r.gpred, r.workers[v].pc, x); }
      }
    }
  }

  lemma StealPasses(pb: Problem, s: View, w: nat, a: Action)
    requires WellPosed(pb) && ProtoInv(pb, s) && Enabled(pb, s, w, a) && !IsSearch(a)
    ensures Passes(pb, s, After(pb, s, w, a), w)
  {
    assert w < pb.workers && Sizes(pb, s);
    hide After, Enabled, ProtoInv, Work;
    StealLocal(pb, s, w, a);
    StealingConserves(pb, s, w, a);
  }

  /** Search actions other than those on a frontier or a distance. */
  lemma SmallMovePasses(pb: Problem, s: View, w: nat, a: Action)
    requires WellPosed(pb) && ProtoInv(pb, s) && Enabled(pb, s, w, a) && OfTheSearch(a) && !a.CasNeighbor?
    ensures Passes(pb, s, After(pb, s, w, a), w)
  {
    SmallMoveMeans(pb, s, w, a);
    hide ProtoInv, Work, After, Enabled, WellPosed;
    StealingConserves(pb, s, w, a);
  }

  lemma SmallMoveMeans(pb: Problem, s: View, w: nat, a: Action)
    requires Enabled(pb, s, w, a) && OfTheSearch(a) && !a.CasNeighbor?
    ensures var r := After(pb, s, w, a);
            && Sizes(pb, s) && Sizes(pb, r) && w < pb.workers && r.gpred == s.gpred
            && (forall v :: 0 <= v < pb.workers && v != w ==> r.workers[v].pc == s.workers[v].pc)
            && (forall x :: 0 <= x < |pb.adj| && s.expanded[x] ==> r.expanded[x])
            && !r.workers[w].pc.Discovered?
            && forall x :: 0 <= x < |pb.adj| && PcHolds(pb, s.gpred, s.workers[w].pc, x) ==>
                 r.expanded[x] || PcHolds(pb, r.gpred, r.workers[w].pc, x)
  {
  }

  lemma FailedCasPasses(pb: Problem, s: View, w: nat, succeeds: bool)
    requires WellPosed(pb) && ProtoInv(pb, s) && Enabled(pb, s, w, CasNeighbor(succeeds))
    requires After(pb, s, w, CasNeighbor(succeeds)).workers[w].pc.Relaxing?
    ensures Passes(pb, s, After(pb, s, w, CasNeighbor(succeeds)), w)
  {
    hide ProtoInv, Work;
    StealingConserves(pb, s, w, CasNeighbor(succeeds));
  }

  lemma PopPasses(pb: Problem, s: View, w: nat, item: Item)
    requires Enabled(pb, s, w, Pop(item))
    ensures Passes(pb, s, After(pb, s, w, Pop(item)), w)
  {
    hide Work;
    PopTakesOne(pb, s, w, item);
    var r := After(pb, s, w, Pop(item));
    forall it | it in Work(s, pb.workers)
      ensures it in Work(r, pb.workers) || PcHolds(pb, r.gpred, r.workers[w].pc, it.v)
    {
      assert it in Work(r, pb.workers) + multiset{item};
    }
    forall it | it in Work(r, pb.workers) ensures it in Work(s, pb.workers) {
      assert it in Work(r, pb.workers) + multiset{item};
    }
  }

  lemma InsertPasses(pb: Problem, s: View, w: nat)
    requires Enabled(pb, s, w, InsertNeighbor) && PcFair(pb, s.gpred, s.workers[w].pc)
    ensures Passes(pb, s, After(pb, s, w, InsertNeighbor), w)
  {
    hide Work;
    InsertAddsOne(pb, s, w);
    var r := After(pb, s, w, InsertNeighbor);
    var added := Inserted(pb, s, w);
    forall it | it in Work(r, pb.workers) ensures it in Work(s, pb.workers) || Fair(pb, r.gpred, it) {
      assert it in Work(s, pb.workers) + added;
    }
    forall it | it in Work(s, pb.workers) ensures it in Work(r, pb.workers) {
      assert it in Work(s, pb.workers) + added;
    }
    forall x | 0 <= x < |pb.adj| && PcHolds(pb, s.gpred, s.workers[w].pc, x)
      ensures r.expanded[x] || (Known(r.gpred, x) && Item(F(pb, r.gpred, x), x) in Work(r, pb.workers))
    {
      if !r.expanded[x] { assert Item(F(pb, r.gpred, x), x) in added; }
    }
  }

  lemma CasMeans(pb: Problem, s: View, r: View, w: nat, a: Action)
    requires Enabled(pb, s, w, a) && r == After(pb, s, w, a) && a.CasNeighbor?
    requires w < |s.workers| && w < |r.workers|
    requires PcKnown(pb, s.gpred, s.workers[w].pc) && r.workers[w].pc.Discovered?
    ensures var pc := s.workers[w].pc;
            && Sizes(pb, s) && Sizes(pb, r) && w < pb.workers && pc.Updating? && AtEdge(pb, pc.v, pc.i)
            && var e := pb.adj[pc.v][pc.i];
            && Shorter(pc.d + e.weight, s.gpred[e.target])
            && r.gpred == s.gpred[e.target := Pack(Some(pc.d + e.weight), pc.v)] && r.expanded == s.expanded
            && r.workers[w].pc == Discovered(pc.v, pc.d, pc.i)
            && forall v :: 0 <= v < pb.workers && v != w ==> r.workers[v].pc == s.workers[v].pc
  {
  }

  lemma SearchMeansKnown(pb: Problem, s: View, w: nat)
    requires SearchInv(pb, s) && w < pb.workers
    ensures ProtoInv(pb, s) && w < |s.workers| && PcKnown(pb, s.gpred, s.workers[w].pc)
  {
  }

  /** A successful compare-and-swap: the new distance is in the hands of its worker. */
  lemma CasKeepsPrio(pb: Problem, s: View, r: View, w: nat, a: Action)
    requires WellPosed(pb) && SearchInv(pb, s) && PrioInv(pb, s)
    requires Enabled(pb, s, w, a) && r == After(pb, s, w, a) && a.CasNeighbor?
    requires w < pb.workers && w < |s.workers| && w < |r.workers| && r.workers[w].pc.Discovered?
    ensures PrioInv(pb, r)
  {
    hide After, Enabled, SearchInv, PrioInv, ProtoInv, PcKnown, Work, WellPosed;
    SearchMeansKnown(pb, s, w);
    CasMeans(pb, s, r, w, a);
    StealingConserves(pb, s, w, a);
    var pc := s.workers[w].pc;
    var e := pb.adj[pc.v][pc.i];
    CasLowers(pb, s, r, w, e, pc.d + e.weight);
  }

  lemma CasLowers(pb: Problem, s: View, r: View, w: nat, e: Edge, d: nat)
    requires PrioInv(pb, s) && Sizes(pb, r) && w < pb.workers && e.target < |pb.adj| && Shorter(d, s.gpred[e.target])
    requires r.gpred[e.target].dist == Some(d) && r.expanded == s.expanded
    requires forall x :: 0 <= x < |pb.adj| && x != e.target ==> r.gpred[x] == s.gpred[x]
    requires Work(r, pb.workers) == Work(s, pb.workers) && s.workers[w].pc.Updating?
    requires forall v :: 0 <= v < pb.workers && v != w ==> r.workers[v].pc == s.workers[v].pc
    requires PcFair(pb, r.gpred, r.workers[w].pc) && PcHolds(pb, r.gpred, r.workers[w].pc, e.target)
    ensures PrioInv(pb, r)
  {
    hide Work;
    forall it | it in Work(r, pb.workers) ensures Fair(pb, r.gpred, it) {
      assert Fair(pb, s.gpred, it);
    }
    forall v | 0 <= v < pb.workers && v != w ensures PcFair(pb, r.gpred, r.workers[v].pc) {
      assert PcFair(pb, s.gpred, s.workers[v].pc);
    }
    forall x | 0 <= x < |pb.adj| && Known(r.gpred, x) && !r.expanded[x] && x != e.target ensures Waits(pb, r, x) {
      assert Waits(pb, s, x);
      if Item(F(pb, s.gpred, x), x) !in Work(s, pb.workers) {
        var v :| 0 <= v < pb.workers && PcHolds(pb, s.gpred, s.workers[v].pc, x);
        assert PcHolds(pb, r.gpred, r.workers[v].pc, x);
      }
    }
  }

  lemma ActionKeepsPrio(pb: Problem, s: View, w: nat, a: Action)
    requires WellPosed(pb) && SearchInv(pb, s) && PrioInv(pb, s) && Enabled(pb, s, w, a)
    ensures PrioInv(pb, After(pb, s, w, a))
  {
    var r := After(pb, s, w, a);
    assert a.CasNeighbor? ==> r.workers[w].pc.Relaxing? || r.workers[w].pc.Discovered?;
    assert w < pb.workers && w < |s.workers| && w < |r.workers| && PcFair(pb, s.gpred, s.workers[w].pc);
    hide After, Enabled, PrioInv, ProtoInv, PathInv, CoverInv, Passes, PcFair;
    if a.CasNeighbor? && r.workers[w].pc.Discovered? {
      CasKeepsPrio(pb, s, r, w, a);
    } else {
      if a.Pop? {
        PopPasses(pb, s, w, a.item);
      } else if a.InsertNeighbor? {
        InsertPasses(pb, s, w);
      } else if a.CasNeighbor? {
        FailedCasPasses(pb, s, w, a.succeeds);
      } else if IsSearch(a) {
        SmallMovePasses(pb, s, w, a);
      } else {
        StealPasses(pb, s, w, a);
      }
      PassingKeepsPrio(pb, s, r, w);
    }
  }

  lemma {:induction false} WorkAtStart(pb: Problem, s: View, n: nat)
    requires WellPosed(pb) && Initial(pb, s) && n <= pb.workers
    ensures Work(s, n) == if pb.leader < n then multiset{Item(pb.h(pb.source), pb.source)} else multiset{}
  {
    if n > 0 { WorkAtStart(pb, s, n - 1); }
  }

  lemma InitialPrio(pb: Problem, s: View)
    requires WellPosed(pb) && Initial(pb, s)
    ensures PrioInv(pb, s)
  {
    WorkAtStart(pb, s, pb.workers);
    hide Work;
  }

  lemma {:induction false} RunKeepsPrio(pb: Problem, trace: seq<View>, i: nat)
    requires WellPosed(pb) && Run(pb, trace) && i < |trace|
    ensures PrioInv(pb, trace[i])
  {
    if i == 0 {
      InitialPrio(pb, trace[0]);
    } else {
      RunKeepsPrio(pb, trace, i - 1);
      RunKeepsSearch(pb, trace, i - 1);
      assert Next(pb, trace[i - 1], trace[i - 1 + 1]);
      NextKeepsPrio(pb, trace[i - 1], trace[i]);
    }
  }

  lemma NextKeepsPrio(pb: Problem, s: View, r: View)
    requires WellPosed(pb) && SearchInv(pb, s) && PrioInv(pb, s) && Next(pb, s, r)
    ensures PrioInv(pb, r)
  {
    hide Enabled, After, SearchInv, PrioInv, WellPosed;
    var w, a :| Enabled(pb, s, w, a) && r == After(pb, s, w, a);
    ActionKeepsPrio(pb, s, w, a);
  }

  /** Main theorem: in every state of every run no item promises less than the g + h of
      its vertex, and a discovered vertex that is not expanded has an item with exactly
      its g + h in some frontier or slot, or is in the hands of a worker. */
  lemma UpToDate(pb: Problem, trace: seq<View>, i: nat)
    requires WellPosed(pb) && Run(pb, trace) && i < |trace|
    ensures Sizes(pb, trace[i])
    ensures forall it :: it in Work(trace[i], pb.workers) ==>
              Known(trace[i].gpred, it.v) && it.priority >= trace[i].gpred[it.v].dist.value + pb.h(it.v)
    ensures forall x :: 0 <= x < |pb.adj| && Known(trace[i].gpred, x) && !trace[i].expanded[x] ==>
              Item(trace[i].gpred[x].dist.value + pb.h(x), x) in Work(trace[i], pb.workers)
              || exists w :: 0 <= w < pb.workers && PcHolds(pb, trace[i].gpred, trace[i].workers[w].pc, x)
  {
    RunKeepsPrio(pb, trace, i);
    hide Work, Run;
    forall it | it in Work(trace[i], pb.workers) ensures Known(trace[i].gpred, it.v) {
      assert Fair(pb, trace[i].gpred, it);
    }
    forall x | 0 <= x < |pb.adj| && Known(trace[i].gpred, x) && !trace[i].expanded[x] ensures Waits(pb, trace[i], x) {
    }
  }
}
