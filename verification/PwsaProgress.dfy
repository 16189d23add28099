/** Which PWSA searches can come to an end, and with that, when the size assertion of
    parallel_while_pwsa can fail. */
module PwsaProgress {
  import opened Counting
  import opened Graphs
  import opened PredecessorPaths
  import opened PwsaModel
  import opened PwsaProtocol
  import opened PwsaStealing
  import opened PwsaSearch
  import opened PwsaCoverage

  // ---------- what a finished search has found ----------

  /** Somebody has found the destination. */
  ghost predicate FoundIt(s: View) {
    s.isDone || exists w :: 0 <= w < |s.workers| && s.workers[w].pc.Found?
  }

  lemma FindingMeansKnown(pb: Problem, s: View, w: nat, a: Action)
    requires WellPosed(pb) && SearchInv(pb, s) && Enabled(pb, s, w, a)
    requires FoundIt(s) ==> Known(s.gpred, pb.dest)
    ensures FoundIt(After(pb, s, w, a)) ==> Known(After(pb, s, w, a).gpred, pb.dest)
  {
    var r := After(pb, s, w, a);
    ActionComesCloser(pb, s, w, a);
    if FoundIt(r) && !FoundIt(s) {
      assert PcKnown(pb, s.gpred, s.workers[w].pc);
      NewlyFound(pb, s, w, a);
    }
  }

  lemma FindingIsExpanding(pb: Problem, s: View, w: nat, a: Action)
    requires Enabled(pb, s, w, a) && !s.workers[w].pc.Found?
    ensures Sizes(pb, After(pb, s, w, a)) && After(pb, s, w, a).isDone == s.isDone
    ensures After(pb, s, w, a).workers[w].pc.Found? ==> s.workers[w].pc == Claiming(pb.dest)
  {
    if IsSearch(a) {
      SearchFinds(pb, s, w, a);
    } else {
      hide Enabled, After;
      StealLocal(pb, s, w, a);
    }
  }

  lemma SearchFinds(pb: Problem, s: View, w: nat, a: Action)
    requires Enabled(pb, s, w, a) && IsSearch(a) && !s.workers[w].pc.Found?
    ensures Sizes(pb, After(pb, s, w, a)) && After(pb, s, w, a).isDone == s.isDone
    ensures After(pb, s, w, a).workers[w].pc.Found? ==> s.workers[w].pc == Claiming(pb.dest)
  {
  }

  lemma NewlyFound(pb: Problem, s: View, w: nat, a: Action)
    requires Enabled(pb, s, w, a) && !FoundIt(s) && FoundIt(After(pb, s, w, a))
    ensures s.workers[w].pc == Claiming(pb.dest)
  {
    var r := After(pb, s, w, a);
    assert w < |s.workers| && !s.workers[w].pc.Found? && Sizes(pb, s);
    hide Enabled, After;
    FindingIsExpanding(pb, s, w, a);
    var x :| 0 <= x < |r.workers| && r.workers[x].pc.Found?;
    if x != w { OthersKeepLocals(pb, s, w, a, x); }
  }

  lemma NextFinds(pb: Problem, s: View, r: View)
    requires WellPosed(pb) && SearchInv(pb, s) && Next(pb, s, r) && (FoundIt(s) ==> Known(s.gpred, pb.dest))
    ensures FoundIt(r) ==> Known(r.gpred, pb.dest)
  {
    hide Enabled, After, SearchInv, FoundIt, Known;
    var w, a :| Enabled(pb, s, w, a) && r == After(pb, s, w, a);
    FindingMeansKnown(pb, s, w, a);
  }

  lemma {:induction false} FoundMeansKnown(pb: Problem, trace: seq<View>, i: nat)
    requires WellPosed(pb) && Run(pb, trace) && i < |trace|
    ensures FoundIt(trace[i]) ==> Known(trace[i].gpred, pb.dest)
  {
    if i == 0 {
      assert !FoundIt(trace[0]);
    } else {
      hide Next, SearchInv, FoundIt, Known, Initial;
      FoundMeansKnown(pb, trace, i - 1);
      RunKeepsSearch(pb, trace, i - 1);
      assert Next(pb, trace[i - 1], trace[i - 1 + 1]);
      NextFinds(pb, trace[i - 1], trace[i]);
    }
  }

  /** A search is only declared done when the predecessors of the destination form a
      path from the source. */
  lemma DoneMeansPath(pb: Problem, trace: seq<View>, i: nat) returns (q: Walk)
    requires WellPosed(pb) && Run(pb, trace) && i < |trace| && trace[i].isDone
    ensures Connects(pb.adj, q, pb.source, pb.dest) && AlongPreds(trace[i].gpred, q) && Simple(q)
  {
    FoundMeansKnown(pb, trace, i);
    q := PredecessorsLeadToSource(pb, trace, i, pb.dest);
  }

  lemma AloneLeaves(pb: Problem, s: View, w: nat, a: Action)
    requires pb.workers == 1 && Enabled(pb, s, w, a) && After(pb, s, w, a).isDone
    requires s.isDone ==> s.workers[0].pc == Exited
    ensures |After(pb, s, w, a).workers| == 1 && After(pb, s, w, a).workers[0].pc == Exited
  {
  }

  /** A single worker leaves at once when it has found the destination. */
  lemma {:induction false} AloneMeansExited(pb: Problem, trace: seq<View>, i: nat)
    requires WellPosed(pb) && Run(pb, trace) && i < |trace| && pb.workers == 1 && trace[i].isDone
    ensures |trace[i].workers| == 1 && trace[i].workers[0].pc == Exited
  {
    if i > 0 {
      hide Enabled, After, WellPosed;
      assert Next(pb, trace[i - 1], trace[i - 1 + 1]);
      var w, a :| Enabled(pb, trace[i - 1], w, a) && trace[i] == After(pb, trace[i - 1], w, a);
      if trace[i - 1].isDone { AloneMeansExited(pb, trace, i - 1); }
      AloneLeaves(pb, trace[i - 1], w, a);
    }
  }

  /** Without pops nothing is found: no worker gets into the search body. */
  ghost predicate Fruitless(s: View) {
    !s.isDone && forall w :: 0 <= w < |s.workers| ==> OutsideSearch(s.workers[w].pc)
  }

  lemma NoPopNoFruit(pb: Problem, s: View, w: nat, a: Action)
    requires pb.pollCutoff <= 0 && Fruitless(s) && Enabled(pb, s, w, a)
    ensures Fruitless(After(pb, s, w, a))
  {
    var r := After(pb, s, w, a);
    assert OutsideSearch(s.workers[w].pc) && Sizes(pb, s);
    if !IsSearch(a) { StealLocal(pb, s, w, a); }
    forall x | 0 <= x < |r.workers| ensures OutsideSearch(r.workers[x].pc) {
      if x != w { OthersKeepLocals(pb, s, w, a, x); }
    }
  }

  lemma {:induction false} WithoutPollsFruitless(pb: Problem, trace: seq<View>, i: nat)
    requires pb.pollCutoff <= 0 && Run(pb, trace) && i < |trace|
    ensures Fruitless(trace[i])
  {
    if i > 0 {
      hide Enabled, After, Fruitless;
      WithoutPollsFruitless(pb, trace, i - 1);
      assert Next(pb, trace[i - 1], trace[i - 1 + 1]);
      var w, a :| Enabled(pb, trace[i - 1], w, a) && trace[i] == After(pb, trace[i - 1], w, a);
      NoPopNoFruit(pb, trace[i - 1], w, a);
    }
  }

  // ---------- states that can be reached ----------

  ghost predicate Ends(pb: Problem, trace: seq<View>, s: View) {
    Run(pb, trace) && trace[|trace| - 1] == s
  }

  ghost predicate Reachable(pb: Problem, s: View) {
    exists trace :: Ends(pb, trace, s)
  }

  lemma StartIsReachable(pb: Problem, s: View)
    requires Initial(pb, s)
    ensures Reachable(pb, s)
  {
    assert Ends(pb, [s], s);
  }

  lemma ReachableInv(pb: Problem, s: View)
    requires WellPosed(pb) && Reachable(pb, s)
    ensures SearchInv(pb, s)
  {
    var trace :| Ends(pb, trace, s);
    RunKeepsSearch(pb, trace, |trace| - 1);
  }

  lemma StepsOn(pb: Problem, s: View, w: nat, a: Action) returns (r: View)
    requires Reachable(pb, s) && Enabled(pb, s, w, a)
    ensures r == After(pb, s, w, a) && Reachable(pb, r)
  {
    r := After(pb, s, w, a);
    var trace :| Ends(pb, trace, s);
    var longer := trace + [r];
    assert Next(pb, s, r);
    forall i | 0 <= i < |longer| - 1 ensures Next(pb, longer[i], longer[i + 1]) {
      if i < |trace| - 1 { assert Next(pb, trace[i], trace[i + 1]); }
    }
    assert Ends(pb, longer, r);
  }

  // ---------- one worker searching alone ----------

  /** w has all the work and no request, and the others are outside the search body. */
  ghost predicate Alone(pb: Problem, s: View, w: nat) {
    && Sizes(pb, s) && w < pb.workers && !s.isDone && s.slot[w] == multiset{} && s.req[w] == WAITING
    && forall x :: 0 <= x < pb.workers && x != w ==> WorkAt(s, x) == multiset{} && OutsideSearch(s.workers[x].pc)
  }

  /** Only w's own variables and the vertex table differ. */
  ghost predicate Undisturbed(s: View, r: View, w: nat) {
    && |r.workers| == |s.workers| && r.req == s.req && r.ans == s.ans && r.slot == s.slot && r.isDone == s.isDone
    && forall x :: 0 <= x < |s.workers| && x != w ==> r.workers[x] == s.workers[x]
  }

  lemma UndisturbedStaysAlone(pb: Problem, s: View, r: View, w: nat)
    requires Alone(pb, s, w) && Undisturbed(s, r, w) && Sizes(pb, r)
    ensures Alone(pb, r, w)
  {
  }

  lemma SearchingDisturbsNobody(pb: Problem, s: View, w: nat, a: Action)
    requires Enabled(pb, s, w, a) && IsSearch(a) && !a.Announce?
    ensures Undisturbed(s, After(pb, s, w, a), w) && Sizes(pb, After(pb, s, w, a))
  {
  }

  /** One action of the search body. */
  lemma SearchesOn(pb: Problem, s: View, w: nat, a: Action) returns (r: View)
    requires Reachable(pb, s) && Alone(pb, s, w) && Enabled(pb, s, w, a) && IsSearch(a) && !a.Announce?
    ensures r == After(pb, s, w, a) && Reachable(pb, r) && Alone(pb, r, w) && Undisturbed(s, r, w)
  {
    r := StepsOn(pb, s, w, a);
    SearchingDisturbsNobody(pb, s, w, a);
    UndisturbedStaysAlone(pb, s, r, w);
  }

  ghost predicate RelaxingAt(s: View, w: nat, v: nat, i: nat) {
    w < |s.workers| && s.workers[w].pc.Relaxing? && s.workers[w].pc.v == v && s.workers[w].pc.i == i
  }

  /** One neighbour. */
  lemma RelaxesOne(pb: Problem, s: View, w: nat, v: nat, i: nat) returns (r: View)
    requires WellPosed(pb) && Reachable(pb, s) && Alone(pb, s, w) && RelaxingAt(s, w, v, i)
    requires v < |pb.adj| && i < |pb.adj[v]|
    ensures Reachable(pb, r) && Alone(pb, r, w) && Undisturbed(s, r, w)
    ensures RelaxingAt(r, w, v, i + 1) && r.expanded == s.expanded
  {
    assert AtEdge(pb, v, i);
    r := SearchesOn(pb, s, w, LoadNeighbor);
    if r.workers[w].pc.Updating? {
      r := SearchesOn(pb, r, w, CasNeighbor(true));
      r := SearchesOn(pb, r, w, InsertNeighbor);
    }
  }

  lemma {:induction false} RelaxesRest(pb: Problem, s: View, w: nat, v: nat, i: nat) returns (r: View)
    requires WellPosed(pb) && Reachable(pb, s) && Alone(pb, s, w) && RelaxingAt(s, w, v, i)
    requires v < |pb.adj| && i <= |pb.adj[v]|
    ensures Reachable(pb, r) && Alone(pb, r, w) && Undisturbed(s, r, w)
    ensures r.workers[w].pc.Working? && r.expanded == s.expanded
    decreases |pb.adj[v]| - i
  {
    if i == |pb.adj[v]| {
      r := SearchesOn(pb, s, w, LoadNeighbor);
    } else {
      var m := RelaxesOne(pb, s, w, v, i);
      r := RelaxesRest(pb, m, w, v, i + 1);
    }
  }

  ghost function Open(s: View): set<nat> {
    set v | 0 <= v < |s.expanded| && !s.expanded[v]
  }

  lemma ExpandingShrinksOpen(s: View, r: View, v: nat)
    requires v < |s.expanded| && !s.expanded[v] && r.expanded == s.expanded[v := true]
    ensures |Open(r)| < |Open(s)|
  {
    assert v in Open(s) && v !in Open(r) && Open(r) <= Open(s) - {v};
    SubsetIsSmaller(Open(r), Open(s) - {v});
  }

  /** Winning the right to expand v. */
  lemma ClaimsOne(pb: Problem, s: View, w: nat, v: nat) returns (r: View)
    requires Reachable(pb, s) && Alone(pb, s, w) && s.workers[w].pc == Claiming(v) && v < |pb.adj| && !s.expanded[v]
    ensures Reachable(pb, r) && Alone(pb, r, w) && Undisturbed(s, r, w) && |Open(r)| < |Open(s)|
    ensures r.workers[w].pc.Found? || r.workers[w].pc == Reading(v)
  {
    r := SearchesOn(pb, s, w, CasExpanded);
    ExpandingShrinksOpen(s, r, v);
  }

  lemma ExpandsOne(pb: Problem, s: View, w: nat, v: nat) returns (r: View)
    requires WellPosed(pb) && Reachable(pb, s) && Alone(pb, s, w) && s.workers[w].pc == Reading(v) && Known(s.gpred, v)
    ensures Reachable(pb, r) && Alone(pb, r, w) && Undisturbed(s, r, w)
    ensures r.workers[w].pc.Working? && Open(r) == Open(s)
  {
    var m := SearchesOn(pb, s, w, ReadDistance);
    r := RelaxesRest(pb, m, w, v, 0);
  }

  /** An item's vertex is looked at. */
  lemma TurnsTo(pb: Problem, s: View, w: nat, v: nat) returns (r: View)
    requires WellPosed(pb) && Reachable(pb, s) && Alone(pb, s, w) && s.workers[w].pc == Popped(v) && v < |pb.adj|
    ensures Reachable(pb, r) && Alone(pb, r, w) && Undisturbed(s, r, w)
    ensures r.workers[w].pc.Found? || (r.workers[w].pc.Working? && |Open(r)| < |Open(s)|)
            || (r.workers[w] == s.workers[w].(pc := Working) && r.expanded == s.expanded)
  {
    var c := SearchesOn(pb, s, w, LoadExpanded);
    if s.expanded[v] {
      r := c;
    } else {
      r := ClaimsOne(pb, c, w, v);
      assert Open(c) == Open(s);
      if r.workers[w].pc.Reading? {
        ReachableInv(pb, r);
        assert PcKnown(pb, r.gpred, r.workers[w].pc);
        r := ExpandsOne(pb, r, w, v);
      }
    }
  }

  lemma PoppedIsKnown(pb: Problem, s: View, w: nat)
    requires WellPosed(pb) && SearchInv(pb, s) && w < pb.workers && w < |s.workers| && s.workers[w].pc.Popped?
    ensures s.workers[w].pc.v < |pb.adj|
  {
    assert PcKnown(pb, s.gpred, s.workers[w].pc);
  }

  /** One vertex is popped: w finds the destination, expands a vertex, or is rid of
      an item whose vertex has been expanded before. */
  lemma PopsOne(pb: Problem, s: View, w: nat) returns (r: View)
    requires WellPosed(pb) && Reachable(pb, s) && Alone(pb, s, w) && s.workers[w].pc.Working?
    requires s.workers[w].mine != multiset{} && s.workers[w].polled < pb.pollCutoff
    ensures Reachable(pb, r) && Alone(pb, r, w) && Undisturbed(s, r, w)
    ensures r.workers[w].pc.Found?
            || (r.workers[w].pc.Working?
                && (|Open(r)| < |Open(s)| || (r.expanded == s.expanded && |r.workers[w].mine| < |s.workers[w].mine|)))
  {
    hide SearchInv, Reachable;
    var item := LeastExists(s.workers[w].mine);
    var p := SearchesOn(pb, s, w, Pop(item));
    assert p.workers[w].mine == s.workers[w].mine - multiset{item} && p.workers[w].pc == Popped(item.v);
    assert p.expanded == s.expanded;
    ReachableInv(pb, p);
    PoppedIsKnown(pb, p, w);
    hide After, Enabled;
    assert Open(p) == Open(s);
    r := TurnsTo(pb, p, w, item.v);
  }

  /** A worker that has popped enough for one round comes back with its frontier. */
  lemma NewRound(pb: Problem, s: View, w: nat) returns (r: View)
    requires WellPosed(pb) && Reachable(pb, s) && Alone(pb, s, w) && s.workers[w].pc.Working?
    requires s.workers[w].mine != multiset{} && s.workers[w].polled >= pb.pollCutoff
    ensures Reachable(pb, r) && Alone(pb, r, w) && Undisturbed(s, r, w) && r.expanded == s.expanded
    ensures r.workers[w].pc.Working? && r.workers[w].polled == 0 && r.workers[w].mine == s.workers[w].mine
  {
    var top := SearchesOn(pb, s, w, EndRound);
    var looked := StepsOn(pb, top, w, Look);
    assert looked.workers[w].pc.Responding? && looked.workers[w].mine == s.workers[w].mine;
    var loaded := StepsOn(pb, looked, w, LoadRequest);
    assert loaded.workers[w].pc.Deciding? && loaded.workers[w].pc.r == WAITING && loaded.workers[w].polled == 0;
    r := StepsOn(pb, loaded, w, Decide(multiset{}));
    assert Undisturbed(s, r, w) && Sizes(pb, r);
    UndisturbedStaysAlone(pb, s, r, w);
  }

  /** Alone, w finds the destination if it can be reached at all, in as many rounds as
      it takes. */
  lemma {:induction false} FindsAlone(pb: Problem, s: View, w: nat, q: Walk) returns (r: View)
    requires WellPosed(pb) && pb.pollCutoff >= 1
    requires Reachable(pb, s) && Alone(pb, s, w) && s.workers[w].pc.Working?
    requires Connects(pb.adj, q, pb.source, pb.dest)
    ensures Reachable(pb, r) && Alone(pb, r, w) && Undisturbed(s, r, w) && r.workers[w].pc.Found?
    decreases |Open(s)|, |s.workers[w].mine|, if s.workers[w].polled >= pb.pollCutoff then 1 else 0
  {
    if s.workers[w].mine == multiset{} {
      ReachableInv(pb, s);
      assert WorkAt(s, w) == multiset{};
      QuiescentExpands(pb, s, q);
      assert false;
    } else if s.workers[w].polled >= pb.pollCutoff {
      var m := NewRound(pb, s, w);
      assert Open(m) == Open(s);
      r := FindsAlone(pb, m, w, q);
    } else {
      r := PopsOne(pb, s, w);
      if r.workers[w].pc.Working? {
        var m := r;
        assert r.expanded == s.expanded ==> Open(r) == Open(s);
        r := FindsAlone(pb, m, w, q);
      }
    }
  }

  // ---------- the size assertion ----------

  /** The leader still has its one item, and x has none and wants some. */
  ghost predicate Opening(pb: Problem, s: View, x: nat, leads: Pc, wants: Pc) {
    && Sizes(pb, s) && pb.leader < pb.workers && x < pb.workers && x != pb.leader && !s.isDone
    && s.workers[pb.leader] == Worker(multiset{Item(pb.h(pb.source), pb.source)}, leads, 0, 0)
    && s.workers[x] == Worker(multiset{}, wants, 0, 0)
    && s.req[pb.leader] == WAITING && s.req[x] == BLOCKED
    && (forall w :: 0 <= w < pb.workers ==> s.slot[w] == multiset{})
    && forall w :: 0 <= w < pb.workers && w != pb.leader && w != x ==> s.workers[w] == Worker(multiset{}, Top, 0, 0)
  }

  function Start(pb: Problem): View {
    var first := multiset{Item(pb.h(pb.source), pb.source)};
    View(seq(pb.workers, w => Worker(if w == pb.leader then first else multiset{}, Top, 0, 0)),
         seq(pb.workers, w => if w == pb.leader then WAITING else BLOCKED),
         seq(pb.workers, _ => AnswerWaiting), seq(pb.workers, _ => multiset{}),
         seq(|pb.adj|, v => if v == pb.source then Pack(Some(0), pb.source) else Pack(None, -1)),
         seq(|pb.adj|, _ => false), false)
  }

  /** x, without work, refuses requests and is about to ask for some. */
  lemma Wants(pb: Problem, s: View, x: nat) returns (r: View)
    requires Reachable(pb, s) && Opening(pb, s, x, Top, Top)
    ensures Reachable(pb, r) && Opening(pb, r, x, Top, Acquiring)
  {
    r := StepsOn(pb, s, x, Look);
    assert Opening(pb, r, x, Top, Blocking);
    r := StepsOn(pb, r, x, LoadOwnRequest);
  }

  /** The leader looks at its frontier, finds no request, and goes to work. */
  lemma Leads(pb: Problem, s: View, x: nat) returns (r: View)
    requires WellPosed(pb) && Reachable(pb, s) && Opening(pb, s, x, Top, Acquiring)
    ensures Reachable(pb, r) && Opening(pb, r, x, Working, Acquiring)
  {
    r := StepsOn(pb, s, pb.leader, Look);
    assert Opening(pb, r, x, Responding(1), Acquiring);
    r := StepsOn(pb, r, pb.leader, LoadRequest);
    assert Opening(pb, r, x, Deciding(1, WAITING), Acquiring);
    r := StepsOn(pb, r, pb.leader, Decide(multiset{}));
  }

  /** The leader finds the destination while x is looking for work. */
  lemma LeaderFinds(pb: Problem, s: View, x: nat, q: Walk) returns (r: View)
    requires WellPosed(pb) && pb.pollCutoff >= 1 && Reachable(pb, s) && Opening(pb, s, x, Working, Acquiring)
    requires Connects(pb.adj, q, pb.source, pb.dest)
    ensures Reachable(pb, r) && Sizes(pb, r) && r.isDone && r.workers[x] == Worker(multiset{}, Acquiring, 0, 0)
    ensures r.slot[x] == multiset{}
  {
    assert Alone(pb, s, pb.leader);
    r := FindsAlone(pb, s, pb.leader, q);
    r := StepsOn(pb, r, pb.leader, Announce);
  }

  /** With a second worker, a poll cutoff that lets workers pop at all, and a destination
      that can be reached, some run comes to the assertion without work. */
  lemma AssertionCanFail(pb: Problem, q: Walk) returns (trace: seq<View>, x: nat)
    requires WellPosed(pb) && pb.workers >= 2 && pb.pollCutoff >= 1 && Connects(pb.adj, q, pb.source, pb.dest)
    ensures Run(pb, trace) && Enabled(pb, trace[|trace| - 1], x, Swap)
    ensures After(pb, trace[|trace| - 1], x, Swap).workers[x].pc.sz == 0
  {
    x := if pb.leader == 0 then 1 else 0;
    StartIsReachable(pb, Start(pb));
    assert Opening(pb, Start(pb), x, Top, Top);
    hide Opening, Reachable, Enabled, After, Start, Initial;
    var s := Wants(pb, Start(pb), x);
    s := Leads(pb, s, x);
    s := LeaderFinds(pb, s, x, q);
    s := GoesWithout(pb, s, x);
    trace :| Ends(pb, trace, s);
  }

  /** Looking for work in vain ends in a swap with the empty slot. */
  lemma GoesWithout(pb: Problem, s: View, x: nat) returns (r: View)
    requires Reachable(pb, s) && Sizes(pb, s) && x < pb.workers && s.isDone
    requires s.workers[x] == Worker(multiset{}, Acquiring, 0, 0) && s.slot[x] == multiset{}
    ensures Reachable(pb, r) && Enabled(pb, r, x, Swap) && After(pb, r, x, Swap).workers[x].pc.sz == 0
  {
    r := StepsOn(pb, s, x, AcquireCheck);
  }

  /** The assertion after the swap holds in every run. */
  ghost predicate AssertionHolds(pb: Problem) {
    forall trace: seq<View>, i: nat, w: nat ::
      Run(pb, trace) && i < |trace| && Enabled(pb, trace[i], w, Swap) ==>
        After(pb, trace[i], w, Swap).workers[w].pc.sz > 0
  }

  /** Main theorem: the source's assertion that there is work after the swap holds in
      every run exactly when there is one worker only, or no worker ever pops, or
      there is nothing to be found. */
  lemma AssertionHoldsExactly(pb: Problem)
    requires WellPosed(pb)
    ensures AssertionHolds(pb) <==>
              pb.workers == 1 || pb.pollCutoff <= 0 || !exists q: Walk :: Connects(pb.adj, q, pb.source, pb.dest)
  {
    if pb.workers == 1 || pb.pollCutoff <= 0 || !exists q: Walk :: Connects(pb.adj, q, pb.source, pb.dest) {
      forall trace: seq<View>, i: nat, w: nat
        | Run(pb, trace) && i < |trace| && Enabled(pb, trace[i], w, Swap)
        ensures After(pb, trace[i], w, Swap).workers[w].pc.sz > 0
      {
        AssertionAfterSwap(pb, trace, i, w);
        if trace[i].isDone {
          var q := DoneMeansPath(pb, trace, i);
          if pb.pollCutoff <= 0 {
            WithoutPollsFruitless(pb, trace, i);
          } else {
            AloneMeansExited(pb, trace, i);
          }
        }
      }
    } else {
      var q: Walk :| Connects(pb.adj, q, pb.source, pb.dest);
      var trace, x := AssertionCanFail(pb, q);
    }
  }
}
