/** Whole runs of the PBNF scheduler: any number of workers, any interleaving of the
    parts of its critical sections and of the searching done outside them. */
module NBlockRuns {
  import opened Graphs
  import opened NBlocks
  import opened NBlockScheduler

  datatype Event =
    | GiveBack(w: nat, b: nat)
    | TakeBlock(w: nat, b: nat)
    | PruneFreeList(w: nat, front: nat)
    | DeclareDone(w: nat)
    | Heat(b: nat)
    | WontRelease(b: nat)
    | SearchBlock(w: nat, b: nat, best: seq<Option<nat>>)
    | ImproveBound(bound: nat)

  /** w holds no block, so it may be asking for one. */
  predicate Free(v: View, w: nat) {
    w < |v.held| && v.held[w] == None
  }

  /** The guards under which the scheduler and the workers do these things.  Only a
      worker without a block looks at the free list: it takes the front if that is
      worth searching, and empties the list if not. */
  ghost predicate Enabled(k: Setup, v: View, e: Event) {
    && HasScopes(k, v)
    && match e
       case GiveBack(w, b) => w < |v.held| && v.held[w] == Some(b) && b < |k.scope|
       case TakeBlock(w, b) =>
         && Free(v, w) && !v.done && b < |k.scope|
         && Foremost(v, b) && !k.prunes(v.best[b].value, v.bound)
       case PruneFreeList(w, front) =>
         && Free(v, w) && !v.done
         && Foremost(v, front) && k.prunes(v.best[front].value, v.bound)
       case DeclareDone(w) => Free(v, w) && v.numSigmaZero == |k.scope| && v.free == []
       case Heat(b) => b < |k.scope| && !v.hot[b] && v.sigma[b] > 0
       case WontRelease(b) => b < |k.scope| && InRange(k.scope[b], |k.scope|)
       case SearchBlock(w, b, best) =>
         && w < |v.held| && v.held[w] == Some(b) && b < |k.p.succs| && Searches(k, v, v.(best := best), b)
       case ImproveBound(bound) => bound <= v.bound
  }

  ghost function After(k: Setup, v: View, e: Event): View
    requires Enabled(k, v, e)
  {
    match e
    case GiveBack(w, b) => Release(k, v, w, b)
    case TakeBlock(w, b) => Acquire(k, v, w, b)
    case PruneFreeList(_, _) => v.(free := [])
    case DeclareDone(_) => v.(done := true)
    case Heat(b) => SetHot(k, v, b)
    case WontRelease(b) => CoolAll(k, v, k.scope[b])
    case SearchBlock(_, _, best) => v.(best := best)
    case ImproveBound(bound) => v.(bound := bound)
  }

  ghost predicate Run(k: Setup, trace: seq<View>, events: seq<Event>, init: nat, f: nat) {
    && |trace| == |events| + 1 && Initial(k, trace[0], init, f)
    && forall i :: 0 <= i < |events| ==>
         Enabled(k, trace[i], events[i]) && trace[i + 1] == After(k, trace[i], events[i])
  }

  lemma EventKeepsInv(k: Setup, v: View, e: Event)
    requires WellSet(k) && Inv(k, v) && Enabled(k, v, e)
    ensures Inv(k, After(k, v, e))
  {
    hide Inv, Release, Acquire, SetHot, CoolAll;
    match e
    case GiveBack(w, b) => ReleaseKeepsInv(k, v, w, b);
    case TakeBlock(w, b) => AcquireKeepsInv(k, v, w, b);
    case PruneFreeList(_, front) => PruneKeepsInv(k, v, front);
    case DeclareDone(_) => StopKeepsInv(k, v);
    case Heat(b) => SetHotKeepsInv(k, v, b);
    case WontRelease(b) => CoolAllKeepsInv(k, v, k.scope[b]);
    case SearchBlock(w, b, best) => SearchKeepsInv(k, v, v.(best := best), w, b);
    case ImproveBound(bound) => LowerBoundKeepsInv(k, v, bound);
  }

  lemma {:induction false} RunKeepsInv(k: Setup, trace: seq<View>, events: seq<Event>, init: nat, f: nat, i: nat)
    requires WellSet(k) && Run(k, trace, events, init, f) && i < |trace|
    ensures Inv(k, trace[i])
  {
    hide Inv, WellSet, Enabled, After;
    if i == 0 {
      InitialOk(k, trace[0], init, f);
    } else {
      RunKeepsInv(k, trace, events, init, f, i - 1);
      assert Enabled(k, trace[i - 1], events[i - 1]) && trace[i - 1 + 1] == After(k, trace[i - 1], events[i - 1]);
      EventKeepsInv(k, trace[i - 1], events[i - 1]);
    }
  }

  /** Main theorem: in every reachable state the counters are exactly the numbers of
      neighbours in use and of hot neighbours, hot blocks have a neighbour in use, and
      the free list holds free blocks only, once each. */
  lemma CountersAreRight(k: Setup, trace: seq<View>, events: seq<Event>, init: nat, f: nat, i: nat, b: nat)
    requires WellSet(k) && Run(k, trace, events, init, f) && i < |trace| && b < |k.scope|
    ensures Sizes(|k.scope|, trace[i])
    ensures trace[i].sigma[b] == |Near(trace[i].inuse, k.scope, b)|
    ensures trace[i].sigmaHot[b] == |Near(trace[i].hot, k.scope, b)|
    ensures trace[i].numSigmaZero == |Zeros(trace[i].sigma)|
    ensures trace[i].hot[b] ==> trace[i].sigma[b] > 0
    ensures NoDuplicates(trace[i].free) && forall c :: c in trace[i].free ==> c < |k.scope| && IsFree(trace[i], c)
  {
    RunKeepsInv(k, trace, events, init, f, i);
  }

  /** Main theorem: in every reachable state the duplicate-detection scopes of two
      blocks in use are disjoint. */
  lemma ScopesNeverOverlap(
      k: Setup, trace: seq<View>, events: seq<Event>, init: nat, f: nat, i: nat, b: nat, c: nat, d: nat)
    requires WellSet(k) && Run(k, trace, events, init, f) && i < |trace|
    requires b < |k.scope| && c < |k.scope| && d < |k.scope| && b != c
    ensures |trace[i].inuse| == |k.scope| == |k.p.succs|
    ensures trace[i].inuse[b] && trace[i].inuse[c] ==> !(Touches(k.p, b, d) && Touches(k.p, c, d))
  {
    RunKeepsInv(k, trace, events, init, f, i);
    if trace[i].inuse[b] && trace[i].inuse[c] { ScopesAreDisjoint(k, trace[i], b, c, d); }
  }

  /** Main theorem: without isolated blocks, from the moment the search is declared
      done on, no block is in use or hot and none holds a node worth expanding. */
  lemma DoneMeansFinished(k: Setup, trace: seq<View>, events: seq<Event>, init: nat, f: nat, i: nat, j: nat)
    requires WellSet(k) && NoneIsolated(k.scope) && Run(k, trace, events, init, f) && i <= j < |trace| && trace[i].done
    ensures Sizes(|k.scope|, trace[j]) && trace[j].done && Finished(k, trace[j])
  {
    DoneStays(k, trace, events, init, f, i, j);
    RunKeepsInv(k, trace, events, init, f, j);
  }

  lemma {:induction false} DoneStays(k: Setup, trace: seq<View>, events: seq<Event>, init: nat, f: nat, i: nat, j: nat)
    requires Run(k, trace, events, init, f) && i <= j < |trace| && trace[i].done
    ensures trace[j].done
  {
    if i < j {
      DoneStays(k, trace, events, init, f, i, j - 1);
      assert Enabled(k, trace[j - 1], events[j - 1]) && trace[j - 1 + 1] == After(k, trace[j - 1], events[j - 1]);
    }
  }

  // ---------- when the stop test can be trusted ----------

  /** The start of a search of n blocks by `workers` workers. */
  function Start(n: nat, init: nat, f: nat, bound: nat, workers: nat): View {
    View(seq(n, _ => 0), seq(n, _ => 0), seq(n, _ => false), seq(n, _ => false),
         seq(n, b => if b == init then Some(f) else None),
         [init], n, bound, false, seq(workers, _ => None))
  }

  /** With a second worker, a search that starts in an isolated block worth searching
      can end too early: one worker takes the block, and the next, which finds the
      list empty and every sigma zero, declares the search done. */
  lemma IsolatedBlockEndsSearch(k: Setup, b: nat, f: nat, bound: nat, workers: nat)
      returns (trace: seq<View>, events: seq<Event>)
    requires WellSet(k) && b < |k.scope| && k.scope[b] == [] && workers >= 2 && !k.prunes(f, bound)
    ensures Run(k, trace, events, b, f) && trace[0] == Start(|k.scope|, b, f, bound, workers) && |trace| == 3
    ensures Sizes(|k.scope|, trace[2]) && trace[2].done && !Finished(k, trace[2])
    ensures |trace[2].held| == workers && trace[2].held[0] == Some(b) && events[1] == DeclareDone(1)
  {
    ScopesAreSymmetric(k.p, k.scope);
    var start := Start(|k.scope|, b, f, bound, workers);
    events := [TakeBlock(0, b), DeclareDone(1)];
    assert HasScopes(k, start);
    assert Enabled(k, start, events[0]);
    var taken := After(k, start, events[0]);
    assert taken == start.(inuse := start.inuse[b := true], free := [], held := start.held[0 := Some(b)]);
    assert Enabled(k, taken, events[1]);
    trace := [start, taken, After(k, taken, events[1])];
    assert trace[2].inuse[b];
  }

  /** Once a search is finished, nothing that can still happen undoes that. */
  lemma FinishedStays(k: Setup, v: View, e: Event)
    requires WellSet(k) && Inv(k, v) && Enabled(k, v, e) && v.done && Finished(k, v)
    ensures Sizes(|k.scope|, After(k, v, e)) && Finished(k, After(k, v, e))
  {
    match e
    case GiveBack(w, b) =>
    case TakeBlock(_, _) =>
    case PruneFreeList(_, _) =>
    case DeclareDone(_) =>
    case Heat(b) => BusyMeansUnfinished(k, v, b);
    case WontRelease(b) => CoolAllKeepsInv(k, v, k.scope[b]);
    case SearchBlock(w, b, _) =>
    case ImproveBound(_) =>
  }

  /** An isolated block other than the first one is out of the search's reach. */
  ghost predicate Unreached(v: View, b: nat) {
    b < |v.best| == |v.inuse| && v.best[b] == None && !v.inuse[b]
  }

  lemma StaysUnreached(k: Setup, v: View, e: Event, b: nat)
    requires WellSet(k) && Inv(k, v) && Enabled(k, v, e) && b < |k.scope| && k.scope[b] == [] && Unreached(v, b)
    ensures Unreached(After(k, v, e), b)
  {
    if e.SearchBlock? {
      assert e.b != b && !Interferes(k.p, b, e.b);
    }
  }

  lemma StartsUnreached(k: Setup, v: View, init: nat, f: nat, b: nat)
    requires Initial(k, v, init, f) && b < |k.scope| && b != init
    ensures Unreached(v, b)
  {
  }

  lemma {:induction false} IsolatedIsUnreached(
      k: Setup, trace: seq<View>, events: seq<Event>, init: nat, f: nat, i: nat, b: nat)
    requires WellSet(k) && Run(k, trace, events, init, f) && i < |trace|
    requires b < |k.scope| && k.scope[b] == [] && b != init
    ensures Unreached(trace[i], b)
  {
    hide Inv, WellSet, Enabled, After, Unreached, Initial;
    if i == 0 {
      StartsUnreached(k, trace[0], init, f, b);
    } else {
      var v, e := trace[i - 1], events[i - 1];
      assert Enabled(k, v, e) && trace[i - 1 + 1] == After(k, v, e);
      IsolatedIsUnreached(k, trace, events, init, f, i - 1, b);
      RunKeepsInv(k, trace, events, init, f, i - 1);
      hide Run;
      StaysUnreached(k, v, e, b);
    }
  }

  /** No worker holds a block. */
  ghost predicate NoneHeld(v: View) {
    forall w :: 0 <= w < |v.held| ==> v.held[w] == None
  }

  /** Every value is pruned, whatever the bound: no block is ever handed out. */
  ghost predicate PrunesAll(k: Setup) {
    forall f, bound :: k.prunes(f, bound)
  }

  lemma {:induction false} NothingIsTaken(
      k: Setup, trace: seq<View>, events: seq<Event>, init: nat, f: nat, i: nat)
    requires PrunesAll(k) && Run(k, trace, events, init, f) && i < |trace|
    ensures NoneHeld(trace[i])
  {
    if i > 0 {
      NothingIsTaken(k, trace, events, init, f, i - 1);
      assert Enabled(k, trace[i - 1], events[i - 1]) && trace[i - 1 + 1] == After(k, trace[i - 1], events[i - 1]);
    }
  }

  lemma {:induction false} WorkersStay(k: Setup, trace: seq<View>, events: seq<Event>, init: nat, f: nat, i: nat)
    requires Run(k, trace, events, init, f) && i < |trace|
    ensures |trace[i].held| == |trace[0].held|
  {
    if i > 0 {
      WorkersStay(k, trace, events, init, f, i - 1);
      assert Enabled(k, trace[i - 1], events[i - 1]) && trace[i - 1 + 1] == After(k, trace[i - 1], events[i - 1]);
    }
  }

  /** The condition can be checked before the search: it does not start in an isolated
      block, or there is one worker only, or no value is ever worth searching. */
  ghost predicate Trusted(k: Setup, init: nat, workers: nat)
    requires init < |k.scope|
  {
    k.scope[init] != [] || workers <= 1 || PrunesAll(k)
  }

  /** Then no isolated block is in use when the stop test succeeds. */
  lemma StopTestIsTrusted(k: Setup, trace: seq<View>, events: seq<Event>, init: nat, f: nat, i: nat, w: nat)
    requires WellSet(k) && Run(k, trace, events, init, f) && i < |trace|
    requires init < |k.scope| && Trusted(k, init, |trace[0].held|)
    requires Enabled(k, trace[i], DeclareDone(w))
    ensures Sizes(|k.scope|, trace[i]) && Finished(k, trace[i])
  {
    RunKeepsInv(k, trace, events, init, f, i);
    var v := trace[i];
    forall b | 0 <= b < |k.scope| && k.scope[b] == [] ensures !v.inuse[b] {
      if b != init {
        IsolatedIsUnreached(k, trace, events, init, f, i, b);
      } else if |trace[0].held| <= 1 {
        WorkersStay(k, trace, events, init, f, i);
        assert NoneHeld(v);
      } else {
        NothingIsTaken(k, trace, events, init, f, i);
      }
    }
    StopTestIsExact(k, v);
  }

  lemma StartsUndone(k: Setup, v: View, init: nat, f: nat)
    requires Initial(k, v, init, f)
    ensures !v.done
  {
  }

  lemma {:induction false} DoneIsFinished(
      k: Setup, trace: seq<View>, events: seq<Event>, init: nat, f: nat, i: nat)
    requires WellSet(k) && Run(k, trace, events, init, f) && i < |trace|
    requires init < |k.scope| && Trusted(k, init, |trace[0].held|)
    ensures trace[i].done ==> Sizes(|k.scope|, trace[i]) && Finished(k, trace[i])
  {
    hide Inv, WellSet, Enabled, After, Finished, Trusted, Initial, Sizes;
    if i == 0 {
      StartsUndone(k, trace[0], init, f);
    } else {
      var v, e := trace[i - 1], events[i - 1];
      assert Enabled(k, v, e) && trace[i - 1 + 1] == After(k, v, e);
      hide Run;
      DoneIsFinished(k, trace, events, init, f, i - 1);
      RunKeepsInv(k, trace, events, init, f, i - 1);
      if v.done {
        FinishedStays(k, v, e);
      } else if trace[i].done {
        OnlyStopTestEnds(k, v, e);
        StopTestIsTrusted(k, trace, events, init, f, i - 1, e.w);
        OnlyDoneChanges(k, v);
      }
    }
  }

  lemma OnlyDoneChanges(k: Setup, v: View)
    requires Sizes(|k.scope|, v) && Finished(k, v)
    ensures Sizes(|k.scope|, v.(done := true)) && Finished(k, v.(done := true))
  {
  }

  lemma OnlyStopTestEnds(k: Setup, v: View, e: Event)
    requires Enabled(k, v, e) && !v.done && After(k, v, e).done
    ensures e.DeclareDone? && After(k, v, e) == v.(done := true)
  {
  }

  /** In every search by that many workers that starts in init: from the moment it is
      declared done, it is finished. */
  ghost predicate StopsInTime(k: Setup, init: nat, workers: nat) {
    forall trace: seq<View>, events, f: nat, i: nat, j: nat ::
      Run(k, trace, events, init, f) && |trace[0].held| == workers && i <= j < |trace| && trace[i].done ==>
        Sizes(|k.scope|, trace[j]) && Finished(k, trace[j])
  }

  /** Main theorem: that holds of all runs exactly under the condition above. */
  lemma StopsInTimeExactly(k: Setup, init: nat, workers: nat)
    requires WellSet(k) && init < |k.scope|
    ensures StopsInTime(k, init, workers) <==> Trusted(k, init, workers)
  {
    if Trusted(k, init, workers) {
      forall trace: seq<View>, events, f: nat, i: nat, j: nat
        | Run(k, trace, events, init, f) && |trace[0].held| == workers && i <= j < |trace| && trace[i].done
        ensures Sizes(|k.scope|, trace[j]) && Finished(k, trace[j])
      {
        DoneStays(k, trace, events, init, f, i, j);
        DoneIsFinished(k, trace, events, init, f, j);
      }
    } else {
      var f: nat, bound: nat :| !k.prunes(f, bound);
      var trace, events := IsolatedBlockEndsSearch(k, init, f, bound, workers);
      assert Run(k, trace, events, init, f) && trace[2].done;
    }
  }

  /** A single worker is never wrong, isolated blocks included. */
  lemma OneWorkerStopsInTime(k: Setup, trace: seq<View>, events: seq<Event>, init: nat, f: nat, i: nat, j: nat)
    requires WellSet(k) && Run(k, trace, events, init, f) && |trace[0].held| == 1
    requires i <= j < |trace| && trace[i].done
    ensures Sizes(|k.scope|, trace[j]) && Finished(k, trace[j])
  {
    DoneStays(k, trace, events, init, f, i, j);
    DoneIsFinished(k, trace, events, init, f, j);
  }

  /** The projection of a grid by its rows modulo one has an isolated block: its only
      block is listed as its own neighbour twice, and its scope is empty. */
  lemma DoneTooEarly() returns (k: Setup, trace: seq<View>, events: seq<Event>)
    ensures k.p == Projection([[0, 0]], [[0, 0]]) && WellSet(k) && Run(k, trace, events, 0, 3) && |trace| == 3
    ensures Sizes(|k.scope|, trace[2]) && trace[2].done && !Finished(k, trace[2])
    ensures |trace[2].held| == 2 && trace[2].held[0] == Some(0)
  {
    k := Setup(Projection([[0, 0]], [[0, 0]]), [[]], (f, b) => f >= b);
    trace, events := IsolatedBlockEndsSearch(k, 0, 3, 10, 2);
  }
}
