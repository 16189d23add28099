/** PWSA: parallel weighted A* by work stealing.  Each worker runs the loop of
    parallel_while_pwsa around the search body of pwsa_pc.

    One action is one atomic load, store or compare-and-swap on shared memory,
    or one purely local move; sequential consistency is assumed. */
module PwsaModel {
  import opened Graphs
  import opened PredecessorPaths

  /** splitCutoff and pollCutoff bound how long a worker goes on without sharing, and
      how many vertices it pops in one round of its loop. */
  datatype Problem = Problem(
    adj: Adjacency, source: nat, dest: nat, h: nat -> nat, splitCutoff: nat, pollCutoff: int,
    leader: nat, workers: nat)

  ghost predicate WellPosed(pb: Problem) {
    && ValidGraph(pb.adj) && pb.source < |pb.adj| && pb.dest < |pb.adj| && pb.leader < pb.workers
    && Positive(pb.adj) && pb.splitCutoff >= 1
  }

  datatype Item = Item(priority: nat, v: nat)

  datatype Answer = AnswerWaiting | AnswerRejected | AnswerTransferred

  const BLOCKED: int := -2
  const WAITING: int := -1

  datatype Pc =
    | Top
    | Blocking | BlockingCas | RejectingA(other: nat) | RejectingB(other: nat)
    | Acquiring | Resetting | Probing(other: nat) | Requesting(other: nat)
    | Awaiting(other: nat) | Judging(other: nat) | Swapping(transferred: bool)
    | Responding(sz: nat) | Deciding(sz: nat, r: int)
    | Granting(other: nat) | Refusing(other: nat) | Clearing(other: nat)
    | Working | Popped(v: nat) | Claiming(v: nat) | Reading(v: nat)
    | Relaxing(v: nat, d: nat, i: nat) | Updating(v: nat, d: nat, i: nat, seen: Pack)
    | Discovered(v: nat, d: nat, i: nat)
    | Found | Exited | Abandoned(other: nat)

  /** `mine` is my_frontier as a multiset, `polled` counts the pops of this round and
      `since` the steps since the last load balancing. */
  datatype Worker = Worker(mine: multiset<Item>, pc: Pc, polled: nat, since: nat)

  /** `slot[w]` is frontiers[w], where others leave work for w. */
  datatype View = View(
    workers: seq<Worker>, req: seq<int>, ans: seq<Answer>, slot: seq<multiset<Item>>,
    gpred: seq<Pack>, expanded: seq<bool>, isDone: bool)

  datatype Action =
    | Look
    | LoadOwnRequest | BlockCas | RejectClear | RejectAnswer
    | AcquireCheck | ResetAnswer(other: nat) | Probe | RequestCas | PollAnswer | GiveUp | Judge | Swap
    | LoadRequest | Decide(give: multiset<Item>) | Grant | Refuse | Clear
    | Pop(item: Item) | EndRound | LoadExpanded | CasExpanded | ReadDistance
    | LoadNeighbor | CasNeighbor(succeeds: bool) | InsertNeighbor | Announce

  /** size_input: 0 for no work, 2 if the frontier may be split, 1 otherwise. */
  function Size(pb: Problem, n: nat, since: nat): nat {
    if n == 0 then 0 else if n > pb.splitCutoff || (since > pb.splitCutoff && n > 1) then 2 else 1
  }

  predicate Sizes(pb: Problem, s: View) {
    && |s.workers| == |s.req| == |s.ans| == |s.slot| == pb.workers
    && |s.gpred| == |s.expanded| == |pb.adj|
  }

  function SetPc(s: View, w: nat, pc: Pc): View
    requires w < |s.workers|
  {
    s.(workers := s.workers[w := s.workers[w].(pc := pc)])
  }

  function SetWorker(s: View, w: nat, me: Worker): View
    requires w < |s.workers|
  {
    s.(workers := s.workers[w := me])
  }

  predicate Shorter(d: nat, p: Pack) {
    p.dist.None? || d < p.dist.value
  }

  predicate AtEdge(pb: Problem, v: nat, i: nat) {
    v < |pb.adj| && i < |pb.adj[v]| && pb.adj[v][i].target < |pb.adj|
  }

  predicate Enabled(pb: Problem, s: View, w: nat, a: Action) {
    && Sizes(pb, s) && w < pb.workers
    && var me := s.workers[w];
    match a
    case Look => me.pc.Top?
    case LoadOwnRequest => me.pc.Blocking?
    case BlockCas => me.pc.BlockingCas?
    case RejectClear => me.pc.RejectingA?
    case RejectAnswer => me.pc.RejectingB? && me.pc.other < pb.workers
    case AcquireCheck => me.pc.Acquiring?
    case ResetAnswer(other) => me.pc.Resetting? && other < pb.workers && other != w
    case Probe => me.pc.Probing? && me.pc.other < pb.workers
    case RequestCas => me.pc.Requesting? && me.pc.other < pb.workers
    case PollAnswer => me.pc.Awaiting?
    case GiveUp => me.pc.Awaiting? && s.isDone
    case Judge => me.pc.Judging?
    case Swap => me.pc.Swapping?
    case LoadRequest => me.pc.Responding?
    case Decide(give) =>
      && me.pc.Deciding? && me.pc.r < pb.workers
      && (me.pc.r >= 0 && me.pc.sz == 2 ==> give < me.mine && give != multiset{})
    case Grant => me.pc.Granting? && me.pc.other < pb.workers
    case Refuse => me.pc.Refusing? && me.pc.other < pb.workers
    case Clear => me.pc.Clearing?
    case Pop(item) =>
      && me.pc.Working? && me.polled < pb.pollCutoff
      && item in me.mine && forall x :: x in me.mine ==> item.priority <= x.priority
    case EndRound => me.pc.Working? && (me.polled >= pb.pollCutoff || me.mine == multiset{})
    case LoadExpanded => me.pc.Popped? && me.pc.v < |pb.adj|
    case CasExpanded => me.pc.Claiming? && me.pc.v < |pb.adj|
    case ReadDistance => me.pc.Reading? && me.pc.v < |pb.adj| && s.gpred[me.pc.v].dist.Some?
    case LoadNeighbor => me.pc.Relaxing? && me.pc.v < |pb.adj|
                         && (me.pc.i == |pb.adj[me.pc.v]| || AtEdge(pb, me.pc.v, me.pc.i))
    case CasNeighbor(_) => me.pc.Updating? && AtEdge(pb, me.pc.v, me.pc.i)
    case InsertNeighbor => me.pc.Discovered? && AtEdge(pb, me.pc.v, me.pc.i)
    case Announce => me.pc.Found?
  }

  function After(pb: Problem, s: View, w: nat, a: Action): View
    requires Enabled(pb, s, w, a)
  {
    var me := s.workers[w];
    match a
    case Look =>
      var sz := Size(pb, |me.mine|, me.since);
      if s.isDone then SetPc(s, w, Exited)
      else if sz == 0 then SetWorker(s, w, me.(pc := Blocking, since := 0))
      else SetPc(s, w, Responding(sz))
    case LoadOwnRequest =>
      SetPc(s, w, if s.req[w] == BLOCKED then Acquiring
                  else if s.req[w] < 0 then BlockingCas
                  else RejectingA(s.req[w]))
    case BlockCas =>
      if s.req[w] == WAITING then SetPc(s, w, Acquiring).(req := s.req[w := BLOCKED]) else SetPc(s, w, Blocking)
    case RejectClear => SetPc(s, w, RejectingB(me.pc.other)).(req := s.req[w := BLOCKED])
    case RejectAnswer => SetPc(s, w, Acquiring).(ans := s.ans[me.pc.other := AnswerRejected])
    case AcquireCheck => SetPc(s, w, if s.isDone then Swapping(false) else Resetting)
    case ResetAnswer(other) => SetPc(s, w, Probing(other)).(ans := s.ans[w := AnswerWaiting])
    case Probe => SetPc(s, w, if s.req[me.pc.other] == WAITING then Requesting(me.pc.other) else Acquiring)
    case RequestCas =>
      if s.req[me.pc.other] == WAITING then SetPc(s, w, Awaiting(me.pc.other)).(req := s.req[me.pc.other := w])
      else SetPc(s, w, Acquiring)
    case PollAnswer => if s.ans[w].AnswerWaiting? then s else SetPc(s, w, Judging(me.pc.other))
    case GiveUp => SetPc(s, w, Abandoned(me.pc.other))
    case Judge => SetPc(s, w, if s.ans[w].AnswerTransferred? then Swapping(true) else Acquiring)
    case Swap =>
      var sz := Size(pb, |s.slot[w]|, me.since);
      SetWorker(s, w, Worker(s.slot[w], Responding(sz), me.polled, if sz == 0 then 0 else me.since))
      .(slot := s.slot[w := me.mine])
    case LoadRequest => SetWorker(s, w, me.(pc := Deciding(me.pc.sz, s.req[w]), polled := 0))
    case Decide(give) =>
      if me.pc.r == BLOCKED then SetPc(s, w, Working).(req := s.req[w := WAITING])
      else if me.pc.r < 0 then SetPc(s, w, Working)
      else if me.pc.sz == 2
      then SetWorker(s, w, Worker(me.mine - give, Granting(me.pc.r), me.polled, 0)).(slot := s.slot[me.pc.r := give])
      else SetPc(s, w, Refusing(me.pc.r))
    case Grant => SetPc(s, w, Clearing(me.pc.other)).(ans := s.ans[me.pc.other := AnswerTransferred])
    case Refuse => SetPc(s, w, Clearing(me.pc.other)).(ans := s.ans[me.pc.other := AnswerRejected])
    case Clear => SetPc(s, w, Working).(req := s.req[w := WAITING])
    case Pop(item) => SetWorker(s, w, Worker(me.mine - multiset{item}, Popped(item.v), me.polled + 1, me.since))
    case EndRound => SetWorker(s, w, me.(pc := Top, since := me.since + me.polled))
    case LoadExpanded => SetPc(s, w, if s.expanded[me.pc.v] then Working else Claiming(me.pc.v))
    case CasExpanded =>
      if s.expanded[me.pc.v] then SetPc(s, w, Working)
      else SetPc(s, w, if me.pc.v == pb.dest then Found else Reading(me.pc.v)).(expanded := s.expanded[me.pc.v := true])
    case ReadDistance => SetPc(s, w, Relaxing(me.pc.v, s.gpred[me.pc.v].dist.value, 0))
    case LoadNeighbor =>
      if me.pc.i == |pb.adj[me.pc.v]| then SetPc(s, w, Working)
      else
        var e := pb.adj[me.pc.v][me.pc.i];
        if Shorter(me.pc.d + e.weight, s.gpred[e.target])
        then SetPc(s, w, Updating(me.pc.v, me.pc.d, me.pc.i, s.gpred[e.target]))
        else SetPc(s, w, Relaxing(me.pc.v, me.pc.d, me.pc.i + 1))
    case CasNeighbor(succeeds) =>
      var e := pb.adj[me.pc.v][me.pc.i];
      if succeeds && s.gpred[e.target] == me.pc.seen
      then SetPc(s, w, Discovered(me.pc.v, me.pc.d, me.pc.i))
           .(gpred := s.gpred[e.target := Pack(Some(me.pc.d + e.weight), me.pc.v)])
      else SetPc(s, w, Relaxing(me.pc.v, me.pc.d, me.pc.i))
    case InsertNeighbor =>
      var e := pb.adj[me.pc.v][me.pc.i];
      var mine := if s.expanded[e.target] then me.mine
                  else me.mine + multiset{Item(me.pc.d + e.weight + pb.h(e.target), e.target)};
      SetWorker(s, w, me.(mine := mine, pc := Relaxing(me.pc.v, me.pc.d, me.pc.i + 1)))
    case Announce => SetPc(s, w, Exited).(isDone := true)
  }

  ghost predicate Initial(pb: Problem, s: View) {
    && Sizes(pb, s) && pb.source < |pb.adj| && pb.leader < pb.workers && !s.isDone
    && (forall w :: 0 <= w < pb.workers ==>
          && s.workers[w].pc == Top && s.workers[w].polled == s.workers[w].since == 0 && s.slot[w] == multiset{}
          && s.workers[w].mine == (if w == pb.leader then multiset{Item(pb.h(pb.source), pb.source)} else multiset{})
          && s.req[w] == (if w == pb.leader then WAITING else BLOCKED))
    && (forall v :: 0 <= v < |pb.adj| ==>
          !s.expanded[v] && s.gpred[v] == if v == pb.source then Pack(Some(0), pb.source) else Pack(None, -1))
  }

  ghost predicate Next(pb: Problem, s: View, r: View) {
    exists w, a :: Enabled(pb, s, w, a) && r == After(pb, s, w, a)
  }

  ghost predicate Run(pb: Problem, trace: seq<View>) {
    && |trace| > 0 && Initial(pb, trace[0])
    && forall i :: 0 <= i < |trace| - 1 ==> Next(pb, trace[i], trace[i + 1])
  }
}
