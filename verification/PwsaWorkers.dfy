/** A PWSA worker's loops as the source writes them.  Each line of a method is one
    action of the model, after which the other workers take any number of steps.
    `patience` bounds how often a worker looks again; a worker that runs out of it
    simply stops being scheduled. */
module PwsaWorkers {
  import opened Graphs
  import opened PredecessorPaths
  import opened PwsaModel
  import opened PwsaProtocol
  import opened PwsaStealing
  import opened PwsaSearch
  import opened PwsaCoverage

  datatype Turn = Turn(w: nat, a: Action)

  /** A schedule of steps of workers other than `me`. */
  predicate Legal(pb: Problem, s: View, turns: seq<Turn>, me: nat)
    decreases |turns|
  {
    turns == []
    || (turns[0].w != me && Enabled(pb, s, turns[0].w, turns[0].a)
        && Legal(pb, After(pb, s, turns[0].w, turns[0].a), turns[1..], me))
  }

  predicate Sticky(was: seq<bool>, now: seq<bool>) {
    |was| == |now| && forall v :: 0 <= v < |was| && was[v] ==> now[v]
  }

  /** What worker `me` can still rely on when others have acted between s and r: its
      own variables; its request cell, unless that was open; the part of its
      frontier it is about to hand over; distances only shrink, and neither an
      expansion nor the end of the search is undone. */
  ghost predicate Kept(s: View, r: View, me: nat) {
    && me < |s.workers| == |s.req| == |r.workers| == |r.req| && |r.slot| == |s.slot|
    && r.workers[me] == s.workers[me]
    && (if s.req[me] == WAITING then r.req[me] >= WAITING else r.req[me] == s.req[me])
    && (s.workers[me].pc.Granting? && s.workers[me].pc.other < |s.slot| ==>
          r.slot[s.workers[me].pc.other] == s.slot[s.workers[me].pc.other])
    && Closer(s.gpred, r.gpred) && Sticky(s.expanded, r.expanded) && (s.isDone ==> r.isDone)
  }

  lemma KeptAfter(was: View, s: View, r: View, me: nat)
    requires Closer(was.gpred, s.gpred) && Sticky(was.expanded, s.expanded) && (was.isDone ==> s.isDone)
    requires Kept(s, r, me)
    ensures Closer(was.gpred, r.gpred) && Sticky(was.expanded, r.expanded) && (was.isDone ==> r.isDone)
  {
  }

  lemma KeptOn(s: View, m: View, r: View, me: nat)
    requires Kept(s, m, me) && Kept(m, r, me)
    ensures Kept(s, r, me)
  {
  }

  lemma OthersKeepCell(pb: Problem, s: View, x: nat, a: Action, me: nat)
    requires Enabled(pb, s, x, a) && me < pb.workers && x != me
    ensures Sizes(pb, After(pb, s, x, a))
    ensures if s.req[me] == WAITING then After(pb, s, x, a).req[me] >= WAITING
            else After(pb, s, x, a).req[me] == s.req[me]
  {
    if !a.RequestCas? { OwnCellOnly(pb, s, x, a, me); }
  }

  /** Only a request writes into the cell of another worker. */
  lemma OwnCellOnly(pb: Problem, s: View, x: nat, a: Action, me: nat)
    requires Enabled(pb, s, x, a) && me < pb.workers && x != me && !a.RequestCas?
    ensures Sizes(pb, After(pb, s, x, a)) && After(pb, s, x, a).req[me] == s.req[me]
  {
  }

  /** While `me` grants a request of t's, t waits and nobody else decides on it. */
  lemma GrantIsAlone(pb: Problem, s: View, x: nat, me: nat, t: nat)
    requires ProtoInv(pb, s) && me < pb.workers && x < pb.workers && x != me && t < pb.workers
    requires s.workers[me].pc == Granting(t)
    ensures s.workers[t].pc.Awaiting? || s.workers[t].pc.Abandoned?
    ensures s.workers[x].pc.Deciding? ==> s.workers[x].pc.r != t
  {
    GranterOwes(pb, s, me, t);
    assert OwnOk(pb, s, x) && DebtOk(pb, s, x, t) && DebtOk(pb, s, me, t);
  }

  /** Nobody else touches the slot that `me` has filled for the worker it is answering. */
  lemma OthersKeepGrant(pb: Problem, s: View, x: nat, a: Action, me: nat)
    requires ProtoInv(pb, s) && Enabled(pb, s, x, a) && me < pb.workers && x != me
    requires s.workers[me].pc.Granting? && s.workers[me].pc.other < pb.workers
    ensures Sizes(pb, After(pb, s, x, a))
    ensures After(pb, s, x, a).slot[s.workers[me].pc.other] == s.slot[s.workers[me].pc.other]
  {
    var t := s.workers[me].pc.other;
    assert (a.Swap? ==> s.workers[x].pc.Swapping?) && (a.Decide? ==> s.workers[x].pc.Deciding?);
    hide After, Enabled, ProtoInv;
    GrantIsAlone(pb, s, x, me, t);
    SlotsOfOthers(pb, s, x, a, t);
    OthersKeepLocals(pb, s, x, a, me);
  }

  lemma SlotsOfOthers(pb: Problem, s: View, x: nat, a: Action, t: nat)
    requires Enabled(pb, s, x, a) && t < pb.workers && !(a.Swap? && x == t) && !(a.Decide? && s.workers[x].pc.r == t)
    ensures |After(pb, s, x, a).slot| == |s.slot| && After(pb, s, x, a).slot[t] == s.slot[t]
  {
  }

  lemma ActionSticks(pb: Problem, s: View, w: nat, a: Action)
    requires Enabled(pb, s, w, a)
    ensures w < pb.workers && Sizes(pb, After(pb, s, w, a))
    ensures (s.isDone ==> After(pb, s, w, a).isDone) && Sticky(s.expanded, After(pb, s, w, a).expanded)
  {
  }

  lemma OthersKeep(pb: Problem, s: View, x: nat, a: Action, me: nat)
    requires WellPosed(pb) && SearchInv(pb, s) && Enabled(pb, s, x, a) && me < pb.workers && x != me
    ensures Kept(s, After(pb, s, x, a), me)
  {
    hide After, PathInv, CoverInv, ProtoInv;
    OthersKeepLocals(pb, s, x, a, me);
    OthersKeepCell(pb, s, x, a, me);
    ActionSticks(pb, s, x, a);
    ActionComesCloser(pb, s, x, a);
    if s.workers[me].pc.Granting? && s.workers[me].pc.other < pb.workers {
      OthersKeepGrant(pb, s, x, a, me);
    }
  }

  /** An answer a worker has stored for another. */
  datatype Reply = Reply(asker: nat, answer: Answer)

  ghost function Given(s: View, w: nat, a: Action): seq<Reply> {
    if w >= |s.workers| then []
    else
      var pc := s.workers[w].pc;
      if a.RejectAnswer? && pc.RejectingB? then [Reply(pc.other, AnswerRejected)]
      else if a.Refuse? && pc.Refusing? then [Reply(pc.other, AnswerRejected)]
      else if a.Grant? && pc.Granting? then [Reply(pc.other, AnswerTransferred)]
      else []
  }

  /** A reply is what the action stores in the asker's cell, and there is no other way
      to change another worker's answer. */
  lemma GivenIsStored(pb: Problem, s: View, w: nat, a: Action, t: nat)
    requires Enabled(pb, s, w, a) && t < pb.workers && t != w
    ensures |After(pb, s, w, a).ans| == |s.ans|
    ensures After(pb, s, w, a).ans[t]
         == if Given(s, w, a) != [] && Given(s, w, a)[0].asker == t then Given(s, w, a)[0].answer else s.ans[t]
  {
  }

  /** What the invariant gives a worker for its next shared access. */
  lemma ReadyToRead(pb: Problem, s: View, w: nat)
    requires WellPosed(pb) && SearchInv(pb, s) && w < pb.workers
    ensures Sizes(pb, s)
    ensures var pc := s.workers[w].pc;
            && (pc.Popped? || pc.Claiming? ==> pc.v < |pb.adj|)
            && (pc.Reading? ==> pc.v < |pb.adj| && s.gpred[pc.v].dist.Some?)
            && (pc.Relaxing? ==> pc.v < |pb.adj| && pc.i <= |pb.adj[pc.v]|)
            && (pc.Relaxing? && pc.i < |pb.adj[pc.v]| ==> AtEdge(pb, pc.v, pc.i))
            && (pc.Updating? || pc.Discovered? ==> AtEdge(pb, pc.v, pc.i))
            && BLOCKED <= s.req[w] < pb.workers
            && (pc.Deciding? ==> BLOCKED <= pc.r < pb.workers)
            && (pc.Responding? || pc.Deciding? ==> SizeFits(pb, s.workers[w], pc.sz, s.isDone))
            && (pc.Deciding? && pc.sz == 2 ==> |s.workers[w].mine| >= 2)
            && (Idle(pc) ==> s.req[w] == BLOCKED)
            && (pc == Swapping(true) ==> s.slot[w] != multiset{}) && (pc == Swapping(false) ==> s.isDone)
  {
    assert OwnOk(pb, s, w) && PcKnown(pb, s.gpred, s.workers[w].pc);
  }

  lemma InsertIsEnabled(pb: Problem, s: View, w: nat)
    requires WellPosed(pb) && SearchInv(pb, s) && w < pb.workers && w < |s.workers| && s.workers[w].pc.Discovered?
    ensures Enabled(pb, s, w, InsertNeighbor) && Given(s, w, InsertNeighbor) == []
    ensures InsertMovesTo(pb, s, w, After(pb, s, w, InsertNeighbor))
  {
    ReadyToRead(pb, s, w);
    hide SearchInv;
  }

  /** w has put the neighbour into its frontier, or left it because it is expanded. */
  ghost predicate InsertMovesTo(pb: Problem, s: View, w: nat, r: View) {
    && w < |s.workers| == |r.workers| && s.workers[w].pc.Discovered?
    && var pc := s.workers[w].pc;
    && AtEdge(pb, pc.v, pc.i)
    && var e := pb.adj[pc.v][pc.i];
    && r.workers[w].pc == Relaxing(pc.v, pc.d, pc.i + 1) && r.workers[w].polled == s.workers[w].polled
    && (|| r.workers[w].mine == s.workers[w].mine + multiset{Item(pc.d + e.weight + pb.h(e.target), e.target)}
        || (r.workers[w].mine == s.workers[w].mine && e.target < |r.expanded| && r.expanded[e.target]))
  }

  lemma InsertStays(pb: Problem, s: View, w: nat, r: View, now: View)
    requires InsertMovesTo(pb, s, w, r) && Kept(r, now, w)
    ensures InsertMovesTo(pb, s, w, now)
  {
  }

  /** How a worker that finds the request r in its cell may have answered when it has
      blocked it: a request is rejected, a blocked cell needs no answer, and into
      an open one a request may have come meanwhile. */
  ghost predicate Refused(r: int, was: seq<Reply>, now: seq<Reply>) {
    || (r < 0 && now == was)
    || exists t :: now == was + [Reply(t, AnswerRejected)] && (if r >= 0 then t == r else r == WAITING)
  }

  /** The answer due to the request found in the cell. */
  function Due(r: int, splits: bool): seq<Reply> {
    if r < 0 then [] else [Reply(r, if splits then AnswerTransferred else AnswerRejected)]
  }

  lemma SearchInvMeans(pb: Problem, s: View)
    requires SearchInv(pb, s)
    ensures PathInv(pb, s)
  {
  }

  lemma KeptAtFirst(pb: Problem, s: View, me: nat)
    requires Sizes(pb, s) && me < pb.workers
    ensures Kept(s, s, me)
  {
  }

  /** The load of a neighbour: either its distance is no larger already, or a
      compare-and-swap is worth trying. */
  lemma LookingMeans(pb: Problem, s: View, w: nat, v: nat, d: nat, i: nat)
    requires WellPosed(pb) && SearchInv(pb, s) && w < pb.workers && w < |s.workers|
    requires s.workers[w].pc == Relaxing(v, d, i) && v < |pb.adj| && i < |pb.adj[v]|
    ensures Enabled(pb, s, w, LoadNeighbor) && AtEdge(pb, v, i)
    ensures var r := After(pb, s, w, LoadNeighbor);
            var e := pb.adj[v][i];
            && |r.workers| == |s.workers| && r.workers[w].mine == s.workers[w].mine && r.gpred == s.gpred
            && e.target < |s.gpred|
            && if Shorter(d + e.weight, s.gpred[e.target])
               then r.workers[w].pc == Updating(v, d, i, s.gpred[e.target])
               else r.workers[w].pc == Relaxing(v, d, i + 1)
  {
    ReadyToRead(pb, s, w);
  }

  lemma MayDecide(pb: Problem, s: View, w: nat, a: Action)
    requires Sizes(pb, s) && w < pb.workers && w < |s.workers| && a.Decide? && s.workers[w].pc.Deciding?
    requires s.workers[w].pc.r < pb.workers
    requires s.workers[w].pc.sz == 2 ==> a.give < s.workers[w].mine && a.give != multiset{}
    ensures Enabled(pb, s, w, a) && Given(s, w, a) == []
  {
  }

  /** A decision: nothing is asked, the request is refused, or a part of the frontier goes
      into the asker's slot. */
  lemma DecidingMeans(pb: Problem, s: View, r: View, w: nat, a: Action)
    requires Enabled(pb, s, w, a) && r == After(pb, s, w, a) && a.Decide?
    requires w < |s.workers| && s.workers[w].pc.Deciding? && BLOCKED <= s.workers[w].pc.r
    ensures w < |r.workers| && |r.slot| == |s.slot| == pb.workers && w < |r.req| == |s.req|
    ensures var me, now := s.workers[w], r.workers[w];
            var asker := me.pc.r;
            && now.polled == me.polled && asker < pb.workers
            && (asker < 0 ==> now.mine == me.mine && now.pc.Working?)
            && (asker == BLOCKED ==> r.req[w] == WAITING) && (asker != BLOCKED ==> r.req == s.req)
            && (asker >= 0 && me.pc.sz != 2 ==> now == me.(pc := Refusing(asker)))
            && (asker >= 0 && me.pc.sz == 2 ==>
                  && now.pc == Granting(asker) && now.mine + r.slot[asker] == me.mine
                  && now.mine != multiset{} && r.slot[asker] != multiset{})
  {
    var me := s.workers[w];
    if me.pc.r >= 0 && me.pc.sz == 2 {
      SomethingIsLeft(me.mine, a.give);
      assert me.mine - a.give + a.give == me.mine;
    }
  }

  class Workers {
    const pb: Problem
    var workers: seq<Worker>
    var req: seq<int>
    var ans: seq<Answer>
    var slot: seq<multiset<Item>>
    var gpred: seq<Pack>
    var expanded: seq<bool>
    var isDone: bool

    /** The answers every worker has stored so far, oldest first. */
    ghost var given: seq<seq<Reply>>
    /** How many actions each worker has taken. */
    ghost var acted: seq<nat>

    function Now(): View
      reads this
    {
      View(workers, req, ans, slot, gpred, expanded, isDone)
    }

    ghost predicate Valid()
      reads this
    {
      WellPosed(pb) && SearchInv(pb, Now()) && |given| == |acted| == pb.workers
    }

    /** w is one of the workers. */
    ghost predicate At(w: nat)
      reads this
    {
      && w < |workers| == |req| == |ans| == |slot| == pb.workers && |gpred| == |expanded| == |pb.adj|
      && |given| == |acted| == pb.workers
    }

    /** v has been discovered at a distance of at most d. */
    predicate Within(v: nat, d: nat)
      reads this
    {
      v < |gpred| && gpred[v].dist.Some? && gpred[v].dist.value <= d
    }

    predicate IsExpanded(v: nat)
      reads this
    {
      v < |expanded| && expanded[v]
    }

    constructor (pb: Problem)
      requires WellPosed(pb)
      ensures Valid() && this.pb == pb && Initial(pb, Now())
    {
      this.pb := pb;
      workers := seq(pb.workers, w requires 0 <= w < pb.workers =>
        Worker(if w == pb.leader then multiset{Item(pb.h(pb.source), pb.source)} else multiset{}, Top, 0, 0));
      req := seq(pb.workers, w requires 0 <= w < pb.workers => if w == pb.leader then WAITING else BLOCKED);
      ans := seq(pb.workers, _ => AnswerWaiting);
      slot := seq(pb.workers, _ => multiset{});
      gpred := seq(|pb.adj|, v requires 0 <= v < |pb.adj| =>
        if v == pb.source then Pack(Some(0), pb.source) else Pack(None, -1));
      expanded := seq(|pb.adj|, _ => false);
      isDone := false;
      given := seq(pb.workers, _ => []);
      acted := seq(pb.workers, _ => 0);
      new;
      InitialProto(pb, Now());
      InitialPath(pb, Now());
      InitialCover(pb, Now());
    }

    ghost predicate UpdatingAt(w: nat, v: nat, d: nat, i: nat)
      reads this
    {
      At(w) && workers[w].pc.Updating? && workers[w].pc.v == v && workers[w].pc.d == d && workers[w].pc.i == i
    }

    method Set(s: View)
      modifies this
      ensures Now() == s && given == old(given) && acted == old(acted)
    {
      workers, req, ans, slot, gpred, expanded, isDone :=
        s.workers, s.req, s.ans, s.slot, s.gpred, s.expanded, s.isDone;
    }

    /** One action of w. */
    method Step(w: nat, a: Action)
      requires Valid() && Enabled(pb, Now(), w, a)
      modifies this
      ensures Valid() && At(w) && Now() == After(pb, old(Now()), w, a)
      ensures given == old(given)[w := old(given)[w] + Given(old(Now()), w, a)]
      ensures w < |old(acted)| && acted == old(acted)[w := old(acted)[w] + 1]
      ensures Closer(old(gpred), gpred) && Sticky(old(expanded), expanded) && (old(isDone) ==> isDone)
    {
      hide SearchInv, After, Enabled, Given;
      ActionKeepsSearch(pb, Now(), w, a);
      ActionSticks(pb, Now(), w, a);
      SearchInvMeans(pb, Now());
      ActionComesCloser(pb, Now(), w, a);
      given := given[w := given[w] + Given(Now(), w, a)];
      acted := acted[w := acted[w] + 1];
      var r := After(pb, Now(), w, a);
      Set(r);
    }

    /** One action of w, then any number of actions of the others. */
    method Act(w: nat, a: Action)
      requires Valid() && Enabled(pb, Now(), w, a)
      modifies this
      ensures Went(w) && Spread() && Kept(After(pb, old(Now()), w, a), Now(), w)
      ensures given[w] == old(given)[w] + Given(old(Now()), w, a) && Acts(w, 1)
    {
      hide SearchInv, After, Enabled, Given, Kept, Closer, Sticky;
      ghost var r := After(pb, Now(), w, a);
      Step(w, a);
      Others(w);
      hide Valid;
      KeptAfter(old(Now()), r, Now(), w);
    }

    method Others(me: nat)
      requires Valid() && At(me)
      modifies this
      ensures Valid() && At(me) && Kept(old(Now()), Now(), me) && given[me] == old(given)[me] && Acts(me, 0)
    {
      hide SearchInv, After, Enabled, Given, Kept, Closer, Sticky;
      assert Legal(pb, Now(), [], me);
      var turns: seq<Turn> :| Legal(pb, Now(), turns, me);
      KeptAtFirst(pb, Now(), me);
      while turns != []
        invariant Legal(pb, Now(), turns, me) && Valid() && At(me)
        invariant Kept(old(Now()), Now(), me) && given[me] == old(given)[me] && Acts(me, 0)
        decreases |turns|
      {
        var t := turns[0];
        ghost var s := Now();
        OthersKeep(pb, s, t.w, t.a, me);
        ActionSticks(pb, s, t.w, t.a);
        Step(t.w, t.a);
        KeptOn(old(Now()), s, Now(), me);
        turns := turns[1..];
      }
    }

    /** w has taken n actions. */
    twostate predicate Acts(w: nat, n: nat)
      reads this
    {
      w < |old(acted)| == |acted| && acted[w] == old(acted)[w] + n
    }

    /** w has taken n actions or more. */
    twostate predicate Spent(w: nat, n: nat)
      reads this
    {
      w < |old(acted)| == |acted| && acted[w] >= old(acted)[w] + n
    }

    /** w has taken some steps, and the others any number. */
    twostate predicate Went(w: nat)
      reads this
    {
      Valid() && At(w) && (old(isDone) ==> isDone) && Spent(w, 0)
    }

    /** Distances have only shrunk, and expanded vertices are still expanded. */
    twostate predicate Spread()
      reads this
    {
      Closer(old(gpred), gpred) && Sticky(old(expanded), expanded)
    }

    /** w has not answered anybody meanwhile. */
    twostate predicate Silent(w: nat)
      reads this
    {
      Went(w) && w < |old(given)| && given[w] == old(given)[w]
    }

    /** Nor has its frontier changed, nor has it popped anything. */
    twostate predicate Moved(w: nat)
      reads this
    {
      && Silent(w) && w < |old(workers)|
      && workers[w].mine == old(workers)[w].mine && workers[w].polled == old(workers)[w].polled
    }

    // ---------- one shared access each ----------

    method SeesOwnRequest(w: nat)
      requires Valid() && At(w) && workers[w].pc.Blocking?
      modifies this
      ensures Acts(w, 1)
      ensures Moved(w) && BLOCKED <= old(req)[w] < pb.workers
      ensures old(req)[w] == BLOCKED ==> workers[w].pc.Acquiring? && req[w] == BLOCKED
      ensures old(req)[w] == WAITING ==> workers[w].pc.BlockingCas?
      ensures old(req)[w] >= 0 ==> workers[w].pc == RejectingA(old(req)[w]) && req[w] == old(req)[w]
    {
      ReadyToRead(pb, Now(), w);
      hide SearchInv;
      Act(w, LoadOwnRequest);
    }

    method TriesToBlock(w: nat)
      requires Valid() && At(w) && workers[w].pc.BlockingCas?
      modifies this
      ensures Acts(w, 1)
      ensures Moved(w)
      ensures if old(req)[w] == WAITING then workers[w].pc.Acquiring? && req[w] == BLOCKED else workers[w].pc.Blocking?
    {
      ReadyToRead(pb, Now(), w);
      hide SearchInv;
      Act(w, BlockCas);
    }

    method ClearsRequest(w: nat)
      requires Valid() && At(w) && workers[w].pc.RejectingA?
      modifies this
      ensures Acts(w, 1)
      ensures Moved(w) && req[w] == BLOCKED && workers[w].pc == RejectingB(old(workers)[w].pc.other)
    {
      ReadyToRead(pb, Now(), w);
      hide SearchInv;
      Act(w, RejectClear);
    }

    method Rejects(w: nat)
      requires Valid() && At(w) && workers[w].pc.RejectingB? && workers[w].pc.other < pb.workers
      modifies this
      ensures Acts(w, 1)
      ensures Went(w) && req[w] == BLOCKED && workers[w] == old(workers)[w].(pc := Acquiring)
      ensures given[w] == old(given)[w] + [Reply(old(workers)[w].pc.other, AnswerRejected)]
    {
      ReadyToRead(pb, Now(), w);
      hide SearchInv;
      Act(w, RejectAnswer);
    }

    method ChecksDone(w: nat)
      requires Valid() && At(w) && workers[w].pc.Acquiring?
      modifies this
      ensures Acts(w, 1)
      ensures Moved(w) && if old(isDone) then workers[w].pc == Swapping(false) else workers[w].pc.Resetting?
    {
      ReadyToRead(pb, Now(), w);
      hide SearchInv;
      Act(w, AcquireCheck);
    }

    method ResetsAnswer(w: nat, other: nat)
      requires Valid() && At(w) && workers[w].pc.Resetting? && other < pb.workers && other != w
      modifies this
      ensures Acts(w, 1)
      ensures Moved(w) && workers[w].pc == Probing(other)
    {
      ReadyToRead(pb, Now(), w);
      hide SearchInv;
      Act(w, ResetAnswer(other));
    }

    method Probes(w: nat, other: nat)
      requires Valid() && At(w) && workers[w].pc == Probing(other) && other < pb.workers
      modifies this
      ensures Acts(w, 1)
      ensures Moved(w) && workers[w].pc == if old(req)[other] == WAITING then Requesting(other) else Acquiring
    {
      ReadyToRead(pb, Now(), w);
      hide SearchInv;
      Act(w, Probe);
    }

    method Requests(w: nat, other: nat)
      requires Valid() && At(w) && workers[w].pc == Requesting(other) && other < pb.workers
      modifies this
      ensures Acts(w, 1)
      ensures Moved(w) && workers[w].pc == if old(req)[other] == WAITING then Awaiting(other) else Acquiring
    {
      ReadyToRead(pb, Now(), w);
      hide SearchInv;
      Act(w, RequestCas);
    }

    method Polls(w: nat, other: nat)
      requires Valid() && At(w) && workers[w].pc == Awaiting(other)
      modifies this
      ensures Acts(w, 1)
      ensures Moved(w) && w < |old(ans)|
      ensures workers[w].pc == if old(ans)[w].AnswerWaiting? then Awaiting(other) else Judging(other)
    {
      ReadyToRead(pb, Now(), w);
      hide SearchInv;
      Act(w, PollAnswer);
    }

    method Abandons(w: nat, other: nat)
      requires Valid() && At(w) && workers[w].pc == Awaiting(other) && isDone
      modifies this
      ensures Acts(w, 1)
      ensures Moved(w) && isDone && workers[w].pc == Abandoned(other)
    {
      ReadyToRead(pb, Now(), w);
      hide SearchInv;
      Act(w, GiveUp);
    }

    method Judges(w: nat, other: nat)
      requires Valid() && At(w) && workers[w].pc == Judging(other)
      modifies this
      ensures Acts(w, 1)
      ensures Moved(w) && w < |old(ans)|
      ensures if old(ans)[w].AnswerTransferred? then workers[w].pc == Swapping(true) else workers[w].pc.Acquiring?
    {
      ReadyToRead(pb, Now(), w);
      hide SearchInv;
      Act(w, Judge);
    }

    method SeesRequest(w: nat)
      requires Valid() && At(w) && workers[w].pc.Responding?
      modifies this
      ensures Acts(w, 1)
      ensures Silent(w) && workers[w].pc == Deciding(old(workers)[w].pc.sz, old(req)[w])
      ensures workers[w].mine == old(workers)[w].mine && workers[w].polled == 0
      ensures if old(req)[w] == WAITING then req[w] >= WAITING else req[w] == old(req)[w]
    {
      ReadyToRead(pb, Now(), w);
      hide SearchInv;
      Act(w, LoadRequest);
    }

    method Grants(w: nat)
      requires Valid() && At(w) && workers[w].pc.Granting? && workers[w].pc.other < pb.workers
      modifies this
      ensures Acts(w, 1)
      ensures Went(w) && workers[w] == old(workers)[w].(pc := Clearing(old(workers)[w].pc.other))
      ensures given[w] == old(given)[w] + [Reply(old(workers)[w].pc.other, AnswerTransferred)]
    {
      ReadyToRead(pb, Now(), w);
      hide SearchInv;
      Act(w, Grant);
    }

    method Refuses(w: nat)
      requires Valid() && At(w) && workers[w].pc.Refusing? && workers[w].pc.other < pb.workers
      modifies this
      ensures Acts(w, 1)
      ensures Went(w) && workers[w] == old(workers)[w].(pc := Clearing(old(workers)[w].pc.other))
      ensures given[w] == old(given)[w] + [Reply(old(workers)[w].pc.other, AnswerRejected)]
    {
      ReadyToRead(pb, Now(), w);
      hide SearchInv;
      Act(w, Refuse);
    }

    method ReopensRequests(w: nat)
      requires Valid() && At(w) && workers[w].pc.Clearing?
      modifies this
      ensures Acts(w, 1)
      ensures Moved(w) && workers[w].pc.Working? && req[w] >= WAITING
    {
      ReadyToRead(pb, Now(), w);
      hide SearchInv;
      Act(w, Clear);
    }

    method Pops(w: nat, item: Item)
      requires Valid() && At(w) && workers[w].pc.Working? && item in workers[w].mine
        && (forall x :: x in workers[w].mine ==> item.priority <= x.priority)
      requires workers[w].polled < pb.pollCutoff
      modifies this
      ensures Acts(w, 1)
      ensures Silent(w) && Spread() && workers[w].pc == Popped(item.v)
      ensures workers[w].mine == old(workers)[w].mine - multiset{item}
      ensures workers[w].polled == old(workers)[w].polled + 1
    {
      ReadyToRead(pb, Now(), w);
      hide SearchInv;
      Act(w, Pop(item));
    }

    method SeesExpanded(w: nat, v: nat)
      requires Valid() && At(w) && workers[w].pc == Popped(v)
      modifies this
      ensures Acts(w, 1)
      ensures Moved(w) && Spread() && (workers[w].pc == Claiming(v) || (workers[w].pc.Working? && IsExpanded(v)))
    {
      ReadyToRead(pb, Now(), w);
      hide SearchInv;
      Act(w, LoadExpanded);
    }

    method TriesToExpand(w: nat, v: nat)
      requires Valid() && At(w) && workers[w].pc == Claiming(v)
      modifies this
      ensures Acts(w, 1)
      ensures Moved(w) && Spread() && IsExpanded(v)
      ensures workers[w].pc.Working? || workers[w].pc == Reading(v) || (workers[w].pc.Found? && v == pb.dest)
    {
      ReadyToRead(pb, Now(), w);
      hide SearchInv;
      Act(w, CasExpanded);
    }

    method ReadsDistance(w: nat, v: nat)
      requires Valid() && At(w) && workers[w].pc == Reading(v)
      modifies this
      ensures Acts(w, 1)
      ensures Moved(w) && Spread() && v < |pb.adj| == |old(gpred)| && old(gpred)[v].dist.Some?
      ensures workers[w].pc == Relaxing(v, old(gpred)[v].dist.value, 0)
    {
      ReadyToRead(pb, Now(), w);
      hide SearchInv;
      Act(w, ReadDistance);
    }

    method SeesNeighbor(w: nat, v: nat, d: nat, i: nat)
      requires Valid() && At(w) && workers[w].pc == Relaxing(v, d, i) && v < |pb.adj| && i < |pb.adj[v]|
      modifies this
      ensures Acts(w, 1)
      ensures Moved(w) && Spread()
      ensures || UpdatingAt(w, v, d, i)
              || (workers[w].pc == Relaxing(v, d, i + 1) && Within(pb.adj[v][i].target, d + pb.adj[v][i].weight))
    {
      LookingMeans(pb, Now(), w, v, d, i);
      hide SearchInv, After, Enabled, Closer, Sticky, Valid;
      Act(w, LoadNeighbor);
    }

    method TriesToImprove(w: nat, v: nat, d: nat, i: nat, succeeds: bool)
      requires Valid() && At(w) && UpdatingAt(w, v, d, i) && v < |pb.adj| && i < |pb.adj[v]|
      modifies this
      ensures Acts(w, 1)
      ensures Moved(w) && Spread()
      ensures || workers[w].pc == Relaxing(v, d, i)
              || (workers[w].pc == Discovered(v, d, i) && Within(pb.adj[v][i].target, d + pb.adj[v][i].weight))
    {
      ReadyToRead(pb, Now(), w);
      hide SearchInv;
      Act(w, CasNeighbor(succeeds));
    }

    /** A discovered neighbour goes into the frontier unless it has been expanded. */
    method Inserts(w: nat, v: nat, d: nat, i: nat)
      requires Valid() && At(w) && workers[w].pc == Discovered(v, d, i) && v < |pb.adj| && i < |pb.adj[v]|
      modifies this
      ensures Acts(w, 1)
      ensures Silent(w) && Spread() && workers[w].pc == Relaxing(v, d, i + 1)
      ensures workers[w].polled == old(workers)[w].polled
      ensures || workers[w].mine == old(workers)[w].mine + multiset{ItemAt(v, d, i)}
              || (workers[w].mine == old(workers)[w].mine && IsExpanded(pb.adj[v][i].target))
    {
      hide SearchInv, After, Enabled, Closer, Sticky, Kept, Given;
      InsertIsEnabled(pb, Now(), w);
      ghost var r := After(pb, Now(), w, InsertNeighbor);
      Act(w, InsertNeighbor);
      hide Valid;
      InsertStays(pb, old(Now()), w, r, Now());
    }

    method EndsNeighbors(w: nat, v: nat, d: nat)
      requires Valid() && At(w) && v < |pb.adj| && workers[w].pc == Relaxing(v, d, |pb.adj[v]|)
      modifies this
      ensures Acts(w, 1)
      ensures Moved(w) && Spread() && workers[w].pc.Working?
    {
      ReadyToRead(pb, Now(), w);
      hide SearchInv;
      Act(w, LoadNeighbor);
    }

    method EndsRound(w: nat)
      requires Valid() && At(w) && workers[w].pc.Working?
      requires workers[w].polled >= pb.pollCutoff || workers[w].mine == multiset{}
      modifies this
      ensures Acts(w, 1)
      ensures Moved(w) && Spread() && workers[w].pc.Top?
    {
      ReadyToRead(pb, Now(), w);
      hide SearchInv;
      Act(w, EndRound);
    }

    method Announces(w: nat)
      requires Valid() && At(w) && workers[w].pc.Found?
      modifies this
      ensures Acts(w, 1)
      ensures Moved(w) && workers[w].pc.Exited? && isDone
    {
      ReadyToRead(pb, Now(), w);
      hide SearchInv;
      Act(w, Announce);
    }

    method LooksAtFrontier(w: nat)
      requires Valid() && At(w) && workers[w].pc.Top?
      modifies this
      ensures Acts(w, 1)
      ensures Moved(w)
      ensures if old(isDone) then workers[w].pc.Exited?
              else if workers[w].mine == multiset{} then workers[w].pc.Blocking?
              else workers[w].pc == Responding(if Splits(pb, old(workers)[w]) then 2 else 1)
    {
      ReadyToRead(pb, Now(), w);
      hide SearchInv;
      Act(w, Look);
    }

    /** The swap, and the assertion after it: there is work exactly after a transfer. */
    method TakesTransfer(w: nat)
      requires Valid() && At(w) && workers[w].pc.Swapping?
      modifies this
      ensures Acts(w, 1)
      ensures Silent(w) && workers[w].pc.Responding? && workers[w].mine == old(slot)[w]
      ensures workers[w].pc.sz > 0 <==> old(workers)[w].pc.transferred
      ensures !old(workers)[w].pc.transferred ==> isDone
    {
      ReadyToRead(pb, Now(), w);
      SwapFindsWork(pb, Now(), w);
      hide SearchInv;
      Act(w, Swap);
    }

    /** A request is granted by leaving a part of the frontier in the asker's slot. */
    method Decides(w: nat)
      requires Valid() && At(w) && workers[w].pc.Deciding?
      modifies this
      ensures Acts(w, 1)
      ensures Silent(w) && BLOCKED <= old(workers)[w].pc.r < pb.workers && workers[w].polled == old(workers)[w].polled
      ensures old(workers)[w].pc.r < 0 ==> workers[w].mine == old(workers)[w].mine && workers[w].pc.Working?
      ensures old(workers)[w].pc.r == BLOCKED || (old(workers)[w].pc.r == WAITING && old(req)[w] >= WAITING) ==>
                req[w] >= WAITING
      ensures old(workers)[w].pc.r >= 0 && old(workers)[w].pc.sz != 2 ==>
                workers[w] == old(workers)[w].(pc := Refusing(old(workers)[w].pc.r))
      ensures old(workers)[w].pc.r >= 0 && old(workers)[w].pc.sz == 2 ==>
                && workers[w].pc == Granting(old(workers)[w].pc.r)
                && workers[w].mine + slot[old(workers)[w].pc.r] == old(workers)[w].mine
                && workers[w].mine != multiset{} && slot[old(workers)[w].pc.r] != multiset{}
    {
      hide Given;
      ReadyToRead(pb, Now(), w);
      var give := multiset{};
      if workers[w].pc.sz == 2 {
        give := SomePart(workers[w].mine);
      }
      var a := Decide(give);
      hide SearchInv, After, Enabled, Closer, Sticky, Splits;
      MayDecide(pb, Now(), w, a);
      DecidingMeans(pb, Now(), After(pb, Now(), w, a), w, a);
      Act(w, a);
    }

    // ---------- the loops ----------

    /** Refuse requests until told otherwise; one that has come in is rejected. */
    method BlockRequests(w: nat, patience: nat) returns (ok: bool)
      requires Valid() && At(w) && workers[w].pc.Blocking?
      modifies this
      ensures Went(w) && workers[w].mine == old(workers)[w].mine
      ensures if ok then workers[w].pc.Acquiring? && req[w] == BLOCKED && Refused(old(req)[w], old(given)[w], given[w])
              else workers[w].pc.Blocking? && given[w] == old(given)[w] && Spent(w, patience)
    {
      hide Valid;
      var n := patience;
      while n > 0
        invariant Moved(w) && workers[w].pc.Blocking? && n <= patience && Spent(w, patience - n)
        invariant old(req)[w] != WAITING ==> req[w] == old(req)[w]
      {
        n := n - 1;
        SeesOwnRequest(w);
        if workers[w].pc.Acquiring? { return true; }
        if workers[w].pc.BlockingCas? {
          TriesToBlock(w);
          if workers[w].pc.Acquiring? { return true; }
        } else {
          ClearsRequest(w);
          Rejects(w);
          return true;
        }
      }
      ok := false;
    }

    /** Spin until the request is answered, or the search is over. */
    method AwaitAnswer(w: nat, other: nat, patience: nat) returns (ok: bool)
      requires Valid() && At(w) && workers[w].pc == Awaiting(other)
      modifies this
      ensures Moved(w)
      ensures if ok then workers[w].pc == Judging(other) || (workers[w].pc == Abandoned(other) && isDone)
              else workers[w].pc == Awaiting(other) && Spent(w, patience)
    {
      hide Valid;
      var n := patience;
      while n > 0
        invariant Moved(w) && workers[w].pc == Awaiting(other) && n <= patience && Spent(w, patience - n)
      {
        n := n - 1;
        Polls(w, other);
        if workers[w].pc.Judging? { return true; }
        if isDone {
          Abandons(w, other);
          return true;
        }
      }
      ok := false;
    }

    /** Ask random others for work until one gives some, or the search is over.  A single
        worker has no other to draw; it stops being scheduled there. */
    method AcquireWork(w: nat, patience: nat) returns (ok: bool)
      requires Valid() && At(w) && workers[w].pc.Acquiring?
      modifies this
      ensures Moved(w)
      ensures if ok then workers[w].pc.Swapping? || (workers[w].pc.Abandoned? && isDone)
              else if workers[w].pc.Resetting? then pb.workers == 1
              else (workers[w].pc.Acquiring? || workers[w].pc.Awaiting?) && Spent(w, patience)
      ensures workers[w].pc.Swapping? ==>
                req[w] == BLOCKED && if workers[w].pc.transferred then slot[w] != multiset{} else isDone
    {
      var n := patience;
      while n > 0
        invariant Moved(w) && workers[w].pc.Acquiring? && n <= patience && Spent(w, patience - n)
      {
        hide Valid;
        n := n - 1;
        ChecksDone(w);
        if workers[w].pc.Swapping? { break; }
        if pb.workers == 1 { return false; }
        var other := RandomOther(w);
        ResetsAnswer(w, other);
        Probes(w, other);
        if workers[w].pc.Acquiring? { continue; }
        Requests(w, other);
        if workers[w].pc.Acquiring? { continue; }
        var answered := AwaitAnswer(w, other, patience);
        if !answered { return false; }
        if workers[w].pc.Abandoned? { return true; }
        Judges(w, other);
        if workers[w].pc.Swapping? { break; }
      }
      ok := workers[w].pc.Swapping?;
      if ok { ReadyToRead(pb, Now(), w); }
    }

    method RandomOther(w: nat) returns (other: nat)
      requires w < pb.workers && pb.workers >= 2
      ensures other < pb.workers && other != w
    {
      assert (if w == 0 then 1 else 0) < pb.workers;
      other :| other < pb.workers && other != w;
    }

    /** What a split gives away: not nothing and not everything. */
    method SomePart(mine: multiset<Item>) returns (give: multiset<Item>)
      requires |mine| >= 2
      ensures give < mine && give != multiset{}
    {
      var item :| item in mine;
      assert |mine - multiset{item}| >= 1;
      give := multiset{item};
    }

    /** Answer the request found in the own cell: part of the frontier if there is
        enough, a refusal if not.  Afterwards the cell is open again. */
    method Respond(w: nat) returns (ghost give: multiset<Item>)
      requires Valid() && At(w) && workers[w].pc.Responding?
      modifies this
      ensures Went(w) && workers[w].pc.Working? && req[w] != BLOCKED && workers[w].polled == 0
      ensures given[w] == old(given)[w] + Due(old(req)[w], Splits(pb, old(workers)[w]))
      ensures workers[w].mine + give == old(workers)[w].mine
      ensures if old(req)[w] >= 0 && Splits(pb, old(workers)[w])
              then workers[w].mine != multiset{} && give != multiset{} else give == multiset{}
    {
      ReadyToRead(pb, Now(), w);
      hide Valid;
      give := multiset{};
      SeesRequest(w);
      Decides(w);
      if workers[w].pc.Granting? {
        give := slot[workers[w].pc.other];
        Grants(w);
        ReopensRequests(w);
      } else if workers[w].pc.Refusing? {
        Refuses(w);
        ReopensRequests(w);
      }
    }

    function ItemAt(v: nat, d: nat, i: nat): Item
      requires v < |pb.adj| && i < |pb.adj[v]|
    {
      var e := pb.adj[v][i];
      Item(d + e.weight + pb.h(e.target), e.target)
    }

    /** One neighbour: the compare-and-swap is retried until it succeeds or the
        distance is no longer an improvement. */
    method RelaxNeighbor(w: nat, v: nat, d: nat, i: nat, patience: nat) returns (ok: bool)
      requires Valid() && At(w) && workers[w].pc == Relaxing(v, d, i) && v < |pb.adj| && i < |pb.adj[v]|
      modifies this
      ensures Silent(w) && Spread() && workers[w].pc == Relaxing(v, d, if ok then i + 1 else i)
      ensures if ok then Within(pb.adj[v][i].target, d + pb.adj[v][i].weight) else Spent(w, patience)
      ensures workers[w].polled == old(workers)[w].polled
      ensures workers[w].mine == old(workers)[w].mine
              || (ok && workers[w].mine == old(workers)[w].mine + multiset{ItemAt(v, d, i)})
    {
      hide Valid;
      var n := patience;
      while n > 0
        invariant Moved(w) && Spread() && workers[w].pc == Relaxing(v, d, i)
        invariant n <= patience && Spent(w, patience - n)
      {
        n := n - 1;
        SeesNeighbor(w, v, d, i);
        if workers[w].pc == Relaxing(v, d, i + 1) { return true; }
        var weakly: bool := *;
        TriesToImprove(w, v, d, i, weakly);
        if workers[w].pc.Discovered? {
          Inserts(w, v, d, i);
          return true;
        }
      }
      ok := false;
    }

    /** All neighbours of v end up no farther than through v, at the distance v had. */
    method Expand(w: nat, v: nat, patience: nat) returns (ok: bool)
      requires Valid() && At(w) && workers[w].pc == Reading(v)
      modifies this
      ensures Silent(w) && Spread() && old(workers)[w].mine <= workers[w].mine
      ensures workers[w].polled == old(workers)[w].polled
      ensures if ok then workers[w].pc.Working? else workers[w].pc.Relaxing? && Spent(w, patience)
      ensures v < |pb.adj| == |old(gpred)| && old(gpred)[v].dist.Some?
      ensures ok ==> forall j :: 0 <= j < |pb.adj[v]| ==>
                       Within(pb.adj[v][j].target, old(gpred)[v].dist.value + pb.adj[v][j].weight)
    {
      hide Valid;
      ReadsDistance(w, v);
      var d := workers[w].pc.d;
      var i := 0;
      while i < |pb.adj[v]|
        invariant v < |pb.adj| && 0 <= i <= |pb.adj[v]| && Silent(w) && Spread() && workers[w].pc == Relaxing(v, d, i)
        invariant old(workers)[w].mine <= workers[w].mine && workers[w].polled == old(workers)[w].polled
        invariant forall j :: 0 <= j < i ==> Within(pb.adj[v][j].target, d + pb.adj[v][j].weight)
      {
        ok := RelaxNeighbor(w, v, d, i, patience);
        if !ok { return; }
        i := i + 1;
      }
      EndsNeighbors(w, v, d);
      ok := true;
    }

    /** A popped vertex is expanded if this worker is the first to get there; in any
        case it is expanded afterwards. */
    method TakeOne(w: nat, item: Item, patience: nat) returns (ok: bool)
      requires Valid() && At(w) && workers[w].pc.Working? && item in workers[w].mine
        && (forall x :: x in workers[w].mine ==> item.priority <= x.priority)
      requires workers[w].polled < pb.pollCutoff
      modifies this
      ensures Silent(w) && Spread() && IsExpanded(item.v)
      ensures old(workers)[w].mine - multiset{item} <= workers[w].mine
      ensures workers[w].polled == old(workers)[w].polled + 1
      ensures if ok then workers[w].pc.Working? || (workers[w].pc.Found? && item.v == pb.dest)
              else workers[w].pc.Relaxing? && Spent(w, patience)
    {
      hide Valid;
      ok := true;
      Pops(w, item);
      SeesExpanded(w, item.v);
      if workers[w].pc.Working? { return; }
      TriesToExpand(w, item.v);
      if workers[w].pc.Reading? {
        ok := Expand(w, item.v, patience);
      }
    }

    /** do_work: vertices are popped until there are none left or the poll cutoff is
        reached.  An item leaves the frontier only if its vertex is expanded. */
    method DoWork(w: nat, patience: nat) returns (ok: bool)
      requires Valid() && At(w) && workers[w].pc.Working? && workers[w].polled == 0
      modifies this
      ensures Silent(w) && Sticky(old(expanded), expanded)
      ensures if ok then workers[w].pc.Top? || (workers[w].pc.Found? && IsExpanded(pb.dest))
              else workers[w].pc.Relaxing? && Spent(w, patience)
      ensures forall it :: it in old(workers)[w].mine ==> it in workers[w].mine || IsExpanded(it.v)
    {
      hide Valid, Closer;
      var steps := 0;
      while steps < pb.pollCutoff && workers[w].mine != multiset{}
        invariant Silent(w) && Sticky(old(expanded), expanded) && workers[w].pc.Working?
        invariant workers[w].polled == steps
        invariant forall it :: it in old(workers)[w].mine ==> it in workers[w].mine || IsExpanded(it.v)
        decreases pb.pollCutoff - steps
      {
        ghost var least := LeastExists(workers[w].mine);
        var item :| item in workers[w].mine && forall x :: x in workers[w].mine ==> item.priority <= x.priority;
        steps := steps + 1;
        ghost var before := workers[w].mine;
        ok := TakeOne(w, item, patience);
        assert forall it :: it in before && it != item ==> it in before - multiset{item};
        if !ok || workers[w].pc.Found? { return; }
      }
      EndsRound(w);
      ok := true;
    }

    /** The whole loop of a worker: it leaves only when the search is done. */
    method Run(w: nat, patience: nat)
      requires Valid() && At(w) && workers[w].pc.Top?
      modifies this
      ensures Went(w)
      ensures if workers[w].pc.Exited? || workers[w].pc.Abandoned? then isDone
              else Spent(w, patience) || (workers[w].pc.Resetting? && pb.workers == 1)
    {
      hide Valid;
      var n := patience;
      while n > 0
        invariant Went(w) && workers[w].pc.Top? && n <= patience && Spent(w, patience - n)
      {
        n := n - 1;
        LooksAtFrontier(w);
        if workers[w].pc.Exited? { return; }
        if workers[w].pc.Blocking? {
          var ok := Refill(w, patience);
          if !ok { return; }
        }
        ghost var give := Respond(w);
        var ok := DoWork(w, patience);
        if !ok { return; }
        if workers[w].pc.Found? {
          Announces(w);
          return;
        }
      }
    }

    /** An empty frontier is replaced by one that another worker gave away. */
    method Refill(w: nat, patience: nat) returns (ok: bool)
      requires Valid() && At(w) && workers[w].pc.Blocking?
      modifies this
      ensures Went(w) && (ok ==> workers[w].pc.Responding? && (workers[w].pc.sz == 0 ==> isDone))
      ensures !ok ==> if workers[w].pc.Abandoned? then isDone
                      else !workers[w].pc.Exited?
                           && (Spent(w, patience) || (workers[w].pc.Resetting? && pb.workers == 1))
    {
      hide Valid;
      ok := BlockRequests(w, patience);
      if ok { ok := AcquireWork(w, patience); }
      if ok && workers[w].pc.Swapping? {
        TakesTransfer(w);
      } else {
        ok := false;
      }
    }
  }

}
