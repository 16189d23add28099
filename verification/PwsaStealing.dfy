/** What the work-stealing protocol guarantees over whole runs. */
module PwsaStealing {
  import opened Graphs
  import opened PwsaModel
  import opened PwsaProtocol

  lemma {:induction false} RunKeepsProto(pb: Problem, trace: seq<View>, i: nat)
    requires WellPosed(pb) && Run(pb, trace) && i < |trace|
    ensures ProtoInv(pb, trace[i])
  {
    if i == 0 {
      InitialProto(pb, trace[0]);
    } else {
      RunKeepsProto(pb, trace, i - 1);
      assert Next(pb, trace[i - 1], trace[i - 1 + 1]);
      NextKeepsProto(pb, trace[i - 1], trace[i]);
    }
  }

  lemma NextKeepsProto(pb: Problem, s: View, r: View)
    requires WellPosed(pb) && ProtoInv(pb, s) && Next(pb, s, r)
    ensures ProtoInv(pb, r)
  {
    var w, a :| Enabled(pb, s, w, a) && r == After(pb, s, w, a);
    ActionKeepsProto(pb, s, w, a);
  }

  // ---------- at most one answer to a request ----------

  /** trace[i + 1] results from action acts[i] of worker who[i]. */
  ghost predicate Scheduled(pb: Problem, trace: seq<View>, who: seq<nat>, acts: seq<Action>) {
    && |trace| == |who| + 1 == |acts| + 1 && Initial(pb, trace[0])
    && forall i :: 0 <= i < |who| ==>
         Enabled(pb, trace[i], who[i], acts[i]) && trace[i + 1] == After(pb, trace[i], who[i], acts[i])
  }

  lemma ScheduledIsRun(pb: Problem, trace: seq<View>, who: seq<nat>, acts: seq<Action>)
    requires Scheduled(pb, trace, who, acts)
    ensures Run(pb, trace)
  {
    forall i | 0 <= i < |trace| - 1 ensures Next(pb, trace[i], trace[i + 1]) {
      assert Enabled(pb, trace[i], who[i], acts[i]);
    }
  }

  /** The action stores an answer for t. */
  ghost predicate Answers(s: View, w: nat, a: Action, t: nat) {
    w < |s.workers| && (a.RejectAnswer? || a.Grant? || a.Refuse?)
    && (s.workers[w].pc.RejectingB? || s.workers[w].pc.Granting? || s.workers[w].pc.Refusing?)
    && s.workers[w].pc.other == t
  }

  lemma AnswerFindsWaiting(pb: Problem, s: View, w: nat, a: Action, t: nat)
    requires ProtoInv(pb, s) && Enabled(pb, s, w, a) && Answers(s, w, a, t)
    ensures t < pb.workers && s.ans[t].AnswerWaiting? && !After(pb, s, w, a).ans[t].AnswerWaiting?
  {
    assert OwnOk(pb, s, w) && DebtOk(pb, s, w, t);
  }

  lemma OnlyResetWaits(pb: Problem, s: View, w: nat, a: Action, t: nat)
    requires Enabled(pb, s, w, a) && t < pb.workers && !s.ans[t].AnswerWaiting?
    requires !(a.ResetAnswer? && w == t)
    ensures !After(pb, s, w, a).ans[t].AnswerWaiting?
  {
  }

  /** Two answers to the same thief are always separated by that thief's own reset,
      so every request receives at most one answer. */
  lemma AtMostOneAnswer(pb: Problem, trace: seq<View>, who: seq<nat>, acts: seq<Action>, j: nat, k: nat, t: nat)
    requires WellPosed(pb) && Scheduled(pb, trace, who, acts) && j < k < |who|
    requires Answers(trace[j], who[j], acts[j], t) && Answers(trace[k], who[k], acts[k], t)
    ensures exists m :: j < m < k && who[m] == t && acts[m].ResetAnswer?
  {
    ScheduledIsRun(pb, trace, who, acts);
    RunKeepsProto(pb, trace, j);
    RunKeepsProto(pb, trace, k);
    AnswerFindsWaiting(pb, trace[j], who[j], acts[j], t);
    AnswerFindsWaiting(pb, trace[k], who[k], acts[k], t);
    if forall m :: j < m < k ==> !(who[m] == t && acts[m].ResetAnswer?) {
      StaysAnswered(pb, trace, who, acts, j, k, t);
    }
  }

  lemma {:induction false} StaysAnswered(
      pb: Problem, trace: seq<View>, who: seq<nat>, acts: seq<Action>, j: nat, k: nat, t: nat)
    requires Scheduled(pb, trace, who, acts) && j < k <= |who| && t < pb.workers
    requires |trace[j + 1].ans| == pb.workers && !trace[j + 1].ans[t].AnswerWaiting?
    requires forall m :: j < m < k ==> !(who[m] == t && acts[m].ResetAnswer?)
    ensures |trace[k].ans| == pb.workers && !trace[k].ans[t].AnswerWaiting?
    decreases k
  {
    if k > j + 1 {
      StaysAnswered(pb, trace, who, acts, j, k - 1, t);
      OnlyResetWaits(pb, trace[k - 1], who[k - 1], acts[k - 1], t);
    }
  }

  // ---------- no request before the answer ----------

  /** The action puts a request of w's into another worker's cell. */
  ghost predicate Asks(pb: Problem, s: View, w: nat, a: Action) {
    Enabled(pb, s, w, a) && a.RequestCas? && s.req[s.workers[w].pc.other] == WAITING
  }

  /** t has asked and has not been answered. */
  predicate Unanswered(s: View, t: nat) {
    t < |s.workers| == |s.ans| && s.ans[t].AnswerWaiting? && (s.workers[t].pc.Awaiting? || s.workers[t].pc.Abandoned?)
  }

  lemma AskingLeavesUnanswered(pb: Problem, s: View, t: nat, a: Action)
    requires ProtoInv(pb, s) && Asks(pb, s, t, a)
    ensures Unanswered(After(pb, s, t, a), t)
  {
    assert OwnOk(pb, s, t);
  }

  /** Only an answer ends that. */
  lemma StaysUnanswered(pb: Problem, s: View, w: nat, a: Action, t: nat)
    requires Enabled(pb, s, w, a) && Unanswered(s, t) && !Answers(s, w, a, t)
    ensures Unanswered(After(pb, s, w, a), t)
  {
  }

  lemma {:induction false} UnansweredUntil(
      pb: Problem, trace: seq<View>, who: seq<nat>, acts: seq<Action>, j: nat, k: nat, t: nat)
    requires WellPosed(pb) && Scheduled(pb, trace, who, acts) && j < k <= |who|
    requires who[j] == t && Asks(pb, trace[j], t, acts[j])
    requires forall m :: j < m < k ==> !Answers(trace[m], who[m], acts[m], t)
    ensures Unanswered(trace[k], t)
    decreases k
  {
    if k == j + 1 {
      ScheduledIsRun(pb, trace, who, acts);
      RunKeepsProto(pb, trace, j);
      AskingLeavesUnanswered(pb, trace[j], t, acts[j]);
    } else {
      UnansweredUntil(pb, trace, who, acts, j, k - 1, t);
      StaysUnanswered(pb, trace[k - 1], who[k - 1], acts[k - 1], t);
    }
  }

  /** A thief never issues a new request before its last one has been answered. */
  lemma NoRequestBeforeAnswer(pb: Problem, trace: seq<View>, who: seq<nat>, acts: seq<Action>, j: nat, k: nat, t: nat)
    requires WellPosed(pb) && Scheduled(pb, trace, who, acts) && j < k < |who| && who[j] == who[k] == t
    requires Asks(pb, trace[j], t, acts[j]) && Asks(pb, trace[k], t, acts[k])
    ensures exists m :: j < m < k && Answers(trace[m], who[m], acts[m], t)
  {
    if forall m :: j < m < k ==> !Answers(trace[m], who[m], acts[m], t) {
      UnansweredUntil(pb, trace, who, acts, j, k, t);
    }
  }

  // ---------- the size assertion ----------

  lemma SwapFindsWork(pb: Problem, s: View, w: nat)
    requires ProtoInv(pb, s) && Enabled(pb, s, w, Swap)
    ensures After(pb, s, w, Swap).workers[w].pc.sz > 0 <==> s.workers[w].pc.transferred
    ensures !s.workers[w].pc.transferred ==> s.isDone
  {
    assert OwnOk(pb, s, w) && SlotOk(s, w);
    if s.workers[w].pc == Swapping(false) {
      forall v | 0 <= v < pb.workers ensures s.workers[v].pc != Granting(w) {
        if s.workers[v].pc == Granting(w) { GranterOwes(pb, s, v, w); }
      }
    }
  }

  /** After the swap the source asserts that there is work.  That is so exactly
      when the waiting loop was left through a transfer; leaving it because the
      search is done makes the assertion fail. */
  lemma AssertionAfterSwap(pb: Problem, trace: seq<View>, i: nat, w: nat)
    requires WellPosed(pb) && Run(pb, trace) && i < |trace| && Enabled(pb, trace[i], w, Swap)
    ensures var r := After(pb, trace[i], w, Swap);
            r.workers[w].pc.sz > 0 <==> trace[i].workers[w].pc.transferred
    ensures !trace[i].workers[w].pc.transferred ==> trace[i].isDone
  {
    RunKeepsProto(pb, trace, i);
    SwapFindsWork(pb, trace[i], w);
  }

  /** A victim only splits a frontier of at least two items, into an empty slot. */
  lemma SplitIsSafe(pb: Problem, trace: seq<View>, i: nat, w: nat)
    requires WellPosed(pb) && Run(pb, trace) && i < |trace|
    requires w < |trace[i].workers| && trace[i].workers[w].pc.Deciding?
    requires trace[i].workers[w].pc.sz == 2 && 0 <= trace[i].workers[w].pc.r
    ensures |trace[i].workers[w].mine| >= 2
    ensures trace[i].workers[w].pc.r < |trace[i].slot| && trace[i].slot[trace[i].workers[w].pc.r] == multiset{}
  {
    RunKeepsProto(pb, trace, i);
    assert OwnOk(pb, trace[i], w);
    SplitTargetIsEmpty(pb, trace[i], w);
  }

  // ---------- a frontier that is large enough is shared ----------

  /** No action touches the variables of another worker. */
  lemma OthersKeepLocals(pb: Problem, s: View, x: nat, a: Action, me: nat)
    requires Enabled(pb, s, x, a) && me < pb.workers && x != me
    ensures Sizes(pb, After(pb, s, x, a)) && After(pb, s, x, a).workers[me] == s.workers[me]
  {
  }

  /** j is the next time the worker of time i acts. */
  ghost predicate NextTurn(who: seq<nat>, i: nat, j: nat) {
    i < j < |who| && who[j] == who[i] && forall m :: i < m < j ==> who[m] != who[i]
  }

  lemma {:induction false} LocalsStay(
      pb: Problem, trace: seq<View>, who: seq<nat>, acts: seq<Action>, i: nat, j: nat, w: nat)
    requires Scheduled(pb, trace, who, acts) && i < j < |trace| == |who| + 1 && who[i] == w
    requires forall m :: i < m < j ==> who[m] != w
    ensures w < pb.workers && |trace[i + 1].workers| == |trace[j].workers| == pb.workers
    ensures trace[j].workers[w] == trace[i + 1].workers[w]
    decreases j
  {
    hide Scheduled, Enabled, After;
    if j == i + 1 {
      StepAt(pb, trace, who, acts, i);
      ActionKeepsSizes(pb, trace[i], w, acts[i]);
    } else {
      LocalsStay(pb, trace, who, acts, i, j - 1, w);
      StepAt(pb, trace, who, acts, j - 1);
      OthersKeepLocals(pb, trace[j - 1], who[j - 1], acts[j - 1], w);
    }
  }

  lemma StepAt(pb: Problem, trace: seq<View>, who: seq<nat>, acts: seq<Action>, i: nat)
    requires Scheduled(pb, trace, who, acts) && i < |who|
    ensures |trace| == |who| + 1 == |acts| + 1
    ensures Enabled(pb, trace[i], who[i], acts[i]) && trace[i + 1] == After(pb, trace[i], who[i], acts[i])
  {
  }

  lemma ActionKeepsSizes(pb: Problem, s: View, w: nat, a: Action)
    requires Enabled(pb, s, w, a)
    ensures w < pb.workers && Sizes(pb, After(pb, s, w, a))
  {
  }

  /** A worker that has found the request r decides on it in its next step. */
  lemma DecidesNext(pb: Problem, s: View, w: nat, a: Action, r: int, granted: bool)
    requires ProtoInv(pb, s) && Enabled(pb, s, w, a) && s.workers[w].pc.Deciding? && s.workers[w].pc.r == r >= 0
    requires granted <==> Splits(pb, s.workers[w])
    ensures w < |After(pb, s, w, a).workers|
    ensures After(pb, s, w, a).workers[w].pc == if granted then Granting(r) else Refusing(r)
    ensures granted ==> After(pb, s, w, a).workers[w].mine != multiset{}
  {
    assert OwnOk(pb, s, w);
    assert a.Decide?;
    if granted { assert s.workers[w].mine - a.give != multiset{} by { SomethingIsLeft(s.workers[w].mine, a.give); } }
  }

  lemma SomethingIsLeft(mine: multiset<Item>, give: multiset<Item>)
    requires give < mine
    ensures mine - give != multiset{}
  {
    assert mine == give + (mine - give);
  }

  /** Main theorem: a worker that finds a request in its cell grants it exactly when its
      frontier is to be split.  Two steps later, whatever the others do meanwhile, the
      asker's slot holds work and its answer says so; else its answer is a refusal. */
  lemma RequestIsGrantedExactly(
      pb: Problem, trace: seq<View>, who: seq<nat>, acts: seq<Action>, i: nat, j: nat, k: nat, w: nat)
    requires WellPosed(pb) && Scheduled(pb, trace, who, acts) && NextTurn(who, i, j) && NextTurn(who, j, k)
    requires who[i] == w && acts[i].LoadRequest? && |trace[i].workers| == |trace[i].req| && w < |trace[i].workers|
    requires trace[i].req[w] >= 0
    ensures var r := trace[i].req[w];
            && r < |trace[k + 1].ans| == |trace[k + 1].slot| && w < |trace[k + 1].workers|
            && Answers(trace[k], w, acts[k], r)
            && if Splits(pb, trace[i].workers[w])
               then trace[k + 1].ans[r].AnswerTransferred? && trace[k + 1].slot[r] != multiset{}
                    && trace[k + 1].workers[w].mine != multiset{}
               else trace[k + 1].ans[r].AnswerRejected?
  {
    var r, granted := trace[i].req[w], Splits(pb, trace[i].workers[w]);
    ScheduledIsRun(pb, trace, who, acts);
    RunKeepsProto(pb, trace, j);
    RunKeepsProto(pb, trace, k);
    StepAt(pb, trace, who, acts, i);
    StepAt(pb, trace, who, acts, j);
    StepAt(pb, trace, who, acts, k);
    assert trace[i + 1].workers[w].pc == Deciding(trace[i].workers[w].pc.sz, r);
    assert Splits(pb, trace[i + 1].workers[w]) == granted;
    hide Scheduled, Enabled, After, ProtoInv, Answers, Splits, WellPosed;
    LocalsStay(pb, trace, who, acts, i, j, w);
    DecidesNext(pb, trace[j], w, acts[j], r, granted);
    LocalsStay(pb, trace, who, acts, j, k, w);
    AnswersNext(pb, trace[k], w, acts[k], r, granted);
  }

  lemma AnswersNext(pb: Problem, s: View, w: nat, a: Action, r: int, granted: bool)
    requires ProtoInv(pb, s) && Enabled(pb, s, w, a) && r >= 0
    requires s.workers[w].pc == if granted then Granting(r) else Refusing(r)
    ensures r < pb.workers && Answers(s, w, a, r) && w < |After(pb, s, w, a).workers|
    ensures |After(pb, s, w, a).ans| == |After(pb, s, w, a).slot| == pb.workers
    ensures After(pb, s, w, a).workers[w].mine == s.workers[w].mine
    ensures if granted then After(pb, s, w, a).ans[r].AnswerTransferred? && After(pb, s, w, a).slot[r] != multiset{}
            else After(pb, s, w, a).ans[r].AnswerRejected?
  {
    assert OwnOk(pb, s, w);
    if granted { assert Incoming(s, r) && SlotOk(s, r); }
  }

  // ---------- conservation ----------

  ghost function WorkAt(s: View, i: nat): multiset<Item>
    requires i < |s.workers| == |s.slot|
  {
    s.workers[i].mine + s.slot[i]
  }

  /** All items in the first n frontiers and slots. */
  ghost function Work(s: View, n: nat): multiset<Item>
    requires n <= |s.workers| == |s.slot|
  {
    if n == 0 then multiset{} else Work(s, n - 1) + WorkAt(s, n - 1)
  }

  lemma {:induction false} WorkChanges(s: View, r: View, w: nat, n: nat)
    requires |s.workers| == |s.slot| == |r.workers| == |r.slot| && n <= |s.workers| && w < |s.workers|
    requires forall i :: 0 <= i < |s.workers| && i != w ==> WorkAt(r, i) == WorkAt(s, i)
    ensures if w < n then Work(r, n) + WorkAt(s, w) == Work(s, n) + WorkAt(r, w) else Work(r, n) == Work(s, n)
  {
    if n != 0 {
      WorkChanges(s, r, w, n - 1);
      if w < n - 1 {
        var x := WorkAt(s, n - 1);
        assert Work(r, n) + WorkAt(s, w) == (Work(r, n - 1) + WorkAt(s, w)) + x;
        assert Work(s, n) + WorkAt(r, w) == (Work(s, n - 1) + WorkAt(r, w)) + x;
      } else if w == n - 1 {
        assert Work(r, n) + WorkAt(s, w) == (Work(r, n - 1) + WorkAt(r, w)) + WorkAt(s, w);
        assert Work(s, n) + WorkAt(r, w) == (Work(s, n - 1) + WorkAt(s, w)) + WorkAt(r, w);
      }
    }
  }

  /** One place gains `added`: so does the whole. */
  lemma WorkGains(s: View, r: View, w: nat, n: nat, added: multiset<Item>)
    requires |s.workers| == |s.slot| == |r.workers| == |r.slot| == n && w < n
    requires forall i :: 0 <= i < n && i != w ==> WorkAt(r, i) == WorkAt(s, i)
    requires WorkAt(r, w) == WorkAt(s, w) + added
    ensures Work(r, n) == Work(s, n) + added
  {
    WorkChanges(s, r, w, n);
    assert Work(r, n) + WorkAt(s, w) == (Work(s, n) + added) + WorkAt(s, w);
    CancelItems(Work(r, n), Work(s, n) + added, WorkAt(s, w));
  }

  lemma SplitConserves(pb: Problem, s: View, w: nat, give: multiset<Item>)
    requires ProtoInv(pb, s) && Enabled(pb, s, w, Decide(give))
    requires s.workers[w].pc.r >= 0 && s.workers[w].pc.sz == 2
    ensures Work(After(pb, s, w, Decide(give)), pb.workers) == Work(s, pb.workers)
  {
    var t := s.workers[w].pc.r;
    var r := After(pb, s, w, Decide(give));
    SplitTargetIsEmpty(pb, s, w);
    assert DebtOk(pb, s, w, t);
    var m := s.(slot := s.slot[t := give]);
    WorkGains(s, m, t, pb.workers, give);
    WorkGains(r, m, w, pb.workers, give);
    CancelItems(Work(r, pb.workers), Work(s, pb.workers), give);
  }

  lemma CancelItems(a: multiset<Item>, b: multiset<Item>, c: multiset<Item>)
    requires a + c == b + c
    ensures a == b
  {
    assert a == (a + c) - c;
    assert b == (b + c) - c;
  }

  /** Everything except popping and inserting leaves the work as a whole unchanged. */
  lemma StealingConserves(pb: Problem, s: View, w: nat, a: Action)
    requires WellPosed(pb) && ProtoInv(pb, s) && Enabled(pb, s, w, a) && !a.Pop? && !a.InsertNeighbor?
    ensures Work(After(pb, s, w, a), pb.workers) == Work(s, pb.workers)
  {
    if a.Decide? && s.workers[w].pc.r >= 0 && s.workers[w].pc.sz == 2 {
      SplitConserves(pb, s, w, a.give);
    } else {
      SameWork(pb, s, w, a);
      WorkChanges(s, After(pb, s, w, a), w, pb.workers);
      CancelItems(Work(After(pb, s, w, a), pb.workers), Work(s, pb.workers), WorkAt(s, w));
    }
  }

  predicate OfTheSearch(a: Action) {
    a.EndRound? || a.LoadExpanded? || a.CasExpanded? || a.ReadDistance? || a.LoadNeighbor? || a.CasNeighbor?
    || a.Announce?
  }

  lemma SearchSameWork(pb: Problem, s: View, w: nat, a: Action)
    requires Enabled(pb, s, w, a) && OfTheSearch(a)
    ensures Sizes(pb, After(pb, s, w, a))
    ensures forall i :: 0 <= i < pb.workers ==> WorkAt(After(pb, s, w, a), i) == WorkAt(s, i)
  {
    var r := After(pb, s, w, a);
    assert r.slot == s.slot && r.workers[w].mine == s.workers[w].mine;
  }

  lemma StealSameWork(pb: Problem, s: View, w: nat, a: Action)
    requires Enabled(pb, s, w, a) && !OfTheSearch(a) && !a.Pop? && !a.InsertNeighbor?
    requires !(a.Decide? && s.workers[w].pc.r >= 0 && s.workers[w].pc.sz == 2)
    ensures Sizes(pb, After(pb, s, w, a))
    ensures forall i :: 0 <= i < pb.workers ==> WorkAt(After(pb, s, w, a), i) == WorkAt(s, i)
  {
    var r := After(pb, s, w, a);
    if a.Swap? {
      assert WorkAt(r, w) == WorkAt(s, w);
    } else {
      assert r.slot == s.slot && r.workers[w].mine == s.workers[w].mine;
    }
  }

  lemma SameWork(pb: Problem, s: View, w: nat, a: Action)
    requires Enabled(pb, s, w, a) && !a.Pop? && !a.InsertNeighbor?
    requires !(a.Decide? && s.workers[w].pc.r >= 0 && s.workers[w].pc.sz == 2)
    ensures Sizes(pb, After(pb, s, w, a))
    ensures forall i :: 0 <= i < pb.workers ==> WorkAt(After(pb, s, w, a), i) == WorkAt(s, i)
  {
    hide After, WorkAt;
    if OfTheSearch(a) {
      SearchSameWork(pb, s, w, a);
    } else {
      StealSameWork(pb, s, w, a);
    }
  }

  lemma PopTakesOne(pb: Problem, s: View, w: nat, item: Item)
    requires Enabled(pb, s, w, Pop(item))
    ensures Work(After(pb, s, w, Pop(item)), pb.workers) + multiset{item} == Work(s, pb.workers)
  {
    WorkGains(After(pb, s, w, Pop(item)), s, w, pb.workers, multiset{item});
  }

  /** What an insertion adds: nothing if the vertex has been expanded meanwhile. */
  ghost function Inserted(pb: Problem, s: View, w: nat): multiset<Item>
    requires Enabled(pb, s, w, InsertNeighbor)
  {
    var pc := s.workers[w].pc;
    var e := pb.adj[pc.v][pc.i];
    if s.expanded[e.target] then multiset{} else multiset{Item(pc.d + e.weight + pb.h(e.target), e.target)}
  }

  lemma InsertAddsOne(pb: Problem, s: View, w: nat)
    requires Enabled(pb, s, w, InsertNeighbor)
    ensures Work(After(pb, s, w, InsertNeighbor), pb.workers) == Work(s, pb.workers) + Inserted(pb, s, w)
  {
    var r := After(pb, s, w, InsertNeighbor);
    assert WorkAt(r, w) == WorkAt(s, w) + Inserted(pb, s, w);
    WorkGains(s, r, w, pb.workers, Inserted(pb, s, w));
  }
}
