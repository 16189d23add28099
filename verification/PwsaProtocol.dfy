/** The request/answer protocol by which idle workers of PWSA obtain work. */
module PwsaProtocol {
  import opened Graphs
  import opened PwsaModel

  /** v has been asked by t and has not answered yet. */
  predicate Owes(s: View, v: nat, t: nat)
    requires v < |s.workers| == |s.req|
  {
    (s.req[v] == t && !s.workers[v].pc.Clearing?) || s.workers[v].pc == RejectingB(t)
  }

  /** Between finding its frontier empty and the swap, a worker has no work and
      accepts no requests. */
  predicate Idle(pc: Pc) {
    pc.RejectingB? || pc.Acquiring? || pc.Resetting? || pc.Probing? || pc.Requesting?
    || pc.Awaiting? || pc.Judging? || pc.Swapping? || pc.Abandoned?
  }

  predicate Serving(pc: Pc) {
    pc.RejectingA? || pc.Granting? || pc.Refusing? || pc.Clearing?
  }

  predicate Asking(pc: Pc) {
    pc.Awaiting? || pc.Judging? || pc.Abandoned? || pc == Swapping(true)
  }

  /** A worker shares its frontier when that holds more than splitCutoff items, or when
      it has gone on for more than splitCutoff steps without sharing and holds two. */
  predicate Splits(pb: Problem, me: Worker) {
    |me.mine| > pb.splitCutoff || (me.since > pb.splitCutoff && |me.mine| > 1)
  }

  /** The result of size_input is still right for the frontier. */
  predicate SizeFits(pb: Problem, me: Worker, sz: nat, isDone: bool) {
    && sz <= 2 && (sz == 0 <==> me.mine == multiset{}) && (sz == 0 ==> isDone)
    && (sz == 2 <==> Splits(pb, me))
  }

  /** What worker w knows about its own variables. */
  ghost predicate OwnOk(pb: Problem, s: View, w: nat)
    requires Sizes(pb, s) && w < pb.workers
  {
    var me := s.workers[w];
    && BLOCKED <= s.req[w] < pb.workers
    && (Idle(me.pc) ==> s.req[w] == BLOCKED)
    && (Idle(me.pc) || me.pc.Blocking? || me.pc.BlockingCas? || me.pc.RejectingA? ==> me.mine == multiset{})
    && (Serving(me.pc) ==> s.req[w] == me.pc.other)
    && (me.pc.Probing? || me.pc.Requesting? ==> s.ans[w].AnswerWaiting? && me.pc.other != w && me.pc.other < pb.workers)
    && (me.pc.Awaiting? || me.pc.Judging? || me.pc.Abandoned? ==> me.pc.other != w && me.pc.other < pb.workers)
    && (me.pc.Judging? ==> !s.ans[w].AnswerWaiting?)
    && (me.pc == Swapping(true) ==> s.slot[w] != multiset{})
    && (me.pc == Swapping(false) ==> s.isDone)
    && (me.pc.Deciding? ==> BLOCKED <= me.pc.r < pb.workers && (me.pc.r != WAITING ==> s.req[w] == me.pc.r))
    && (me.pc.Responding? || me.pc.Deciding? ==> SizeFits(pb, me, me.pc.sz, s.isDone))
  }

  /** Only a worker that is waiting for v can be owed an answer by v. */
  ghost predicate DebtOk(pb: Problem, s: View, v: nat, t: nat)
    requires Sizes(pb, s) && v < pb.workers && t < pb.workers
  {
    Owes(s, v, t) ==>
      t != v && s.ans[t].AnswerWaiting? && (s.workers[t].pc == Awaiting(v) || s.workers[t].pc == Abandoned(v))
  }

  ghost predicate AwaitOk(pb: Problem, s: View, t: nat)
    requires Sizes(pb, s) && t < pb.workers
  {
    s.workers[t].pc.Awaiting? && s.ans[t].AnswerWaiting? ==>
      s.workers[t].pc.other < pb.workers && Owes(s, s.workers[t].pc.other, t)
  }

  /** A transfer is under way to t. */
  ghost predicate Incoming(s: View, t: nat)
    requires t < |s.workers| == |s.ans|
  {
    || (exists v :: 0 <= v < |s.workers| && s.workers[v].pc == Granting(t))
    || (s.ans[t].AnswerTransferred?
        && (s.workers[t].pc.Awaiting? || s.workers[t].pc.Judging? || s.workers[t].pc.Abandoned?))
    || s.workers[t].pc == Swapping(true)
  }

  /** A slot holds work exactly while a transfer to its owner is under way. */
  ghost predicate SlotOk(s: View, t: nat)
    requires t < |s.workers| == |s.ans| == |s.slot|
  {
    s.slot[t] != multiset{} <==> Incoming(s, t)
  }

  ghost predicate ProtoInv(pb: Problem, s: View) {
    && Sizes(pb, s)
    && (forall w :: 0 <= w < pb.workers ==> OwnOk(pb, s, w))
    && (forall v, t :: 0 <= v < pb.workers && 0 <= t < pb.workers ==> DebtOk(pb, s, v, t))
    && (forall t :: 0 <= t < pb.workers ==> AwaitOk(pb, s, t))
    && (forall t :: 0 <= t < pb.workers ==> SlotOk(s, t))
  }

  lemma InitialProto(pb: Problem, s: View)
    requires Initial(pb, s)
    ensures ProtoInv(pb, s)
  {
  }

  // ---------- steps that the protocol does not notice ----------

  predicate Unnoticed(pc: Pc) {
    !Asking(pc) && !pc.Granting? && !pc.Clearing? && !pc.RejectingB?
  }

  lemma IncomingFrame(s: View, r: View, t: nat)
    requires |s.workers| == |s.ans| == |s.slot| == |r.workers| == |r.ans| == |r.slot| && t < |s.workers|
    requires r.ans[t] == s.ans[t] && r.slot[t] == s.slot[t] && SlotOk(s, t)
    requires Asking(r.workers[t].pc) || Asking(s.workers[t].pc) ==> r.workers[t].pc == s.workers[t].pc
    requires forall v :: 0 <= v < |s.workers| ==> (r.workers[v].pc == Granting(t) <==> s.workers[v].pc == Granting(t))
    ensures SlotOk(r, t)
  {
    if Incoming(s, t) && !(exists v :: 0 <= v < |r.workers| && r.workers[v].pc == Granting(t)) {
      assert Incoming(r, t);
    }
    if exists v :: 0 <= v < |s.workers| && s.workers[v].pc == Granting(t) {
      var v :| 0 <= v < |s.workers| && s.workers[v].pc == Granting(t);
      assert r.workers[v].pc == Granting(t);
    }
  }

  /** Worker w moves on, perhaps switching its request cell between blocked and
      waiting, with no open request on either side. */
  lemma UnnoticedStep(pb: Problem, s: View, r: View, w: nat)
    requires ProtoInv(pb, s) && w < pb.workers && Sizes(pb, r)
    requires r.workers == s.workers[w := r.workers[w]] && r.req == s.req[w := r.req[w]]
    requires r.ans == s.ans && r.slot == s.slot && (s.isDone ==> r.isDone)
    requires Unnoticed(s.workers[w].pc) && Unnoticed(r.workers[w].pc)
    requires r.req[w] == s.req[w] || (s.req[w] < 0 && r.req[w] < 0)
    requires OwnOk(pb, r, w)
    ensures ProtoInv(pb, r)
  {
    forall x | 0 <= x < pb.workers ensures OwnOk(pb, r, x) {
      assert OwnOk(pb, s, x);
    }
    forall v, t | 0 <= v < pb.workers && 0 <= t < pb.workers ensures DebtOk(pb, r, v, t) {
      assert DebtOk(pb, s, v, t);
    }
    forall t | 0 <= t < pb.workers ensures AwaitOk(pb, r, t) && SlotOk(r, t) {
      assert AwaitOk(pb, s, t) && SlotOk(s, t);
      IncomingFrame(s, r, t);
    }
  }

  lemma PlainKeepsProto(pb: Problem, s: View, w: nat, a: Action)
    requires WellPosed(pb) && ProtoInv(pb, s) && Enabled(pb, s, w, a)
    requires a.Look? || a.LoadOwnRequest? || a.BlockCas? || a.AcquireCheck? || a.Probe? || a.LoadRequest?
    ensures ProtoInv(pb, After(pb, s, w, a))
  {
    assert OwnOk(pb, s, w);
    UnnoticedStep(pb, s, After(pb, s, w, a), w);
  }

  lemma SearchKeepsProto(pb: Problem, s: View, w: nat, a: Action)
    requires WellPosed(pb) && ProtoInv(pb, s) && Enabled(pb, s, w, a)
    requires a.Pop? || a.EndRound? || a.LoadExpanded? || a.CasExpanded? || a.ReadDistance? || a.LoadNeighbor?
             || a.CasNeighbor? || a.InsertNeighbor? || a.Announce?
    ensures ProtoInv(pb, After(pb, s, w, a))
  {
    SearchLocal(pb, s, w, a);
    SearchStep(pb, s, After(pb, s, w, a), w);
  }

  lemma SearchStep(pb: Problem, s: View, r: View, w: nat)
    requires ProtoInv(pb, s) && w < pb.workers && Sizes(pb, r)
    requires r.workers == s.workers[w := r.workers[w]] && r.req == s.req && r.ans == s.ans
    requires r.slot == s.slot && (s.isDone ==> r.isDone)
    requires InSearch(s.workers[w].pc) && InSearch(r.workers[w].pc)
    ensures ProtoInv(pb, r)
  {
    assert OwnOk(pb, s, w);
    UnnoticedStep(pb, s, r, w);
  }

  predicate InSearch(pc: Pc) {
    pc.Working? || pc.Popped? || pc.Claiming? || pc.Reading? || pc.Relaxing? || pc.Updating? || pc.Discovered?
    || pc.Found? || pc.Exited? || pc.Top?
  }

  lemma SearchLocal(pb: Problem, s: View, w: nat, a: Action)
    requires Enabled(pb, s, w, a)
    requires a.Pop? || a.EndRound? || a.LoadExpanded? || a.CasExpanded? || a.ReadDistance? || a.LoadNeighbor?
             || a.CasNeighbor? || a.InsertNeighbor? || a.Announce?
    ensures var r := After(pb, s, w, a);
            && Sizes(pb, r) && r.workers == s.workers[w := r.workers[w]] && r.req == s.req && r.ans == s.ans
            && r.slot == s.slot && (s.isDone ==> r.isDone)
            && InSearch(s.workers[w].pc) && InSearch(r.workers[w].pc)
  {
  }

  // ---------- asking ----------

  /** No one owes an answer to a worker that is not waiting for one. */
  lemma NobodyOwes(pb: Problem, s: View, t: nat)
    requires ProtoInv(pb, s) && t < pb.workers
    requires (!s.workers[t].pc.Awaiting? && !s.workers[t].pc.Abandoned?) || !s.ans[t].AnswerWaiting?
    ensures forall v :: 0 <= v < pb.workers ==> !Owes(s, v, t)
  {
    forall v | 0 <= v < pb.workers ensures !Owes(s, v, t) {
      assert DebtOk(pb, s, v, t);
    }
  }

  lemma ResetKeepsProto(pb: Problem, s: View, w: nat, other: nat)
    requires ProtoInv(pb, s) && Enabled(pb, s, w, ResetAnswer(other))
    ensures ProtoInv(pb, After(pb, s, w, ResetAnswer(other)))
  {
    var r := After(pb, s, w, ResetAnswer(other));
    NobodyOwes(pb, s, w);
    forall x | 0 <= x < pb.workers ensures OwnOk(pb, r, x) { assert OwnOk(pb, s, x); }
    forall v, t | 0 <= v < pb.workers && 0 <= t < pb.workers ensures DebtOk(pb, r, v, t) {
      assert DebtOk(pb, s, v, t);
      if t == w { assert !Owes(s, v, w); }
    }
    forall t | 0 <= t < pb.workers ensures AwaitOk(pb, r, t) && SlotOk(r, t) {
      assert AwaitOk(pb, s, t) && SlotOk(s, t);
      if t != w {
        IncomingFrame(s, r, t);
      } else {
        assert Incoming(r, w) ==> Incoming(s, w) by {
          if v :| 0 <= v < |r.workers| && r.workers[v].pc == Granting(w) { assert s.workers[v].pc == Granting(w); }
        }
        assert Incoming(s, w) ==> Incoming(r, w) by {
          if v :| 0 <= v < |s.workers| && s.workers[v].pc == Granting(w) { assert r.workers[v].pc == Granting(w); }
        }
      }
    }
  }

  lemma RequestKeepsProto(pb: Problem, s: View, w: nat)
    requires ProtoInv(pb, s) && Enabled(pb, s, w, RequestCas)
    ensures ProtoInv(pb, After(pb, s, w, RequestCas))
  {
    var r := After(pb, s, w, RequestCas);
    var o := s.workers[w].pc.other;
    assert OwnOk(pb, s, w) && OwnOk(pb, s, o);
    if s.req[o] == WAITING {
      RequestGranted(pb, s, r, w, o);
    } else {
      UnnoticedStep(pb, s, r, w);
    }
  }

  lemma RequestGranted(pb: Problem, s: View, r: View, w: nat, o: nat)
    requires ProtoInv(pb, s) && w < pb.workers && o < pb.workers && s.workers[w].pc == Requesting(o)
             && s.req[o] == WAITING
    requires r == SetPc(s, w, Awaiting(o)).(req := s.req[o := w as int])
    ensures ProtoInv(pb, r)
  {
    assert OwnOk(pb, s, w) && OwnOk(pb, s, o);
    NobodyOwes(pb, s, w);
    forall x | 0 <= x < pb.workers ensures OwnOk(pb, r, x) { assert OwnOk(pb, s, x); }
    RequestDebts(pb, s, r, w, o);
    forall t | 0 <= t < pb.workers ensures AwaitOk(pb, r, t) && SlotOk(r, t) {
      assert AwaitOk(pb, s, t) && SlotOk(s, t);
      if t != w {
        IncomingFrame(s, r, t);
      } else {
        assert Owes(r, o, w);
        GrantsSame(s, r, w);
      }
    }
  }

  lemma RequestDebts(pb: Problem, s: View, r: View, w: nat, o: nat)
    requires ProtoInv(pb, s) && w < pb.workers && o < pb.workers && s.workers[w].pc == Requesting(o)
             && s.req[o] == WAITING
    requires r == SetPc(s, w, Awaiting(o)).(req := s.req[o := w as int])
    requires forall v :: 0 <= v < pb.workers ==> !Owes(s, v, w)
    ensures forall v, t :: 0 <= v < pb.workers && 0 <= t < pb.workers ==> DebtOk(pb, r, v, t)
  {
    assert OwnOk(pb, s, w) && OwnOk(pb, s, o);
    forall v, t | 0 <= v < pb.workers && 0 <= t < pb.workers ensures DebtOk(pb, r, v, t) {
      assert DebtOk(pb, s, v, t);
      if t == w && v != o { assert !Owes(s, v, w); }
    }
  }

  lemma GrantsSame(s: View, r: View, t: nat)
    requires |s.workers| == |r.workers|
    requires forall v :: 0 <= v < |s.workers| ==> (r.workers[v].pc == Granting(t) <==> s.workers[v].pc == Granting(t))
    ensures (exists v :: 0 <= v < |s.workers| && s.workers[v].pc == Granting(t))
       <==> (exists v :: 0 <= v < |r.workers| && r.workers[v].pc == Granting(t))
  {
    if v :| 0 <= v < |r.workers| && r.workers[v].pc == Granting(t) { assert s.workers[v].pc == Granting(t); }
    if v :| 0 <= v < |s.workers| && s.workers[v].pc == Granting(t) { assert r.workers[v].pc == Granting(t); }
  }

  /** A grant is owed to its receiver, so an owed worker's slot is empty until then. */
  lemma GranterOwes(pb: Problem, s: View, v: nat, t: nat)
    requires ProtoInv(pb, s) && v < pb.workers && t < pb.workers && s.workers[v].pc == Granting(t)
    ensures Owes(s, v, t) && (s.workers[t].pc == Awaiting(v) || s.workers[t].pc == Abandoned(v))
  {
    assert OwnOk(pb, s, v) && DebtOk(pb, s, v, t);
  }

  /** Only w's own place in the asking states changes. */
  lemma AskerStep(pb: Problem, s: View, r: View, w: nat)
    requires ProtoInv(pb, s) && w < pb.workers && Sizes(pb, r)
    requires r.workers == s.workers[w := s.workers[w].(pc := r.workers[w].pc)] && r.req == s.req && r.ans == s.ans
    requires r.slot == s.slot && r.isDone == s.isDone
    requires !s.workers[w].pc.Granting? && !s.workers[w].pc.Clearing? && !s.workers[w].pc.RejectingB?
    requires !r.workers[w].pc.Granting? && !r.workers[w].pc.Clearing? && !r.workers[w].pc.RejectingB?
    requires OwnOk(pb, r, w) && SlotOk(r, w) && AwaitOk(pb, r, w)
    requires forall v :: 0 <= v < pb.workers ==> DebtOk(pb, r, v, w)
    ensures ProtoInv(pb, r)
  {
    forall x | 0 <= x < pb.workers ensures OwnOk(pb, r, x) { assert OwnOk(pb, s, x); }
    forall v, t | 0 <= v < pb.workers && 0 <= t < pb.workers ensures DebtOk(pb, r, v, t) {
      assert DebtOk(pb, s, v, t);
    }
    forall t | 0 <= t < pb.workers ensures AwaitOk(pb, r, t) && SlotOk(r, t) {
      assert AwaitOk(pb, s, t) && SlotOk(s, t);
      if t != w { IncomingFrame(s, r, t); }
    }
  }

  lemma PollKeepsProto(pb: Problem, s: View, w: nat, a: Action)
    requires ProtoInv(pb, s) && Enabled(pb, s, w, a) && (a.PollAnswer? || a.GiveUp? || a.Judge?)
    ensures ProtoInv(pb, After(pb, s, w, a))
  {
    var r := After(pb, s, w, a);
    assert OwnOk(pb, s, w) && AwaitOk(pb, s, w) && SlotOk(s, w);
    if r != s {
      GrantsSame(s, r, w);
      forall v | 0 <= v < pb.workers ensures DebtOk(pb, r, v, w) { assert DebtOk(pb, s, v, w); }
      if a.Judge? {
        NobodyOwes(pb, s, w);
        forall v | 0 <= v < pb.workers ensures s.workers[v].pc != Granting(w) {
          if s.workers[v].pc == Granting(w) { GranterOwes(pb, s, v, w); }
        }
      }
      AskerStep(pb, s, r, w);
    }
  }

  lemma NobodyGrants(pb: Problem, s: View, w: nat)
    requires ProtoInv(pb, s) && w < pb.workers && s.workers[w].pc.Swapping?
    ensures forall v :: 0 <= v < pb.workers ==> s.workers[v].pc != Granting(w)
  {
    forall v | 0 <= v < pb.workers ensures s.workers[v].pc != Granting(w) {
      if s.workers[v].pc == Granting(w) { GranterOwes(pb, s, v, w); }
    }
  }

  /** w's frontier and its slot change places, and the size is taken of the new one. */
  ghost predicate Swapped(pb: Problem, s: View, r: View, w: nat)
    requires Sizes(pb, s) && w < pb.workers
  {
    && Sizes(pb, r) && s.workers[w].pc.Swapping? && r.workers[w].pc.Responding?
    && r.workers == s.workers[w := r.workers[w]] && r.workers[w].mine == s.slot[w]
    && r.slot == s.slot[w := s.workers[w].mine] && r.req == s.req && r.ans == s.ans && r.isDone == s.isDone
    && var sz := r.workers[w].pc.sz;
    && sz <= 2 && (sz == 0 <==> s.slot[w] == multiset{}) && (sz == 2 <==> Splits(pb, r.workers[w]))
  }

  lemma SwapMeans(pb: Problem, s: View, r: View, w: nat, a: Action)
    requires Enabled(pb, s, w, a) && r == After(pb, s, w, a) && a.Swap?
    ensures Sizes(pb, s) && w < pb.workers && Swapped(pb, s, r, w)
  {
  }

  lemma SwappedKeepsProto(pb: Problem, s: View, r: View, w: nat)
    requires ProtoInv(pb, s) && w < pb.workers && Swapped(pb, s, r, w)
    ensures ProtoInv(pb, r)
  {
    assert OwnOk(pb, s, w) && SlotOk(s, w);
    NobodyOwes(pb, s, w);
    NobodyGrants(pb, s, w);
    assert s.workers[w].pc == Swapping(false) ==> s.slot[w] == multiset{};
    forall x | 0 <= x < pb.workers ensures OwnOk(pb, r, x) { assert OwnOk(pb, s, x); }
    forall v, t | 0 <= v < pb.workers && 0 <= t < pb.workers ensures DebtOk(pb, r, v, t) {
      assert DebtOk(pb, s, v, t);
    }
    forall t | 0 <= t < pb.workers ensures AwaitOk(pb, r, t) && SlotOk(r, t) {
      assert AwaitOk(pb, s, t) && SlotOk(s, t);
      if t != w { IncomingFrame(s, r, t); } else { GrantsSame(s, r, w); }
    }
  }

  lemma SwapKeepsProto(pb: Problem, s: View, w: nat, a: Action)
    requires ProtoInv(pb, s) && Enabled(pb, s, w, a) && a.Swap?
    ensures ProtoInv(pb, After(pb, s, w, a))
  {
    hide Enabled, After, ProtoInv;
    SwapMeans(pb, s, After(pb, s, w, a), w, a);
    SwappedKeepsProto(pb, s, After(pb, s, w, a), w);
  }

  // ---------- answering ----------

  /** w answers the worker o it owes: o's answer changes, w owes nothing any more. */
  lemma AnswerStep(pb: Problem, s: View, r: View, w: nat, o: nat)
    requires ProtoInv(pb, s) && w < pb.workers && o < pb.workers && Sizes(pb, r) && Owes(s, w, o)
    requires r.workers == s.workers[w := s.workers[w].(pc := r.workers[w].pc)] && r.req == s.req
    requires r.slot == s.slot && r.isDone == s.isDone
    requires r.ans == s.ans[o := r.ans[o]] && !r.ans[o].AnswerWaiting?
    requires s.workers[w].pc.RejectingB? || s.workers[w].pc == Granting(o) || s.workers[w].pc.Refusing?
    requires (r.workers[w].pc.Clearing? && !s.workers[w].pc.RejectingB?)
             || (r.workers[w].pc.Acquiring? && s.workers[w].pc.RejectingB?)
    requires r.ans[o].AnswerTransferred? <==> s.workers[w].pc == Granting(o)
    requires OwnOk(pb, r, w)
    ensures ProtoInv(pb, r)
  {
    assert DebtOk(pb, s, w, o) && OwnOk(pb, s, w);
    forall x | 0 <= x < pb.workers ensures OwnOk(pb, r, x) { assert OwnOk(pb, s, x); }
    forall v, t | 0 <= v < pb.workers && 0 <= t < pb.workers ensures DebtOk(pb, r, v, t) {
      assert DebtOk(pb, s, v, t);
    }
    forall t | 0 <= t < pb.workers ensures AwaitOk(pb, r, t) && SlotOk(r, t) {
      assert AwaitOk(pb, s, t) && SlotOk(s, t);
      if t != o { IncomingFrame(s, r, t); } else { AnsweredSlot(pb, s, r, w, o); }
    }
  }

  /** After the answer, o's slot is full if and only if the answer says so. */
  lemma AnsweredSlot(pb: Problem, s: View, r: View, w: nat, o: nat)
    requires ProtoInv(pb, s) && w < pb.workers && o < pb.workers && Sizes(pb, r) && Owes(s, w, o)
    requires r.workers == s.workers[w := s.workers[w].(pc := r.workers[w].pc)] && r.slot == s.slot && w != o
    requires r.workers[w].pc.Clearing? || r.workers[w].pc.Acquiring?
    requires r.ans[o].AnswerTransferred? <==> s.workers[w].pc == Granting(o)
    ensures SlotOk(r, o)
  {
    assert DebtOk(pb, s, w, o) && SlotOk(s, o);
    forall v | 0 <= v < pb.workers && v != w ensures s.workers[v].pc != Granting(o) {
      if s.workers[v].pc == Granting(o) { GranterOwes(pb, s, v, o); }
    }
    assert r.workers[w].pc != Granting(o);
  }

  lemma AnswerKeepsProto(pb: Problem, s: View, w: nat, a: Action)
    requires ProtoInv(pb, s) && Enabled(pb, s, w, a) && (a.RejectAnswer? || a.Grant? || a.Refuse?)
    ensures ProtoInv(pb, After(pb, s, w, a))
    ensures Owes(s, w, s.workers[w].pc.other) && !Owes(After(pb, s, w, a), w, s.workers[w].pc.other)
  {
    assert OwnOk(pb, s, w);
    AnswerStep(pb, s, After(pb, s, w, a), w, s.workers[w].pc.other);
  }

  /** w changes its own request cell, owing the same answers as before. */
  lemma SameDebts(pb: Problem, s: View, r: View, w: nat)
    requires ProtoInv(pb, s) && w < pb.workers && Sizes(pb, r)
    requires r.workers == s.workers[w := s.workers[w].(pc := r.workers[w].pc)] && r.req == s.req[w := r.req[w]]
    requires r.ans == s.ans && r.slot == s.slot && r.isDone == s.isDone
    requires !Asking(s.workers[w].pc) && !Asking(r.workers[w].pc)
    requires !s.workers[w].pc.Granting? && !r.workers[w].pc.Granting?
    requires forall t: nat :: Owes(r, w, t) <==> Owes(s, w, t)
    requires OwnOk(pb, r, w)
    ensures ProtoInv(pb, r)
  {
    forall x | 0 <= x < pb.workers ensures OwnOk(pb, r, x) { assert OwnOk(pb, s, x); }
    forall v, t | 0 <= v < pb.workers && 0 <= t < pb.workers ensures DebtOk(pb, r, v, t) {
      assert DebtOk(pb, s, v, t);
    }
    forall t | 0 <= t < pb.workers ensures AwaitOk(pb, r, t) && SlotOk(r, t) {
      assert AwaitOk(pb, s, t) && SlotOk(s, t);
      IncomingFrame(s, r, t);
    }
  }

  lemma CellKeepsProto(pb: Problem, s: View, w: nat, a: Action)
    requires ProtoInv(pb, s) && Enabled(pb, s, w, a) && (a.RejectClear? || a.Clear?)
    ensures ProtoInv(pb, After(pb, s, w, a))
  {
    assert OwnOk(pb, s, w);
    SameDebts(pb, s, After(pb, s, w, a), w);
  }

  // ---------- splitting ----------

  /** The slot a victim splits into is empty: only the victim could have filled it. */
  lemma SplitTargetIsEmpty(pb: Problem, s: View, w: nat)
    requires ProtoInv(pb, s) && w < pb.workers && s.workers[w].pc.Deciding? && 0 <= s.workers[w].pc.r < pb.workers
    ensures s.slot[s.workers[w].pc.r] == multiset{} && Owes(s, w, s.workers[w].pc.r)
  {
    var t := s.workers[w].pc.r;
    assert OwnOk(pb, s, w) && DebtOk(pb, s, w, t) && SlotOk(s, t);
    forall v | 0 <= v < pb.workers ensures s.workers[v].pc != Granting(t) {
      if s.workers[v].pc == Granting(t) { GranterOwes(pb, s, v, t); }
    }
  }

  lemma SplitKeepsProto(
      pb: Problem, s: View, r: View, w: nat, t: nat, give: multiset<Item>, polled: nat, since: nat)
    requires ProtoInv(pb, s) && w < pb.workers && t < pb.workers
    requires s.workers[w].pc.Deciding? && s.workers[w].pc.r == t && give != multiset{}
    requires r == s.(workers := s.workers[w := Worker(s.workers[w].mine - give, Granting(t), polled, since)],
                     slot := s.slot[t := give])
    ensures ProtoInv(pb, r)
  {
    SplitTargetIsEmpty(pb, s, w);
    assert OwnOk(pb, s, w) && DebtOk(pb, s, w, t);
    forall x | 0 <= x < pb.workers ensures OwnOk(pb, r, x) { assert OwnOk(pb, s, x); }
    forall v, x | 0 <= v < pb.workers && 0 <= x < pb.workers ensures DebtOk(pb, r, v, x) {
      assert DebtOk(pb, s, v, x);
    }
    forall x | 0 <= x < pb.workers ensures AwaitOk(pb, r, x) && SlotOk(r, x) {
      assert AwaitOk(pb, s, x) && SlotOk(s, x);
      if x != t { IncomingFrame(s, r, x); } else { assert r.workers[w].pc == Granting(t); }
    }
  }

  lemma DecideKeepsProto(pb: Problem, s: View, w: nat, give: multiset<Item>)
    requires ProtoInv(pb, s) && Enabled(pb, s, w, Decide(give))
    ensures ProtoInv(pb, After(pb, s, w, Decide(give)))
  {
    var r := After(pb, s, w, Decide(give));
    var pc := s.workers[w].pc;
    assert OwnOk(pb, s, w);
    if pc.r >= 0 && pc.sz == 2 {
      SplitKeepsProto(pb, s, r, w, pc.r, give, s.workers[w].polled, 0);
    } else {
      UnnoticedStep(pb, s, r, w);
    }
  }

  lemma ActionKeepsProto(pb: Problem, s: View, w: nat, a: Action)
    requires WellPosed(pb) && ProtoInv(pb, s) && Enabled(pb, s, w, a)
    ensures ProtoInv(pb, After(pb, s, w, a))
  {
    match a
    case Look => PlainKeepsProto(pb, s, w, a);
    case LoadOwnRequest => PlainKeepsProto(pb, s, w, a);
    case BlockCas => PlainKeepsProto(pb, s, w, a);
    case AcquireCheck => PlainKeepsProto(pb, s, w, a);
    case Probe => PlainKeepsProto(pb, s, w, a);
    case LoadRequest => PlainKeepsProto(pb, s, w, a);
    case RejectClear => CellKeepsProto(pb, s, w, a);
    case Clear => CellKeepsProto(pb, s, w, a);
    case RejectAnswer => AnswerKeepsProto(pb, s, w, a);
    case Grant => AnswerKeepsProto(pb, s, w, a);
    case Refuse => AnswerKeepsProto(pb, s, w, a);
    case ResetAnswer(other) => ResetKeepsProto(pb, s, w, other);
    case RequestCas => RequestKeepsProto(pb, s, w);
    case PollAnswer => PollKeepsProto(pb, s, w, a);
    case GiveUp => PollKeepsProto(pb, s, w, a);
    case Judge => PollKeepsProto(pb, s, w, a);
    case Swap => SwapKeepsProto(pb, s, w, a);
    case Decide(give) => DecideKeepsProto(pb, s, w, give);
    case _ => SearchKeepsProto(pb, s, w, a);
  }
}
