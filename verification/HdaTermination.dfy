/** Termination detection of HDA*: the completion counter reaches its maximum only
    when no state is pending anywhere, and then nothing is ever pending again. */
module HdaTermination {
  import opened Counting
  import opened Graphs
  import opened HdaModel

  ghost function CompletedThreads(threads: seq<Thread>): set<nat> {
    set t: nat | t < |threads| && threads[t].completed
  }

  predicate Quiet(th: Thread) {
    th.open == {} && !th.rootOpen && th.q == [] && !HasSends(th)
  }

  predicate Busy(pc: Pc) {
    pc.Popped? || pc.Recorded? || pc.Publishing? || pc.Expanding?
  }

  /** Points at which the code knows its send buffers to be empty. */
  predicate NothingToSend(pc: Pc) {
    ((pc.Top? || pc.Taking? || pc.Received?) && !pc.hs) || pc.Waiting? || pc.Woken?
  }

  /** Where a thread that has reported completion can be. */
  predicate Resting(pc: Pc, complete: bool, done: bool) {
    pc.Waiting? || (complete && (pc.Woken? || pc == Received(false) || (done && (pc.Loop? || pc.Exited?))))
  }

  ghost predicate ThreadOk(pb: Problem, th: Thread, t: nat, complete: bool, done: bool) {
    && |th.out| == pb.threads && t < pb.threads && th.out[t] == []
    && (th.qEmpty <==> th.q == [])
    && (NothingToSend(th.pc) ==> !HasSends(th))
    && (th.pc.Waiting? || th.pc.Woken? ==> th.open == {} && !th.rootOpen && (th.completed || th.q != []))
    && (th.completed ==> Quiet(th) && Resting(th.pc, complete, done))
    && (th.pc.Exited? ==> done)
  }

  ghost predicate TermInv(pb: Problem, s: View) {
    && |s.threads| == pb.threads
    && (forall t :: 0 <= t < pb.threads ==> ThreadOk(pb, s.threads[t], t, IsComplete(pb, s), s.done))
    && s.counter == |CompletedThreads(s.threads)|
    && (s.done ==> IsComplete(pb, s))
  }

  // ---------- counting ----------

  lemma CompleteMeansAll(pb: Problem, s: View)
    requires TermInv(pb, s)
    ensures s.counter <= pb.threads
    ensures IsComplete(pb, s) <==> forall t :: 0 <= t < pb.threads ==> s.threads[t].completed
  {
    SubsetIsSmaller(CompletedThreads(s.threads), Below(pb.threads));
    if IsComplete(pb, s) {
      forall t | 0 <= t < pb.threads ensures s.threads[t].completed {
        assert t in CompletedThreads(s.threads);
      }
    }
    if forall t :: 0 <= t < pb.threads ==> s.threads[t].completed {
      assert CompletedThreads(s.threads) == Below(pb.threads);
    }
  }

  lemma CountChange(threads: seq<Thread>, t: nat, th: Thread)
    requires t < |threads|
    ensures |CompletedThreads(threads[t := th])|
         == |CompletedThreads(threads)| - (if threads[t].completed then 1 else 0) + (if th.completed then 1 else 0)
  {
    var a, b := CompletedThreads(threads), CompletedThreads(threads[t := th]);
    assert a - {t} == b - {t};
    assert |a - {t}| == |a| - (if t in a then 1 else 0);
    assert |b - {t}| == |b| - (if t in b then 1 else 0);
  }

  // ---------- preservation ----------

  lemma InitialTerm(pb: Problem, s: View)
    requires WellPosed(pb) && Initial(pb, s)
    ensures TermInv(pb, s)
  {
    assert CompletedThreads(s.threads) == {};
  }

  /** A step that changes only thread t, keeping its completed flag. */
  lemma LocalStep(pb: Problem, s: View, r: View, t: nat, th: Thread)
    requires TermInv(pb, s) && t < pb.threads
    requires r.threads == s.threads[t := th] && r.counter == s.counter && th.completed == s.threads[t].completed
    requires s.done ==> r.done
    requires r.done ==> IsComplete(pb, s)
    requires ThreadOk(pb, th, t, IsComplete(pb, s), r.done)
    ensures TermInv(pb, r)
  {
    CountChange(s.threads, t, th);
  }

  /** A thread with messages to send, or in the middle of its work, has not
      completed; so messages never reach a finished search. */
  lemma PostKeepsTerm(pb: Problem, s: View, d: nat, ns: seq<Node>)
    requires TermInv(pb, s) && d < pb.threads && !IsComplete(pb, s)
    ensures TermInv(pb, Post(s, d, ns)) && !IsComplete(pb, Post(s, d, ns))
  {
    if ns != [] {
      var th := s.threads[d];
      var th' := th.(q := th.q + ns, qEmpty := false, completed := false);
      CountChange(s.threads, d, th');
      CompleteMeansAll(pb, s);
      assert th'.q != [];
      forall i | 0 <= i < |th.out| ensures th'.out[i] == th.out[i] {}
      assert HasSends(th') <==> HasSends(th);
    }
  }

  lemma ActiveIsIncomplete(pb: Problem, s: View, t: nat)
    requires TermInv(pb, s) && t < pb.threads
    requires Busy(s.threads[t].pc) || s.threads[t].pc.Top? || s.threads[t].pc.Taking?
    ensures !s.threads[t].completed && !IsComplete(pb, s) && !s.done
  {
    CompleteMeansAll(pb, s);
    assert ThreadOk(pb, s.threads[t], t, IsComplete(pb, s), s.done);
  }

  lemma DeliverKeepsTerm(pb: Problem, s: View, t: nat, d: nat)
    requires TermInv(pb, s) && t < pb.threads && d < pb.threads
    requires !s.threads[t].completed && !IsComplete(pb, s)
    requires |s.threads[t].out| == pb.threads
    ensures TermInv(pb, Deliver(s, t, d)) && !IsComplete(pb, Deliver(s, t, d))
  {
    var th := s.threads[t];
    assert ThreadOk(pb, th, t, false, s.done);
    var th' := th.(out := th.out[d := []]);
    assert HasSends(th') ==> HasSends(th);
    var m := s.(threads := s.threads[t := th']);
    LocalStep(pb, s, m, t, th');
    PostKeepsTerm(pb, m, d, th.out[d]);
  }

  lemma SendKeepsTerm(pb: Problem, s: View, t: nat, c: Node, deliver: bool)
    requires WellPosed(pb) && TermInv(pb, s) && t < pb.threads && Busy(s.threads[t].pc)
    requires |s.threads[t].out| == pb.threads
    ensures var r := Send(pb, s, t, c, deliver);
            TermInv(pb, r) && r.threads[t].pc == s.threads[t].pc && r.done == s.done && !IsComplete(pb, r)
  {
    ActiveIsIncomplete(pb, s, t);
    var th := s.threads[t];
    assert ThreadOk(pb, th, t, false, s.done);
    var d := pb.owner(c.v);
    if d == t {
      LocalStep(pb, s, SetThread(s, t, Accept(th, c)), t, Accept(th, c));
    } else {
      var th' := th.(out := th.out[d := th.out[d] + [c]]);
      var m := SetThread(s, t, th');
      LocalStep(pb, s, m, t, th');
      if deliver {
        DeliverKeepsTerm(pb, m, t, d);
      }
    }
  }

  lemma TurnKeepsTerm(pb: Problem, s: View, t: nat, pc: Pc)
    requires TermInv(pb, s) && t < pb.threads && !s.threads[t].completed
    requires Busy(pc) || pc.Loop? || (pc.Taking? && (pc.hs || !HasSends(s.threads[t])))
    ensures TermInv(pb, SetPc(s, t, pc))
  {
    var th := s.threads[t];
    assert ThreadOk(pb, th, t, IsComplete(pb, s), s.done);
    assert HasSends(th.(pc := pc)) <==> HasSends(th);
    LocalStep(pb, s, SetPc(s, t, pc), t, th.(pc := pc));
  }

  lemma ActionKeepsTerm(pb: Problem, s: View, t: nat, a: Action)
    requires WellPosed(pb) && TermInv(pb, s) && Enabled(pb, s, t, a)
    ensures TermInv(pb, After(pb, s, t, a))
  {
    var th := s.threads[t];
    var r := After(pb, s, t, a);
    assert ThreadOk(pb, th, t, IsComplete(pb, s), s.done);
    CompleteMeansAll(pb, s);
    match a
    case TryFlush(d) =>
      ActiveIsIncomplete(pb, s, t);
      DeliverKeepsTerm(pb, s, t, d);
    case KeepChild(deliver) =>
      ActiveIsIncomplete(pb, s, t);
      var c := Child(pb, th.pc.node, th.pc.next);
      SendKeepsTerm(pb, s, t, c, deliver);
      var m := Send(pb, s, t, c, deliver);
      assert m.threads[t].completed ==> Resting(m.threads[t].pc, false, m.done) by {
        assert ThreadOk(pb, m.threads[t], t, IsComplete(pb, m), m.done);
      }
      TurnKeepsTerm(pb, m, t, Expanding(th.pc.node, th.pc.next + 1));
    case Receive(keep) =>
      ActiveIsIncomplete(pb, s, t);
      ReceiveKeepsTerm(pb, s, t, keep);
    case Wake(keep) => WakeKeepsTerm(pb, s, t, keep);
    case Check => CheckKeepsTerm(pb, s, t);
    case Enter => PlainKeepsTerm(pb, s, t, a);
    case Leave => PlainKeepsTerm(pb, s, t, a);
    case EndSpin => PlainKeepsTerm(pb, s, t, a);
    case _ =>
      ActiveIsIncomplete(pb, s, t);
      ActiveKeepsTerm(pb, s, t, a);
  }

  /** Steps of a thread that is at work, apart from the ones that move messages. */
  lemma ActiveKeepsTerm(pb: Problem, s: View, t: nat, a: Action)
    requires WellPosed(pb) && TermInv(pb, s) && Enabled(pb, s, t, a)
    requires a.EndFlush? || a.Skip? || a.Take? || a.TakeRoot? || a.TakeNothing? || a.Discard? || a.Keep?
             || a.ReadBest? || a.Publish? || a.DropChild? || a.EndExpansion?
    requires !s.threads[t].completed && !IsComplete(pb, s) && !s.done
    ensures TermInv(pb, After(pb, s, t, a))
  {
    var th := s.threads[t];
    var r := After(pb, s, t, a);
    assert ThreadOk(pb, th, t, IsComplete(pb, s), s.done);
    assert HasSends(r.threads[t]) <==> HasSends(th);
    LocalStep(pb, s, r, t, r.threads[t]);
  }

  lemma PlainKeepsTerm(pb: Problem, s: View, t: nat, a: Action)
    requires WellPosed(pb) && TermInv(pb, s) && Enabled(pb, s, t, a)
    requires a.Enter? || a.Leave? || a.EndSpin?
    ensures TermInv(pb, After(pb, s, t, a))
  {
    var th := s.threads[t];
    var r := After(pb, s, t, a);
    assert ThreadOk(pb, th, t, IsComplete(pb, s), s.done);
    assert HasSends(r.threads[t]) <==> HasSends(th);
    LocalStep(pb, s, r, t, r.threads[t]);
  }

  lemma WakeKeepsTerm(pb: Problem, s: View, t: nat, keep: seq<bool>)
    requires WellPosed(pb) && TermInv(pb, s) && Enabled(pb, s, t, Wake(keep))
    ensures TermInv(pb, After(pb, s, t, Wake(keep)))
  {
    var th := s.threads[t];
    var r := After(pb, s, t, Wake(keep));
    assert ThreadOk(pb, th, t, IsComplete(pb, s), s.done);
    assert HasSends(r.threads[t]) <==> HasSends(th);
    LocalStep(pb, s, r, t, r.threads[t]);
  }

  lemma CheckKeepsTerm(pb: Problem, s: View, t: nat)
    requires WellPosed(pb) && TermInv(pb, s) && Enabled(pb, s, t, Check)
    ensures TermInv(pb, After(pb, s, t, Check))
  {
    CompleteMeansAll(pb, s);
    var th := s.threads[t];
    var r := After(pb, s, t, Check);
    assert ThreadOk(pb, th, t, IsComplete(pb, s), s.done);
    assert HasSends(r.threads[t]) <==> HasSends(th);
    forall x | 0 <= x < pb.threads && x != t ensures ThreadOk(pb, s.threads[x], x, IsComplete(pb, s), r.done) {
      assert ThreadOk(pb, s.threads[x], x, IsComplete(pb, s), s.done);
    }
    LocalStep(pb, s, r, t, r.threads[t]);
  }

  lemma ReceiveKeepsTerm(pb: Problem, s: View, t: nat, keep: seq<bool>)
    requires WellPosed(pb) && TermInv(pb, s) && Enabled(pb, s, t, Receive(keep))
    requires !s.threads[t].completed && !IsComplete(pb, s)
    ensures TermInv(pb, After(pb, s, t, Receive(keep)))
  {
    var th := s.threads[t];
    var r := After(pb, s, t, Receive(keep));
    assert ThreadOk(pb, th, t, false, s.done);
    var th' := r.threads[t];
    assert th'.out == th.out;
    assert HasSends(th') <==> HasSends(th);
    CountChange(s.threads, t, th');
    if !th'.completed {
      LocalStep(pb, s, r, t, th');
    }
  }

  // ---------- the theorems ----------

  lemma {:induction false} RunKeepsTerm(pb: Problem, trace: seq<View>, i: nat)
    requires WellPosed(pb) && Run(pb, trace) && i < |trace|
    ensures TermInv(pb, trace[i])
  {
    if i == 0 {
      InitialTerm(pb, trace[0]);
    } else {
      RunKeepsTerm(pb, trace, i - 1);
      assert Next(pb, trace[i - 1], trace[i - 1 + 1]);
      var t, a :| Enabled(pb, trace[i - 1], t, a) && trace[i] == After(pb, trace[i - 1], t, a);
      ActionKeepsTerm(pb, trace[i - 1], t, a);
    }
  }

  /** Nothing is left to be done: no open state, no queued or buffered message, and
      no state in the hands of a thread. */
  ghost predicate NothingPending(pb: Problem, s: View) {
    |s.threads| == pb.threads
    && forall t :: 0 <= t < pb.threads ==> Quiet(s.threads[t]) && !Busy(s.threads[t].pc)
  }

  lemma CompleteIsQuiet(pb: Problem, s: View)
    requires TermInv(pb, s) && IsComplete(pb, s)
    ensures NothingPending(pb, s)
  {
    CompleteMeansAll(pb, s);
    forall t | 0 <= t < pb.threads ensures Quiet(s.threads[t]) && !Busy(s.threads[t].pc) {
      assert ThreadOk(pb, s.threads[t], t, true, s.done);
    }
  }

  lemma CompleteStays(pb: Problem, s: View, t: nat, a: Action)
    requires WellPosed(pb) && TermInv(pb, s) && IsComplete(pb, s) && Enabled(pb, s, t, a)
    ensures IsComplete(pb, After(pb, s, t, a))
    ensures After(pb, s, t, a).bound == s.bound
    ensures forall x :: 0 <= x < pb.threads ==>
              After(pb, s, t, a).threads[x].closed == s.threads[x].closed
  {
    CompleteMeansAll(pb, s);
    assert ThreadOk(pb, s.threads[t], t, true, s.done);
  }

  /** Main theorem: in every interleaving the counter is the number of threads that
      have reported completion; once it reaches the number of threads, or `done` is
      set, nothing is pending, now or in any later state, and the bound is final. */
  lemma {:induction false} TerminationIsDetected(pb: Problem, trace: seq<View>, i: nat, j: nat)
    requires WellPosed(pb) && Run(pb, trace) && i <= j < |trace|
    requires IsComplete(pb, trace[i]) || trace[i].done
    ensures NothingPending(pb, trace[i]) && NothingPending(pb, trace[j])
    ensures IsComplete(pb, trace[j]) && trace[j].bound == trace[i].bound
    ensures trace[j].counter == |CompletedThreads(trace[j].threads)| == pb.threads
  {
    RunKeepsTerm(pb, trace, i);
    RunKeepsTerm(pb, trace, j);
    CompleteRunStays(pb, trace, i, j);
    CompleteIsQuiet(pb, trace[i]);
    CompleteIsQuiet(pb, trace[j]);
    CompleteMeansAll(pb, trace[j]);
  }

  lemma {:induction false} CompleteRunStays(pb: Problem, trace: seq<View>, i: nat, j: nat)
    requires WellPosed(pb) && Run(pb, trace) && i <= j < |trace| && IsComplete(pb, trace[i])
    ensures IsComplete(pb, trace[j]) && trace[j].bound == trace[i].bound
  {
    hide TermInv, WellPosed, Next, IsComplete;
    if i < j {
      CompleteRunStays(pb, trace, i, j - 1);
      RunKeepsTerm(pb, trace, j - 1);
      assert Next(pb, trace[j - 1], trace[j - 1 + 1]);
      NextStaysComplete(pb, trace[j - 1], trace[j]);
    }
  }

  lemma NextStaysComplete(pb: Problem, s: View, r: View)
    requires WellPosed(pb) && TermInv(pb, s) && IsComplete(pb, s) && Next(pb, s, r)
    ensures IsComplete(pb, r) && r.bound == s.bound
  {
    var t, a :| Enabled(pb, s, t, a) && r == After(pb, s, t, a);
    CompleteStays(pb, s, t, a);
  }

  /** The assertion a woken thread makes when it finds the search complete. */
  lemma WokenAssertionHolds(pb: Problem, trace: seq<View>, i: nat, t: nat)
    requires WellPosed(pb) && Run(pb, trace) && i < |trace| && t < |trace[i].threads|
    requires trace[i].threads[t].pc.Woken? && IsComplete(pb, trace[i])
    ensures trace[i].threads[t].qEmpty && trace[i].threads[t].q == []
  {
    RunKeepsTerm(pb, trace, i);
    CompleteMeansAll(pb, trace[i]);
    assert ThreadOk(pb, trace[i].threads[t], t, true, trace[i].done);
  }
}
