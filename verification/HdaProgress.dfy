/** No run of HDA* gets stuck: a thread that cannot go on waits for one that can. */
module HdaProgress {
  import opened Graphs
  import opened HdaModel
  import opened HdaTermination
  import opened HdaOptimality

  ghost predicate CanAct(pb: Problem, s: View, t: nat) {
    exists a :: Enabled(pb, s, t, a)
  }

  /** Spinning: nothing to do, nothing received, and the search is not over. */
  predicate Spins(pb: Problem, s: View, t: nat)
    requires t < |s.threads|
  {
    s.threads[t].pc.Waiting? && s.threads[t].qEmpty && !IsComplete(pb, s) && !s.done
  }

  /** Keeping every message is always allowed. */
  lemma KeepAll(pb: Problem, bound: Option<nat>, ns: seq<Node>) returns (keep: seq<bool>)
    ensures LegalDrops(pb, bound, ns, keep)
  {
    keep := seq(|ns|, _ => true);
  }

  lemma MeantFor(pb: Problem, s: View, t: nat)
    requires WellPosed(pb) && OptInv(pb, s) && t < pb.threads
    ensures |s.threads| == pb.threads == |s.threads[t].out|
    ensures var th := s.threads[t];
            && (th.qEmpty <==> th.q == []) && th.open <= th.closed.Keys
            && (Busy(th.pc) ==> th.pc.node.v < |pb.adj|)
            && (th.pc.Expanding? ==> th.pc.next <= |pb.adj[th.pc.node.v]|)
            && (th.pc.Recorded? ==> s.best.Some?)
            && (th.pc.Waiting? ==> th.completed || th.q != [])
            && (th.pc.Exited? ==> s.done)
  {
    assert ThreadOk(pb, s.threads[t], t, IsComplete(pb, s), s.done);
    assert StoreOk(pb, s.threads[t], t) && HandOk(pb, s.threads[t].pc, t, s.bound, s.best);
  }

  lemma OutsideExpansionGoesOn(pb: Problem, s: View, t: nat) returns (a: Action)
    requires WellPosed(pb) && OptInv(pb, s) && t < pb.threads && t < |s.threads|
    requires !Busy(s.threads[t].pc) && !s.threads[t].pc.Exited? && !Spins(pb, s, t)
    ensures Enabled(pb, s, t, a)
  {
    MeantFor(pb, s, t);
    hide OptInv, WellPosed;
    var th := s.threads[t];
    var keep := KeepAll(pb, s.bound, th.q);
    match th.pc
    case Loop => a := if s.done then Leave else Enter;
    case Top(_) => a := EndFlush;
    case Taking(_) =>
      if th.rootOpen {
        a := TakeRoot;
      } else if th.open != {} {
        var v :| v in th.open;
        a := Take(v);
      } else {
        a := Receive(keep);
      }
    case Received(_) => a := Check;
    case Waiting => a := EndSpin;
    case Woken => a := Wake(keep);
    case _ =>
  }

  lemma ExpansionGoesOn(pb: Problem, s: View, t: nat) returns (a: Action)
    requires WellPosed(pb) && OptInv(pb, s) && t < pb.threads && t < |s.threads| && Busy(s.threads[t].pc)
    ensures Enabled(pb, s, t, a)
  {
    MeantFor(pb, s, t);
    var pc := s.threads[t].pc;
    assert pc.Expanding? && pc.next < |pb.adj[pc.node.v]| ==>
             pb.owner(Child(pb, pc.node, pc.next).v) < pb.threads;
    hide OptInv, WellPosed;
    a := if pc.Popped? then Keep
         else if pc.Recorded? then ReadBest
         else if pc.Publishing? then Publish
         else if pc.next < |pb.adj[pc.node.v]| then KeepChild(false)
         else EndExpansion;
  }

  lemma GoesOn(pb: Problem, s: View, t: nat)
    requires WellPosed(pb) && OptInv(pb, s) && t < pb.threads && t < |s.threads|
    requires !s.threads[t].pc.Exited? && !Spins(pb, s, t)
    ensures CanAct(pb, s, t)
  {
    var a;
    if Busy(s.threads[t].pc) {
      a := ExpansionGoesOn(pb, s, t);
    } else {
      a := OutsideExpansionGoesOn(pb, s, t);
    }
  }

  /** Main theorem: in every state of every run a thread that has not left can go on, or it
      spins and another thread can go on. */
  lemma NeverStuck(pb: Problem, trace: seq<View>, i: nat, t: nat)
    requires WellPosed(pb) && Run(pb, trace) && i < |trace|
    requires t < |trace[i].threads| && !trace[i].threads[t].pc.Exited?
    ensures CanAct(pb, trace[i], t)
            || (Spins(pb, trace[i], t) && exists u: nat :: u < pb.threads && u != t && CanAct(pb, trace[i], u))
  {
    var s := trace[i];
    RunKeepsOpt(pb, trace, i);
    MeantFor(pb, s, 0);
    if Spins(pb, s, t) {
      var u := SomeoneElse(pb, s, t);
      GoesOn(pb, s, u);
    } else {
      GoesOn(pb, s, t);
    }
  }

  /** Not all threads spin: if all waited with empty queues, the counter would be full. */
  lemma SomeoneElse(pb: Problem, s: View, t: nat) returns (u: nat)
    requires WellPosed(pb) && OptInv(pb, s) && t < pb.threads && t < |s.threads| && Spins(pb, s, t)
    ensures u < pb.threads && u < |s.threads| && u != t && !s.threads[u].pc.Exited? && !Spins(pb, s, u)
  {
    CompleteMeansAll(pb, s);
    MeantFor(pb, s, t);
    u :| u < pb.threads && !s.threads[u].completed;
    MeantFor(pb, s, u);
  }
}
