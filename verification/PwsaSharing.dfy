/** When a PWSA worker shares: what its step counter counts. */
module PwsaSharing {
  import opened Graphs
  import opened PwsaModel
  import opened PwsaProtocol
  import opened PwsaStealing

  /** From the load of the own request to the end of the round the pops of the round are
      not yet part of the counter. */
  predicate InRound(pc: Pc) {
    pc.Deciding? || pc.Granting? || pc.Refusing? || pc.Clearing? || pc.Working? || pc.Popped? || pc.Claiming?
    || pc.Reading? || pc.Relaxing? || pc.Updating? || pc.Discovered? || pc.Found?
  }

  function Unshared(me: Worker): nat {
    me.since + if InRound(me.pc) then me.polled else 0
  }

  /** w splits its frontier, or finds that it has none. */
  predicate Balances(s: View, w: nat, a: Action) {
    w < |s.workers| && w < |s.slot| &&
    match a
    case Look => !s.isDone && s.workers[w].mine == multiset{}
    case Swap => s.slot[w] == multiset{}
    case Decide(_) => s.workers[w].pc.Deciding? && s.workers[w].pc.r >= 0 && s.workers[w].pc.sz == 2
    case _ => false
  }

  /** What one action of w does to the number of its pops. */
  function NextPops(s: View, w: nat, a: Action, pops: nat): nat {
    if Balances(s, w, a) then 0 else pops + if a.Pop? then 1 else 0
  }

  /** How many vertices w has popped since it last balanced. */
  function PopsSince(trace: seq<View>, who: seq<nat>, acts: seq<Action>, i: nat, w: nat): nat
    requires |trace| == |who| + 1 == |acts| + 1 && i < |trace|
  {
    if i == 0 then 0
    else if who[i - 1] != w then PopsSince(trace, who, acts, i - 1, w)
    else NextPops(trace[i - 1], w, acts[i - 1], PopsSince(trace, who, acts, i - 1, w))
  }

  /** The counter and the pops not yet added to it are right, while w runs. */
  predicate CountsPops(me: Worker, pops: nat) {
    (me.pc.Deciding? ==> me.polled == 0) && (!me.pc.Exited? ==> Unshared(me) == pops)
  }

  lemma PoppingCounts(pb: Problem, s: View, r: View, w: nat, a: Action, pops: nat)
    requires Enabled(pb, s, w, a) && r == After(pb, s, w, a) && CountsPops(s.workers[w], pops)
    requires a.Pop? || a.EndRound? || a.LoadExpanded? || a.CasExpanded? || a.Announce?
    ensures w < |r.workers| && CountsPops(r.workers[w], NextPops(s, w, a, pops))
  {
  }

  lemma RelaxingCounts(pb: Problem, s: View, r: View, w: nat, a: Action, pops: nat)
    requires Enabled(pb, s, w, a) && r == After(pb, s, w, a) && CountsPops(s.workers[w], pops)
    requires a.ReadDistance? || a.LoadNeighbor? || a.CasNeighbor? || a.InsertNeighbor?
    ensures w < |r.workers| && CountsPops(r.workers[w], NextPops(s, w, a, pops))
  {
  }

  lemma BlockingCounts(pb: Problem, s: View, r: View, w: nat, a: Action, pops: nat)
    requires Enabled(pb, s, w, a) && r == After(pb, s, w, a) && CountsPops(s.workers[w], pops)
    requires a.Look? || a.LoadOwnRequest? || a.BlockCas? || a.RejectClear? || a.RejectAnswer?
    ensures w < |r.workers| && CountsPops(r.workers[w], NextPops(s, w, a, pops))
  {
  }

  lemma AskingCounts(pb: Problem, s: View, r: View, w: nat, a: Action, pops: nat)
    requires Enabled(pb, s, w, a) && r == After(pb, s, w, a) && CountsPops(s.workers[w], pops)
    requires a.AcquireCheck? || a.ResetAnswer? || a.Probe? || a.RequestCas? || a.PollAnswer? || a.GiveUp? || a.Judge?
    ensures w < |r.workers| && CountsPops(r.workers[w], NextPops(s, w, a, pops))
  {
  }

  lemma ServingCounts(pb: Problem, s: View, r: View, w: nat, a: Action, pops: nat)
    requires Enabled(pb, s, w, a) && r == After(pb, s, w, a) && CountsPops(s.workers[w], pops)
    requires a.Swap? || a.LoadRequest? || a.Decide? || a.Grant? || a.Refuse? || a.Clear?
    ensures w < |r.workers| && CountsPops(r.workers[w], NextPops(s, w, a, pops))
  {
  }

  lemma ActionCounts(pb: Problem, s: View, r: View, w: nat, a: Action, pops: nat)
    requires Enabled(pb, s, w, a) && r == After(pb, s, w, a) && w < |s.workers| && CountsPops(s.workers[w], pops)
    ensures w < |r.workers| && CountsPops(r.workers[w], NextPops(s, w, a, pops))
  {
    hide Enabled, After, CountsPops, NextPops;
    if a.Pop? || a.EndRound? || a.LoadExpanded? || a.CasExpanded? || a.Announce? {
      PoppingCounts(pb, s, r, w, a, pops);
    } else if a.ReadDistance? || a.LoadNeighbor? || a.CasNeighbor? || a.InsertNeighbor? {
      RelaxingCounts(pb, s, r, w, a, pops);
    } else if a.Look? || a.LoadOwnRequest? || a.BlockCas? || a.RejectClear? || a.RejectAnswer? {
      BlockingCounts(pb, s, r, w, a, pops);
    } else if a.Swap? || a.LoadRequest? || a.Decide? || a.Grant? || a.Refuse? || a.Clear? {
      ServingCounts(pb, s, r, w, a, pops);
    } else {
      AskingCounts(pb, s, r, w, a, pops);
    }
  }

  lemma StartCounts(pb: Problem, s: View, w: nat)
    requires Initial(pb, s) && w < pb.workers
    ensures w < |s.workers| && CountsPops(s.workers[w], 0)
  {
  }

  lemma {:induction false} RunCounts(
      pb: Problem, trace: seq<View>, who: seq<nat>, acts: seq<Action>, i: nat, w: nat)
    requires Scheduled(pb, trace, who, acts) && |trace| == |who| + 1 == |acts| + 1 && i < |trace| && w < pb.workers
    ensures w < |trace[i].workers| && CountsPops(trace[i].workers[w], PopsSince(trace, who, acts, i, w))
  {
    if i == 0 {
      StartCounts(pb, trace[0], w);
    } else {
      RunCounts(pb, trace, who, acts, i - 1, w);
      StepAt(pb, trace, who, acts, i - 1);
      CountsOn(pb, trace, who, acts, i, w);
    }
  }

  lemma CountsOn(pb: Problem, trace: seq<View>, who: seq<nat>, acts: seq<Action>, i: nat, w: nat)
    requires |trace| == |who| + 1 == |acts| + 1 && 0 < i < |trace| && w < pb.workers && w < |trace[i - 1].workers|
    requires Enabled(pb, trace[i - 1], who[i - 1], acts[i - 1])
    requires trace[i] == After(pb, trace[i - 1], who[i - 1], acts[i - 1])
    requires CountsPops(trace[i - 1].workers[w], PopsSince(trace, who, acts, i - 1, w))
    ensures w < |trace[i].workers| && CountsPops(trace[i].workers[w], PopsSince(trace, who, acts, i, w))
  {
    hide Enabled, After, CountsPops;
    if who[i - 1] == w {
      ActionCounts(pb, trace[i - 1], trace[i], w, acts[i - 1], PopsSince(trace, who, acts, i - 1, w));
    } else {
      OthersKeepLocals(pb, trace[i - 1], who[i - 1], acts[i - 1], w);
    }
  }

  /** Main theorem: when a worker is about to answer requests, its frontier is to be split
      exactly if it holds more than splitCutoff items, or two, and the worker has popped
      more than splitCutoff vertices since it last split it or had none. */
  lemma SplitsByPops(pb: Problem, trace: seq<View>, who: seq<nat>, acts: seq<Action>, i: nat, w: nat)
    requires Scheduled(pb, trace, who, acts) && |trace| == |who| + 1 == |acts| + 1 && i < |trace|
    requires w < pb.workers && w < |trace[i].workers| && trace[i].workers[w].pc.Responding?
    ensures var mine := trace[i].workers[w].mine;
            Splits(pb, trace[i].workers[w]) <==>
              |mine| > pb.splitCutoff
              || (|mine| > 1 && PopsSince(trace, who, acts, i, w) > pb.splitCutoff)
  {
    RunCounts(pb, trace, who, acts, i, w);
  }
}
