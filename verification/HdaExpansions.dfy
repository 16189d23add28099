/** A thread of HDA* expands a state again only after it has become cheaper. */
module HdaExpansions {
  import opened Graphs
  import opened HdaModel
  import opened HdaTermination
  import opened HdaOptimality

  /** trace[i + 1] results from action acts[i] of thread who[i]. */
  ghost predicate Scheduled(pb: Problem, trace: seq<View>, who: seq<nat>, acts: seq<Action>) {
    && |trace| == |who| + 1 == |acts| + 1 && Initial(pb, trace[0])
    && forall i :: 0 <= i < |who| ==>
         Enabled(pb, trace[i], who[i], acts[i]) && trace[i + 1] == After(pb, trace[i], who[i], acts[i])
  }

  lemma ScheduledKeepsOpt(pb: Problem, trace: seq<View>, who: seq<nat>, acts: seq<Action>, i: nat)
    requires WellPosed(pb) && Scheduled(pb, trace, who, acts) && i < |trace|
    ensures OptInv(pb, trace[i])
  {
    forall j | 0 <= j < |trace| - 1 ensures Next(pb, trace[j], trace[j + 1]) {
      assert Enabled(pb, trace[j], who[j], acts[j]);
    }
    RunKeepsOpt(pb, trace, i);
  }

  /** v has been taken at cost g: it is open again only at a lower cost. */
  ghost predicate Taken(th: Thread, v: nat, g: nat) {
    v in th.closed && th.closed[v] <= g && (v in th.open ==> th.closed[v] < g)
  }

  lemma MergingKeepsTaken(th: Thread, r: Thread, ns: seq<Node>, v: nat, g: nat)
    requires Merged(th, r, ns) && Taken(th, v, g)
    ensures Taken(r, v, g)
  {
  }

  lemma DrainingKeepsTaken(th: Thread, keep: seq<bool>, v: nat, g: nat)
    requires |keep| == |th.q| && th.open <= th.closed.Keys && Taken(th, v, g)
    ensures Taken(Drain(th, keep), v, g)
  {
    AbsorbMerges(th, th.q, keep);
    MergingKeepsTaken(th, Absorb(th, th.q, keep), th.q, v, g);
  }

  /** Actions other than receiving and sending add nothing to the lists. */
  lemma PlainKeepsTaken(pb: Problem, s: View, x: nat, a: Action, t: nat, v: nat, g: nat)
    requires Enabled(pb, s, x, a) && t < |s.threads| && Taken(s.threads[t], v, g)
    requires !a.Receive? && !a.Wake? && !a.KeepChild? && !a.TryFlush?
    ensures t < |After(pb, s, x, a).threads| && Taken(After(pb, s, x, a).threads[t], v, g)
  {
  }

  lemma ReceivingKeepsTaken(pb: Problem, s: View, x: nat, a: Action, t: nat, v: nat, g: nat)
    requires Enabled(pb, s, x, a) && t < |s.threads| && Taken(s.threads[t], v, g)
    requires (a.Receive? || a.Wake?) && s.threads[t].open <= s.threads[t].closed.Keys
    ensures t < |After(pb, s, x, a).threads| && Taken(After(pb, s, x, a).threads[t], v, g)
  {
    if x == t { DrainingKeepsTaken(s.threads[t], a.keep, v, g); }
  }

  lemma PostingKeepsLists(s: View, d: nat, ns: seq<Node>, t: nat)
    requires d < |s.threads| && t < |s.threads|
    ensures Post(s, d, ns).threads[t].open == s.threads[t].open
    ensures Post(s, d, ns).threads[t].closed == s.threads[t].closed
  {
  }

  lemma SendingKeepsTaken(pb: Problem, s: View, x: nat, a: Action, t: nat, v: nat, g: nat)
    requires Enabled(pb, s, x, a) && t < |s.threads| && Taken(s.threads[t], v, g)
    requires (a.KeepChild? || a.TryFlush?) && s.threads[t].open <= s.threads[t].closed.Keys
    ensures t < |After(pb, s, x, a).threads| && Taken(After(pb, s, x, a).threads[t], v, g)
  {
    if a.KeepChild? && pb.owner(Child(pb, s.threads[x].pc.node, s.threads[x].pc.next).v) == x == t {
      var c := Child(pb, s.threads[x].pc.node, s.threads[x].pc.next);
      AcceptMerges(s.threads[t], s.threads[t], [], c);
      MergingKeepsTaken(s.threads[t], Accept(s.threads[t], c), [] + [c], v, g);
    }
  }

  lemma ActionKeepsTaken(pb: Problem, s: View, x: nat, a: Action, t: nat, v: nat, g: nat)
    requires OptInv(pb, s) && Enabled(pb, s, x, a) && t < |s.threads| && Taken(s.threads[t], v, g)
    ensures t < |After(pb, s, x, a).threads| && Taken(After(pb, s, x, a).threads[t], v, g)
  {
    OwnStores(pb, s, t);
    hide OptInv, Taken, Enabled, After;
    if a.Receive? || a.Wake? {
      ReceivingKeepsTaken(pb, s, x, a, t, v, g);
    } else if a.KeepChild? || a.TryFlush? {
      SendingKeepsTaken(pb, s, x, a, t, v, g);
    } else {
      PlainKeepsTaken(pb, s, x, a, t, v, g);
    }
  }

  lemma TakingIsTaken(pb: Problem, s: View, r: View, t: nat, a: Action, v: nat)
    requires Enabled(pb, s, t, a) && a == Take(v) && r == After(pb, s, t, a)
    ensures t < |r.threads| && v in s.threads[t].closed && Taken(r.threads[t], v, s.threads[t].closed[v])
  {
  }

  /** The i-th step of a schedule. */
  lemma Scheduled1(pb: Problem, trace: seq<View>, who: seq<nat>, acts: seq<Action>, i: nat)
    requires Scheduled(pb, trace, who, acts) && i < |who|
    ensures |trace| == |who| + 1 == |acts| + 1
    ensures Enabled(pb, trace[i], who[i], acts[i]) && trace[i + 1] == After(pb, trace[i], who[i], acts[i])
  {
  }

  lemma FirstTaken(pb: Problem, trace: seq<View>, who: seq<nat>, acts: seq<Action>, j: nat, v: nat)
    requires Scheduled(pb, trace, who, acts) && j < |who| == |acts| && j + 1 < |trace| && acts[j] == Take(v)
    ensures who[j] < |trace[j].threads| && who[j] < |trace[j + 1].threads| && v in trace[j].threads[who[j]].closed
    ensures Taken(trace[j + 1].threads[who[j]], v, trace[j].threads[who[j]].closed[v])
  {
    hide Scheduled, Taken, Enabled, After;
    Scheduled1(pb, trace, who, acts, j);
    TakingIsTaken(pb, trace[j], trace[j + 1], who[j], acts[j], v);
  }

  lemma NextTaken(
      pb: Problem, trace: seq<View>, who: seq<nat>, acts: seq<Action>, i: nat, t: nat, v: nat, g: nat)
    requires WellPosed(pb) && Scheduled(pb, trace, who, acts) && i < |who| && i + 1 < |trace|
    requires t < |trace[i].threads| && Taken(trace[i].threads[t], v, g)
    ensures t < |trace[i + 1].threads| && Taken(trace[i + 1].threads[t], v, g)
  {
    hide Scheduled, Taken, Enabled, After, OptInv, WellPosed;
    ScheduledKeepsOpt(pb, trace, who, acts, i);
    Scheduled1(pb, trace, who, acts, i);
    ActionKeepsTaken(pb, trace[i], who[i], acts[i], t, v, g);
  }

  lemma {:induction false} StaysTaken(
      pb: Problem, trace: seq<View>, who: seq<nat>, acts: seq<Action>, j: nat, k: nat, v: nat)
    requires WellPosed(pb) && Scheduled(pb, trace, who, acts) && j < k < |trace| == |who| + 1 == |acts| + 1
    requires acts[j] == Take(v) && who[j] < |trace[j].threads| && v in trace[j].threads[who[j]].closed
    ensures who[j] < |trace[k].threads|
    ensures Taken(trace[k].threads[who[j]], v, trace[j].threads[who[j]].closed[v])
    decreases k
  {
    if k == j + 1 {
      FirstTaken(pb, trace, who, acts, j, v);
    } else {
      hide Scheduled, Taken, WellPosed;
      StaysTaken(pb, trace, who, acts, j, k - 1, v);
      NextTaken(pb, trace, who, acts, k - 1, who[j], v, trace[j].threads[who[j]].closed[v]);
    }
  }

  /** Main theorem: between two expansions of a state by one thread its cost has fallen. */
  lemma ReexpandedOnlyCheaper(
      pb: Problem, trace: seq<View>, who: seq<nat>, acts: seq<Action>, j: nat, k: nat, t: nat, v: nat)
    requires WellPosed(pb) && Scheduled(pb, trace, who, acts) && j < k < |who|
    requires who[j] == who[k] == t && acts[j] == acts[k] == Take(v)
    ensures t < |trace[j].threads| && t < |trace[k].threads|
    ensures v in trace[j].threads[t].closed && v in trace[k].threads[t].closed
    ensures trace[k].threads[t].closed[v] < trace[j].threads[t].closed[v]
  {
    assert Enabled(pb, trace[j], who[j], acts[j]) && Enabled(pb, trace[k], who[k], acts[k]);
    hide Scheduled, After;
    StaysTaken(pb, trace, who, acts, j, k, v);
  }
}
