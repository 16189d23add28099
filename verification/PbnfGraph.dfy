/** The scheduler object of PBNF, in the imperative form of the source. */
module PbnfGraph {
  import opened Graphs
  import opened NBlocks
  import opened S = NBlockScheduler

  datatype Outcome = Got(block: nat) | Stopped | MustWait

  /** Every public method is one critical section, or the part of one up to the
      point where the caller waits on the condition variable. */
  class NBlockGraph {
    const k: Setup
    var sigma: seq<int>
    var sigmaHot: seq<int>
    var hot: seq<bool>
    var inuse: seq<bool>
    var best: seq<Option<nat>>
    var freeList: seq<nat>
    var numSigmaZero: int
    var bound: nat
    var done: bool
    var held: seq<Option<nat>>

    function Now(): View
      reads this
    {
      View(sigma, sigmaHot, hot, inuse, best, freeList, numSigmaZero, bound, done, held)
    }

    ghost predicate Valid()
      reads this
    {
      WellSet(k) && Inv(k, Now())
    }

    /** Nobody waits for nothing: while the search goes on and the free list is empty,
        some block is in use, and its worker will look at the list again. */
    ghost predicate Watched()
      reads this`done, this`freeList, this`inuse
    {
      !done && freeList == [] ==> exists b :: 0 <= b < |inuse| && inuse[b]
    }

    constructor (k: Setup, init: nat, f: nat, bound: nat, threads: nat)
      requires WellSet(k) && init < |k.scope|
      ensures Watched()
      ensures Valid() && this.k == k && Initial(k, Now(), init, f) && this.bound == bound && |held| == threads
    {
      this.k := k;
      var n := |k.scope|;
      sigma, sigmaHot := seq(n, _ => 0), seq(n, _ => 0);
      hot, inuse := seq(n, _ => false), seq(n, _ => false);
      best := seq(n, b => if b == init then Some(f) else None);
      freeList := [init];
      numSigmaZero := n;
      this.bound, done := bound, false;
      held := seq(threads, _ => None);
      new;
      InitialOk(k, Now(), init, f);
    }

    method SetCold(b: nat)
      requires b < |k.scope| && HasScopes(k, Now())
      modifies this`hot, this`sigmaHot, this`freeList
      ensures Now() == S.SetCold(old(Now()), b, k.scope[b])
    {
      hot := hot[b := false];
      ghost var v := Now();
      var xs := k.scope[b];
      var i := 0;
      while i < |xs|
        invariant 0 <= i <= |xs| && Now() == ColdAll(v, xs[..i])
        invariant |sigmaHot| == |k.scope|
      {
        var m := xs[i];
        assert xs[..i + 1][..i] == xs[..i];
        sigmaHot := sigmaHot[m := sigmaHot[m] - 1];
        if IsFree(Now(), m) {
          freeList := freeList + [m];
        }
        i := i + 1;
      }
      assert xs[..i] == xs;
    }

    /** The source asserts that a counter found at zero is about to rise; the
        precondition carries that fact for the lowering calls. */
    method UpdateScopeSigmas(n: nat, delta: int)
      requires n < |k.scope| && HasScopes(k, Now()) && (delta == 1 || delta == -1)
      requires delta == -1 ==> Steady(k, Now(), {}, Elements(k.scope[n]))
      modifies this`sigma, this`sigmaHot, this`hot, this`freeList, this`numSigmaZero
      ensures Now() == TouchAll(k, old(Now()), k.scope[n], delta)
    {
      hide Counts, FreeListOk, HotIsBusy, Touch;
      ghost var v := Now();
      var xs := k.scope[n];
      var i := 0;
      while i < |xs|
        invariant 0 <= i <= |xs| && Now() == TouchAll(k, v, xs[..i], delta)
      {
        assert xs[..i + 1][..i] == xs[..i];
        if delta == -1 {
          LowerAllOk(k, v, n, i);
          LowerOk(k, Now(), n, i);
        }
        TouchBlock(xs[i], delta);
        i := i + 1;
      }
      assert xs[..i] == xs;
    }

    method TouchBlock(m: nat, delta: int)
      requires m < |k.scope| && HasScopes(k, Now())
      requires sigma[m] == 0 ==> delta > 0
      modifies this`sigma, this`sigmaHot, this`hot, this`freeList, this`numSigmaZero
      ensures Now() == Touch(k, old(Now()), m, delta)
    {
      if sigma[m] == 0 {
        if IsFree(Now(), m) && m in freeList {
          freeList := Without(freeList, m);
        }
        numSigmaZero := numSigmaZero - 1;
      }
      sigma := sigma[m := sigma[m] + delta];
      if sigma[m] == 0 {
        if hot[m] {
          SetCold(m);
        }
        if IsFree(Now(), m) {
          freeList := freeList + [m];
        }
        numSigmaZero := numSigmaZero + 1;
      }
    }

    /** The front of the free list: no block in it has a better value. */
    method Front() returns (b: nat)
      requires WellSet(k) && Inv(k, Now()) && freeList != []
      ensures Foremost(Now(), b)
    {
      ghost var front := BestExists(best, freeList);
      b :| b in freeList && forall c :: c in freeList ==> best[b].value <= best[c].value;
    }

    /** A worker hands back the block it holds, if any, and then asks for another. */
    method NextNBlock(w: nat) returns (r: Outcome)
      requires Valid() && w < |held|
      modifies this`sigma, this`sigmaHot, this`hot, this`inuse, this`freeList, this`numSigmaZero, this`done, this`held
      ensures Valid() && Watched()
      ensures Decided(w, r) && Stops(r, old(done))
      ensures r.Got? ==> Foremost(Offered(k, old(Now()), w), r.block)
      ensures r.Got? ==> !old(done) && forall c :: 0 <= c < |k.scope| && c != r.block && old(held[w]) != Some(c) ==>
                                          inuse[c] == old(inuse)[c]
      ensures |held| == |old(held)| && forall x :: 0 <= x < |held| && x != w ==> held[x] == old(held)[x]
      ensures old(done) ==> done
    {
      hide WellSet, HasScopes, Counts, FreeListOk, HotIsBusy, Apart, HeldOk, Finished, Release, Foremost, IsFree;
      ghost var v := Now();
      if held[w].Some? {
        GiveBack(w, held[w].value);
      }
      assert Now() == Offered(k, v, w);
      r := Decide(w);
    }

    method GiveBack(w: nat, b: nat)
      requires Valid() && w < |held| && held[w] == Some(b)
      modifies this`sigma, this`sigmaHot, this`hot, this`inuse, this`freeList, this`numSigmaZero, this`held
      ensures Valid() && HasScopes(k, old(Now())) && b < |k.scope| && Now() == Release(k, old(Now()), w, b)
      ensures inuse == old(inuse)[b := false] && held == old(held)[w := None]
      ensures forall c :: 0 <= c < |k.scope| ==> (hot[c] <==> old(hot)[c] && sigma[c] > 0)
    {
      ghost var v := Now();
      ReleaseKeepsInv(k, v, w, b);
      ScopesOf(k, v);
      GivenIsSteady(k, v, v.(inuse := inuse[b := false], held := held[w := None]), b);
      inuse, held := inuse[b := false], held[w := None];
      if IsFree(Now(), b) {
        freeList := freeList + [b];
      }
      UpdateScopeSigmas(b, -1);
      assert Now() == Release(k, v, w, b);
    }

    /** A waiting worker is woken and looks again. */
    method Wake(w: nat) returns (r: Outcome)
      requires Valid() && w < |held| && held[w] == None
      modifies this`sigma, this`sigmaHot, this`hot, this`inuse, this`freeList, this`numSigmaZero, this`done, this`held
      ensures Valid() && (old(Watched()) ==> Watched())
      ensures Decided(w, r) && (r.Got? ==> Foremost(old(Now()), r.block))
      ensures r.Stopped? && !old(done) ==> Idle(k, Now())
      ensures |held| == |old(held)| && forall x :: 0 <= x < |held| && x != w ==> held[x] == old(held)[x]
      ensures old(done) ==> done
    {
      if !done && freeList == [] {
        return MustWait;
      }
      r := AfterWait(w);
    }

    /** What the caller of the scheduler learns from the answer. */
    ghost predicate Decided(w: nat, r: Outcome)
      reads this
    {
      w < |held| &&
      match r
      case Got(b) =>
        b < |inuse| == |best| && inuse[b] && held[w] == Some(b) && best[b].Some? && !k.prunes(best[b].value, bound)
      case Stopped => done && held[w] == None
      case MustWait => !done && freeList == [] && held[w] == None
    }

    /** The search is declared over exactly when a worker that finds nothing worth
        searching sees every block in use isolated; else it has to wait. */
    ghost predicate Stops(r: Outcome, over: bool)
      reads this
    {
      |inuse| == |k.scope| && (!over && !r.Got? ==> (r.Stopped? <==> Idle(k, Now())))
    }

    /** From the retry label: stop, wait, or go on. */
    method Decide(w: nat) returns (r: Outcome)
      requires Valid() && w < |held| && held[w] == None
      modifies this`sigma, this`sigmaHot, this`hot, this`inuse, this`freeList, this`numSigmaZero, this`done, this`held
      ensures Valid() && Decided(w, r) && (r.Got? ==> Foremost(old(Now()), r.block))
      ensures Watched() && Stops(r, old(done))
      ensures |held| == |old(held)| && forall x :: 0 <= x < |held| && x != w ==> held[x] == old(held)[x]
      ensures (old(done) ==> done) && (r.Got? ==> !done)
      ensures r.Got? ==> inuse == old(inuse)[r.block := true]
      decreases |freeList|, 1
    {
      ZeroCountIsIdle(k, Now());
      if numSigmaZero == |k.scope| && freeList == [] {
        StopKeepsInv(k, Now());
        done := true;
        return Stopped;
      }
      if !done && freeList == [] {
        return MustWait;
      }
      r := AfterWait(w);
    }

    /** From the end of the waiting loop. */
    method AfterWait(w: nat) returns (r: Outcome)
      requires Valid() && w < |held| && held[w] == None && (done || freeList != [])
      modifies this`sigma, this`sigmaHot, this`hot, this`inuse, this`freeList, this`numSigmaZero, this`done, this`held
      ensures Valid() && Decided(w, r) && (r.Got? ==> Foremost(old(Now()), r.block))
      ensures Watched() && Stops(r, old(done))
      ensures |held| == |old(held)| && forall x :: 0 <= x < |held| && x != w ==> held[x] == old(held)[x]
      ensures (old(done) ==> done) && (r.Got? ==> !done)
      ensures r.Got? ==> inuse == old(inuse)[r.block := true]
      decreases |freeList|, 0
    {
      if done {
        return Stopped;
      }
      var n := Front();
      if k.prunes(best[n].value, bound) {
        PruneKeepsInv(k, Now(), n);
        freeList := [];
        r := Decide(w);
        return;
      }
      Take(w, n);
      r := Got(n);
    }

    method Take(w: nat, n: nat)
      requires Valid() && w < |held| && held[w] == None && !done && n in freeList
      modifies this`sigma, this`sigmaHot, this`hot, this`inuse, this`freeList, this`numSigmaZero, this`held
      ensures Valid() && n < |k.scope| && n < |inuse|
      ensures inuse == old(inuse)[n := true] && held == old(held)[w := Some(n)] && hot == old(hot)
    {
      ghost var v := Now();
      AcquireKeepsInv(k, v, w, n);
      freeList := Without(freeList, n);
      inuse, held := inuse[n := true], held[w := Some(n)];
      UpdateScopeSigmas(n, 1);
      assert Now() == Acquire(k, v, w, n);
    }

    /** Ask for block b; `val` is its best value as read before the lock was taken. */
    method SetHot(b: nat, val: nat)
      requires Valid() && b < |k.scope|
      modifies this`sigmaHot, this`hot, this`freeList
      ensures Valid() && (old(Watched()) ==> Watched())
      ensures if !old(hot)[b] && sigma[b] > 0 && !Outbid(old(Now()), b, val)
              then forall c :: 0 <= c < |k.scope| ==> (hot[c] <==> c == b || (old(hot)[c] && c !in k.scope[b]))
              else hot == old(hot)
    {
      if !hot[b] && sigma[b] > 0 {
        var better := HotterNeighbour(b, val);
        if !better {
          Heat(b);
        }
      }
    }

    /** Some hot block in the scope of b holds a node better than val. */
    ghost predicate Outbid(v: View, b: nat, val: nat)
      requires b < |k.scope| && |v.hot| == |v.best| == |k.scope|
    {
      exists i :: 0 <= i < |k.scope[b]| && k.scope[b][i] < |k.scope| && v.hot[k.scope[b][i]]
                  && v.best[k.scope[b][i]].Some? && v.best[k.scope[b][i]].value < val
    }

    method HotterNeighbour(b: nat, val: nat) returns (found: bool)
      requires Sizes(|k.scope|, Now()) && b < |k.scope| && InRange(k.scope[b], |k.scope|)
      ensures found <==> Outbid(Now(), b, val)
    {
      var i := 0;
      while i < |k.scope[b]|
        invariant 0 <= i <= |k.scope[b]|
        invariant forall j :: 0 <= j < i ==>
                    !(hot[k.scope[b][j]] && best[k.scope[b][j]].Some? && best[k.scope[b][j]].value < val)
      {
        var m := k.scope[b][i];
        if hot[m] && best[m].Some? && best[m].value < val {
          return true;
        }
        i := i + 1;
      }
      found := false;
    }

    method Heat(b: nat)
      requires Valid() && b < |k.scope| && !hot[b] && sigma[b] > 0
      modifies this`sigmaHot, this`hot, this`freeList
      ensures Valid() && (old(Watched()) ==> Watched())
      ensures forall c :: 0 <= c < |k.scope| ==> (hot[c] <==> c == b || (old(hot)[c] && c !in k.scope[b]))
    {
      ghost var v := Now();
      SetHotKeepsInv(k, v, b);
      CountedIsBusy(k, v, b);
      ShadeScope(b);
    }

    method ShadeScope(b: nat)
      requires HasScopes(k, Now()) && b < |k.scope|
      modifies this`sigmaHot, this`hot, this`freeList
      ensures Now() == S.SetHot(k, old(Now()), b)
    {
      hot := hot[b := true];
      ghost var h := Now();
      var xs := k.scope[b];
      var i := 0;
      while i < |xs|
        invariant 0 <= i <= |xs| && Now() == ShadeAll(k, h, xs[..i])
      {
        assert xs[..i + 1][..i] == xs[..i];
        Shade(xs[i]);
        i := i + 1;
      }
      assert xs[..i] == xs;
    }

    method Shade(m: nat)
      requires m < |k.scope| && HasScopes(k, Now())
      modifies this`sigmaHot, this`hot, this`freeList
      ensures Now() == ShadeOne(k, old(Now()), m)
    {
      if IsFree(Now(), m) && m in freeList {
        freeList := Without(freeList, m);
      }
      if hot[m] {
        SetCold(m);
      } else {
        assert hot == hot[m := false];
      }
      sigmaHot := sigmaHot[m := sigmaHot[m] + 1];
    }

    /** The worker on b decides to keep it: hot blocks around b go cold. */
    method WontRelease(b: nat)
      requires Valid() && b < |k.scope|
      modifies this`sigmaHot, this`hot, this`freeList
      ensures Valid() && (old(Watched()) ==> Watched())
      ensures forall c :: 0 <= c < |k.scope| ==> (hot[c] <==> old(hot)[c] && c !in k.scope[b])
    {
      ghost var v := Now();
      ScopesOf(k, v);
      NothingHotAround(k, v, b);
      if sigmaHot[b] == 0 {
        return;
      }
      HotNearbyIsBusy(k, v, b);
      CoolScope(b);
      CoolAllKeepsInv(k, v, k.scope[b]);
    }

    method CoolScope(b: nat)
      requires HasScopes(k, Now()) && b < |k.scope|
      modifies this`sigmaHot, this`hot, this`freeList
      ensures Now() == CoolAll(k, old(Now()), k.scope[b])
    {
      ghost var v := Now();
      var xs := k.scope[b];
      var i := 0;
      while i < |xs|
        invariant 0 <= i <= |xs| && Now() == CoolAll(k, v, xs[..i])
      {
        assert xs[..i + 1][..i] == xs[..i];
        var m := xs[i];
        if hot[m] {
          SetCold(m);
        } else {
          assert hot == hot[m := false];
        }
        i := i + 1;
      }
      assert xs[..i] == xs;
    }

    /** The worker on b changes the open lists it is entitled to. */
    method Search(w: nat, next: seq<Option<nat>>)
      requires Valid() && w < |held| && held[w].Some? && held[w].value < |k.p.succs|
      requires Searches(k, Now(), Now().(best := next), held[w].value)
      modifies this`best
      ensures Valid() && best == next && (old(Watched()) ==> Watched())
    {
      SearchKeepsInv(k, Now(), Now().(best := next), w, held[w].value);
      best := next;
    }

    /** Other workers publish solutions; nothing else they do matters to set_path. */
    method OthersPublish()
      requires Valid()
      modifies this`bound
      ensures Valid() && bound <= old(bound) && (old(Watched()) ==> Watched())
    {
      var b: nat :| b <= bound;
      LowerBoundKeepsInv(k, Now(), b);
      bound := b;
    }

    /** A better solution lowers the bound, a worse one leaves it alone.  Others may
        publish between the read and the compare-and-swap, which is retried until
        nobody has been quicker; a failure means that the bound has fallen, so the
        loop ends.  `found` is the bound in the end, before this worker's own access. */
    method SetPath(b: nat) returns (ghost found: nat)
      requires Valid()
      modifies this`bound
      ensures old(Watched()) ==> Watched()
      ensures Valid() && found <= old(bound) && bound == if b < found then b else found
    {
      var oldb := bound;
      while b < oldb
        invariant Valid() && oldb <= old(bound) && bound == oldb && (old(Watched()) ==> Watched())
        decreases oldb
      {
        OthersPublish();
        if bound == oldb {
          found := bound;
          LowerBoundKeepsInv(k, Now(), b);
          bound := b;
          return;
        }
        oldb := bound;
      }
      found := bound;
    }
  }

  /** What w chooses from: the state after it has handed back its block, if any. */
  ghost function Offered(k: Setup, v: View, w: nat): View {
    if w < |v.held| && v.held[w].Some? && v.held[w].value < |k.scope| && HasScopes(k, v)
    then Release(k, v, w, v.held[w].value)
    else v
  }

  /** Blocks that were pruned from the list do not count: a block worth searching
      that is foremost in the list is not beaten by any free block. */
  lemma ForemostIsBest(k: Setup, v: View, b: nat, c: nat)
    requires WellSet(k) && Inv(k, v) && Foremost(v, b) && !k.prunes(v.best[b].value, v.bound)
    requires c < |k.scope| && IsFree(v, c)
    ensures v.best[b].value <= v.best[c].value
  {
    if c !in v.free { assert NotWorthIt(k, v, c); }
  }

  lemma NothingHotAround(k: Setup, v: View, b: nat)
    requires WellSet(k) && Inv(k, v) && b < |k.scope| && Symmetric(k.scope)
    ensures v.sigmaHot[b] == 0 ==> forall c :: 0 <= c < |k.scope| && c in k.scope[b] ==> !v.hot[c]
  {
    if v.sigmaHot[b] == 0 { NearIsEmpty(v.hot, k.scope, b); }
  }
}
