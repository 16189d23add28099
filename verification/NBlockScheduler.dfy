/** The PBNF scheduler: one lock, and per block a use flag, a hot flag and two
    counters, from which it decides which blocks may be handed out. */
module NBlockScheduler {
  import opened Counting
  import opened Graphs
  import opened NBlocks

  /** The NBlock fields, one sequence per field.  `best[b]` is the smallest f' in
      the open list of b, None when that list is empty; `held[w]` is the block
      worker w is searching. */
  datatype View = View(
    sigma: seq<int>, sigmaHot: seq<int>, hot: seq<bool>, inuse: seq<bool>, best: seq<Option<nat>>,
    free: seq<nat>, numSigmaZero: int, bound: nat, done: bool, held: seq<Option<nat>>)

  /** `prunes(f, bound)` is the scheduler's test best_value >= bound * weight; of
      the product only its monotonicity matters, which rounding preserves. */
  datatype Setup = Setup(p: Projection, scope: seq<seq<nat>>, prunes: (nat, nat) -> bool)

  ghost predicate WellSet(k: Setup) {
    && ScopesOk(k.p, k.scope)
    && forall f, g, b, c :: k.prunes(f, b) && f <= g && c <= b ==> k.prunes(g, c)
  }

  /** The exact product is such a test for every weight that is not negative. */
  lemma ProductIsMonotone(weight: real, f: nat, g: nat, b: nat, c: nat)
    requires weight >= 0.0 && f as real >= b as real * weight && f <= g && c <= b
    ensures g as real >= c as real * weight
  {
    assert c as real * weight <= b as real * weight;
  }

  predicate IsFree(v: View, b: nat)
    requires b < |v.inuse| == |v.sigma| == |v.sigmaHot| == |v.best|
  {
    !v.inuse[b] && v.sigma[b] == 0 && v.sigmaHot[b] == 0 && v.best[b].Some?
  }

  ghost predicate Sizes(n: nat, v: View) {
    |v.sigma| == |v.sigmaHot| == |v.hot| == |v.inuse| == |v.best| == n
  }

  ghost predicate NotWorthIt(k: Setup, v: View, b: nat)
    requires b < |v.best|
  {
    v.best[b].Some? ==> k.prunes(v.best[b].value, v.bound)
  }

  /** The free list holds free blocks only, once each, and a free block outside it
      was pruned: nothing in it is worth searching. */
  ghost predicate FreeListOk(k: Setup, v: View, exempt: set<nat>)
    requires Sizes(|k.scope|, v)
  {
    && NoDuplicates(v.free)
    && (forall b :: b in v.free ==> b < |k.scope| && IsFree(v, b))
    && (forall b :: 0 <= b < |k.scope| && IsFree(v, b) && b !in v.free && b !in exempt ==> NotWorthIt(k, v, b))
  }

  ghost predicate HotIsBusy(v: View, exempt: set<nat>)
    requires |v.hot| == |v.sigma|
  {
    forall b :: 0 <= b < |v.hot| && v.hot[b] && b !in exempt ==> v.sigma[b] > 0
  }

  /** No two flagged blocks interfere. */
  ghost predicate Apart(flags: seq<bool>, scope: seq<seq<nat>>)
    requires |flags| == |scope|
  {
    forall b, c :: 0 <= b < |flags| && 0 <= c < |flags| && flags[b] && flags[c] ==> c !in scope[b]
  }

  ghost predicate HeldOk(v: View) {
    && (forall w :: 0 <= w < |v.held| && v.held[w].Some? ==> v.held[w].value < |v.inuse| && v.inuse[v.held[w].value])
    && (forall w, x :: 0 <= w < x < |v.held| && v.held[w].Some? ==> v.held[x] != v.held[w])
    && (forall b :: 0 <= b < |v.inuse| && v.inuse[b] ==> Some(b) in v.held)
  }

  ghost predicate Inv(k: Setup, v: View) {
    && Sizes(|k.scope|, v)
    && Counts(v.sigma, v.inuse, k.scope, {}, {})
    && Counts(v.sigmaHot, v.hot, k.scope, {}, {})
    && v.numSigmaZero == |Zeros(v.sigma)|
    && FreeListOk(k, v, {})
    && HotIsBusy(v, {})
    && Apart(v.inuse, k.scope)
    && Apart(v.hot, k.scope)
    && HeldOk(v)
    && (v.done && NoneIsolated(k.scope) ==> Finished(k, v))
  }

  ghost predicate NoneIsolated(scope: seq<seq<nat>>) {
    forall b :: 0 <= b < |scope| ==> scope[b] != []
  }

  /** No block is in use or hot, and no block holds a node worth expanding. */
  ghost predicate Finished(k: Setup, v: View)
    requires Sizes(|k.scope|, v)
  {
    forall b :: 0 <= b < |k.scope| ==> !v.inuse[b] && !v.hot[b] && NotWorthIt(k, v, b)
  }

  // ---------- what the invariant is for ----------

  /** The blocks a worker reads and writes while it searches b. */
  ghost predicate Touches(p: Projection, b: nat, c: nat)
    requires b < |p.succs|
  {
    c == b || c in p.succs[b]
  }

  lemma SharingIsInterference(p: Projection, b: nat, c: nat, d: nat)
    requires WellFormed(p) && b < |p.succs| && c < |p.succs| && b != c
    requires d < |p.succs| && Touches(p, b, d) && Touches(p, c, d)
    ensures Interferes(p, b, c)
  {
    if d in p.succs[b] && d in p.succs[c] {
      assert c in p.preds[d];
    } else if d == c {
      assert c in p.succs[b];
    } else {
      assert d == b && c in p.preds[b];
    }
  }

  /** Duplicate-detection scopes of blocks in use never overlap. */
  lemma ScopesAreDisjoint(k: Setup, v: View, b: nat, c: nat, d: nat)
    requires WellSet(k) && Inv(k, v)
    requires b < |k.scope| && c < |k.scope| && d < |k.scope| && v.inuse[b] && v.inuse[c] && b != c
    ensures !(Touches(k.p, b, d) && Touches(k.p, c, d))
  {
    assert c !in k.scope[b] && !Interferes(k.p, b, c);
    if Touches(k.p, b, d) && Touches(k.p, c, d) {
      SharingIsInterference(k.p, b, c, d);
    }
  }

  /** A worker that searches b touches neither a free block nor a block in the free list. */
  lemma SearchTouchesNoFreeBlock(k: Setup, v: View, b: nat, c: nat)
    requires WellSet(k) && Inv(k, v) && b < |k.scope| && v.inuse[b] && c < |k.scope| && Touches(k.p, b, c)
    ensures v.inuse[c] || v.sigma[c] > 0
    ensures !IsFree(v, c) && c !in v.free
  {
    if c != b {
      assert Interferes(k.p, b, c) && c in k.scope[b];
      NearHas(v.inuse, k.scope, c, b);
    }
  }

  lemma ZeroEverywhere(v: View)
    requires v.numSigmaZero == |v.sigma| && v.numSigmaZero == |Zeros(v.sigma)|
    ensures forall b :: 0 <= b < |v.sigma| ==> v.sigma[b] == 0
  {
    SubsetIsSmaller(Zeros(v.sigma), Below(|v.sigma|));
    forall b | 0 <= b < |v.sigma| ensures v.sigma[b] == 0 {
      assert b in Below(|v.sigma|);
      assert b in Zeros(v.sigma);
    }
  }

  /** A counter above zero means that some block is in use. */
  lemma CountedIsBusy(k: Setup, v: View, m: nat)
    requires Inv(k, v) && m < |k.scope| && v.sigma[m] > 0
    ensures exists b :: 0 <= b < |v.inuse| && v.inuse[b]
  {
    var b :| b in Near(v.inuse, k.scope, m);
  }

  lemma HotNearbyIsBusy(k: Setup, v: View, m: nat)
    requires Inv(k, v) && m < |k.scope| && v.sigmaHot[m] != 0
    ensures exists b :: 0 <= b < |v.inuse| && v.inuse[b]
  {
    var b :| b in Near(v.hot, k.scope, m);
    CountedIsBusy(k, v, b);
  }

  /** Every block in use is isolated. */
  ghost predicate Idle(k: Setup, v: View)
    requires |v.inuse| == |k.scope|
  {
    forall b :: 0 <= b < |k.scope| && v.inuse[b] ==> k.scope[b] == []
  }

  /** What the stop test reads off the counter. */
  lemma ZeroCountIsIdle(k: Setup, v: View)
    requires WellSet(k) && Inv(k, v)
    ensures v.numSigmaZero == |k.scope| <==> Idle(k, v)
  {
    ScopesAreSymmetric(k.p, k.scope);
    if v.numSigmaZero == |k.scope| {
      ZeroEverywhere(v);
      forall b | 0 <= b < |k.scope| && v.inuse[b] ensures k.scope[b] == [] {
        if k.scope[b] != [] {
          var c := k.scope[b][0];
          assert c in k.scope[b];
          NearHas(v.inuse, k.scope, c, b);
        }
      }
    }
    if Idle(k, v) {
      forall m | 0 <= m < |k.scope| ensures v.sigma[m] == 0 {
        assert Near(v.inuse, k.scope, m) == {};
      }
      assert Zeros(v.sigma) == Below(|k.scope|);
    }
  }

  /** The test that ends the search is exact: when it succeeds, the search really
      is finished if and only if no isolated block is in use. */
  lemma StopTestIsExact(k: Setup, v: View)
    requires WellSet(k) && Inv(k, v) && v.numSigmaZero == |k.scope| && v.free == []
    ensures Finished(k, v) <==> forall b :: 0 <= b < |k.scope| && k.scope[b] == [] ==> !v.inuse[b]
  {
    ZeroEverywhere(v);
    ZeroCountIsIdle(k, v);
    if forall b :: 0 <= b < |k.scope| && k.scope[b] == [] ==> !v.inuse[b] {
      forall b | 0 <= b < |k.scope| ensures !v.inuse[b] && !v.hot[b] && NotWorthIt(k, v, b) {
        forall m | 0 <= m < |k.scope| ensures v.sigmaHot[m] == 0 {
          assert Near(v.hot, k.scope, m) == {};
        }
      }
    }
  }

  /** Why isolated blocks matter: a single block without neighbours is in use,
      yet the stop test succeeds. */
  lemma IsolatedBlockIsMissed() returns (k: Setup, v: View)
    ensures WellSet(k) && Inv(k, v) && v.numSigmaZero == |k.scope| && v.free == [] && !Finished(k, v)
  {
    k := Setup(Projection([[]], [[]]), [[]], (f, b) => f >= b);
    var start := View([0], [0], [false], [false], [Some(3)], [0], 1, 10, false, [None]);
    assert Initial(k, start, 0, 3);
    hide Inv;
    InitialOk(k, start, 0, 3);
    AcquireKeepsInv(k, start, 0, 0);
    v := Acquire(k, start, 0, 0);
    assert v == start.(inuse := [true], free := [], held := [Some(0)]);
  }

  // ---------- the free list as a sequence ----------

  function Without(xs: seq<nat>, m: nat): seq<nat> {
    if xs == [] then []
    else if xs[0] == m then xs[1..]
    else [xs[0]] + Without(xs[1..], m)
  }

  lemma {:induction false} WithoutOk(xs: seq<nat>, m: nat)
    requires NoDuplicates(xs)
    ensures NoDuplicates(Without(xs, m))
    ensures forall x :: x in Without(xs, m) <==> x in xs && x != m
  {
    if xs != [] {
      WithoutOk(xs[1..], m);
      assert xs == [xs[0]] + xs[1..];
      assert xs[0] !in xs[1..];
    }
  }

  function AddIfFree(v: View, m: nat): View
    requires m < |v.inuse| == |v.sigma| == |v.sigmaHot| == |v.best|
  {
    if IsFree(v, m) then v.(free := v.free + [m]) else v
  }

  function DropIfFree(v: View, m: nat): View
    requires m < |v.inuse| == |v.sigma| == |v.sigmaHot| == |v.best|
  {
    if IsFree(v, m) && m in v.free then v.(free := Without(v.free, m)) else v
  }

  lemma AddKeepsFreeList(k: Setup, v: View, m: nat, exempt: set<nat>)
    requires Sizes(|k.scope|, v) && m < |k.scope| && m !in v.free && FreeListOk(k, v, exempt + {m})
    ensures FreeListOk(k, AddIfFree(v, m), exempt)
    ensures forall b :: b in v.free ==> b in AddIfFree(v, m).free
    ensures forall b :: b in AddIfFree(v, m).free ==> b in v.free || b == m
  {
  }

  lemma DropKeepsFreeList(k: Setup, v: View, m: nat)
    requires Sizes(|k.scope|, v) && m < |k.scope| && FreeListOk(k, v, {})
    ensures FreeListOk(k, DropIfFree(v, m), {m})
    ensures forall b :: b in DropIfFree(v, m).free <==> b in v.free && b != m
  {
    WithoutOk(v.free, m);
  }

  /** A non-empty list has a block that no other beats. */
  lemma {:induction false} BestExists(best: seq<Option<nat>>, xs: seq<nat>) returns (b: nat)
    requires xs != [] && forall x :: x in xs ==> x < |best| && best[x].Some?
    ensures b in xs && forall x :: x in xs ==> best[b].value <= best[x].value
  {
    if |xs| == 1 {
      b := xs[0];
    } else {
      assert forall x :: x in xs[1..] ==> x in xs;
      var c := BestExists(best, xs[1..]);
      assert xs[0] in xs && c in xs;
      assert xs == [xs[0]] + xs[1..];
      b := if best[xs[0]].value <= best[c].value then xs[0] else c;
    }
  }

  /** b is in the free list, and no block in it has a better value. */
  ghost predicate Foremost(v: View, b: nat) {
    && b in v.free && b < |v.best| && v.best[b].Some?
    && forall c :: c in v.free ==> c < |v.best| && v.best[c].Some? && v.best[b].value <= v.best[c].value
  }

  /** The initial graph: one node in one block, which is free. */
  ghost predicate Initial(k: Setup, v: View, b: nat, f: nat) {
    && Sizes(|k.scope|, v) && b < |k.scope|
    && (forall c :: 0 <= c < |k.scope| ==>
          v.sigma[c] == 0 && v.sigmaHot[c] == 0 && !v.hot[c] && !v.inuse[c]
          && v.best[c] == if c == b then Some(f) else None)
    && v.free == [b] && v.numSigmaZero == |k.scope| && !v.done
    && forall w :: 0 <= w < |v.held| ==> v.held[w] == None
  }

  lemma InitialOk(k: Setup, v: View, b: nat, f: nat)
    requires WellSet(k) && Initial(k, v, b, f)
    ensures Inv(k, v)
  {
    NoFlagsCount(v.sigma, v.inuse, k.scope);
    NoFlagsCount(v.sigmaHot, v.hot, k.scope);
    hide Counts, WellSet, Zeros;
  }

  lemma NoFlagsCount(count: seq<int>, flags: seq<bool>, scope: seq<seq<nat>>)
    requires |count| == |flags| == |scope| && forall c :: 0 <= c < |scope| ==> count[c] == 0 && !flags[c]
    ensures Counts(count, flags, scope, {}, {}) && |Zeros(count)| == |scope|
  {
    forall m | 0 <= m < |scope| ensures Near(flags, scope, m) == {} {}
    assert Zeros(count) == Below(|scope|);
  }

  // ---------- going cold ----------

  function ColdOne(v: View, m: nat): View
    requires m < |v.inuse| == |v.sigma| == |v.sigmaHot| == |v.best|
  {
    AddIfFree(v.(sigmaHot := v.sigmaHot[m := v.sigmaHot[m] - 1]), m)
  }

  function ColdAll(v: View, xs: seq<nat>): (r: View)
    requires |v.inuse| == |v.sigma| == |v.sigmaHot| == |v.best| && InRange(xs, |v.inuse|)
    ensures r == v.(sigmaHot := r.sigmaHot, free := r.free) && |r.sigmaHot| == |v.sigmaHot|
  {
    if xs == [] then v else ColdOne(ColdAll(v, xs[..|xs| - 1]), xs[|xs| - 1])
  }

  /** b goes cold: every block in its scope has one hot neighbour less, and those
      that become free enter the free list. */
  function SetCold(v: View, b: nat, xs: seq<nat>): (r: View)
    requires |v.inuse| == |v.sigma| == |v.sigmaHot| == |v.best| == |v.hot| && InRange(xs, |v.inuse|) && b < |v.hot|
    ensures r == v.(hot := v.hot[b := false], sigmaHot := r.sigmaHot, free := r.free) && |r.sigmaHot| == |v.sigmaHot|
  {
    ColdAll(v.(hot := v.hot[b := false]), xs)
  }

  ghost predicate FreeGrows(v: View, r: View, xs: seq<nat>) {
    && (forall m :: m in v.free ==> m in r.free)
    && (forall m :: m in r.free ==> m in v.free || m in xs)
  }

  ghost predicate Scope(xs: seq<nat>, n: nat) {
    NoDuplicates(xs) && InRange(xs, n)
  }

  lemma Prefixes(xs: seq<nat>, i: nat, n: nat)
    requires Scope(xs, n) && i < |xs|
    ensures xs[..i + 1][..i] == xs[..i] && xs[..i + 1][i] == xs[i] && xs[i] < n
    ensures InRange(xs[..i], n) && InRange(xs[..i + 1], n) && xs[i] !in xs[..i] && xs[i] in xs[i..]
    ensures Elements(xs[i..]) == Elements(xs[i + 1..]) + {xs[i]}
  {
    assert xs[i..] == [xs[i]] + xs[i + 1..];
  }

  /** `rest` are the blocks whose hot counter is still to be raised on account of
      another hot block h; they are not free yet. */
  ghost predicate Rest(v: View, scope: seq<seq<nat>>, rest: set<nat>, h: nat)
    requires |v.hot| == |scope|
  {
    rest != {} ==> h < |scope| && v.hot[h] && rest <= Elements(scope[h])
  }

  lemma {:induction false} ColdAllOk(
      k: Setup, v: View, xs: seq<nat>, i: nat, rest: set<nat>, h: nat, exempt: set<nat>)
    requires Sizes(|k.scope|, v) && Scope(xs, |k.scope|) && i <= |xs| && InRange(xs[..i], |k.scope|)
    requires Counts(v.sigmaHot, v.hot, k.scope, rest, Elements(xs))
    requires Rest(v, k.scope, rest, h) && FreeListOk(k, v, exempt)
    ensures var c := ColdAll(v, xs[..i]);
            Sizes(|k.scope|, c) && Counts(c.sigmaHot, c.hot, k.scope, rest, Elements(xs[i..]))
            && FreeListOk(k, c, exempt) && FreeGrows(v, c, xs[..i])
  {
    if i == 0 {
      assert xs[i..] == xs && xs[..i] == [];
    } else {
      var j, m := i - 1, xs[i - 1];
      Prefixes(xs, j, |k.scope|);
      ColdAllOk(k, v, xs, j, rest, h, exempt);
      var d := ColdAll(v, xs[..j]);
      if m in rest { NearHas(d.hot, k.scope, m, h); }
      assert d.sigmaHot[m] >= 1 by { assert m in Elements(xs[j..]); }
      CountDown(d.sigmaHot, d.hot, k.scope, xs, j, rest);
      ColdStep(k, d, m, exempt);
      assert xs[..i] == xs[..j] + [m];
    }
  }

  /** Lowering a positive hot counter can only free the block itself. */
  lemma ColdStep(k: Setup, v: View, m: nat, exempt: set<nat>)
    requires Sizes(|k.scope|, v) && m < |k.scope| && v.sigmaHot[m] >= 1 && FreeListOk(k, v, exempt)
    ensures FreeListOk(k, ColdOne(v, m), exempt) && FreeGrows(v, ColdOne(v, m), [m])
  {
    AddKeepsFreeList(k, v.(sigmaHot := v.sigmaHot[m := v.sigmaHot[m] - 1]), m, exempt);
  }

  lemma SetColdOk(k: Setup, v: View, b: nat, rest: set<nat>, h: nat, exempt: set<nat>)
    requires Sizes(|k.scope|, v) && b < |k.scope| && v.hot[b] && b !in k.scope[b] && Scope(k.scope[b], |k.scope|)
    requires Counts(v.sigmaHot, v.hot, k.scope, rest, {}) && Rest(v, k.scope, rest, h) && h != b
    requires FreeListOk(k, v, exempt)
    ensures var c := SetCold(v, b, k.scope[b]);
            Sizes(|k.scope|, c) && Counts(c.sigmaHot, c.hot, k.scope, rest, {})
            && FreeListOk(k, c, exempt) && FreeGrows(v, c, k.scope[b])
  {
    var xs := k.scope[b];
    var d := v.(hot := v.hot[b := false]);
    LowerFlag(v.sigmaHot, v.hot, k.scope, b, rest);
    assert FreeListOk(k, d, exempt);
    assert xs[..|xs|] == xs && xs[|xs|..] == [];
    ColdAllOk(k, d, xs, |xs|, rest, h, exempt);
  }

  // ---------- blocks entering and leaving use ----------

  ghost predicate HasScopes(k: Setup, v: View) {
    Sizes(|k.scope|, v) && forall b :: 0 <= b < |k.scope| ==> Scope(k.scope[b], |k.scope|) && b !in k.scope[b]
  }

  /** The effect of one block's counter moving by delta. */
  function Touch(k: Setup, v: View, m: nat, delta: int): (r: View)
    requires m < |k.scope| && HasScopes(k, v)
    ensures r == v.(sigma := v.sigma[m := v.sigma[m] + delta], sigmaHot := r.sigmaHot, hot := r.hot,
                    free := r.free, numSigmaZero := r.numSigmaZero)
    ensures HasScopes(k, r)
  {
    var w := if v.sigma[m] == 0 then DropIfFree(v, m).(numSigmaZero := v.numSigmaZero - 1) else v;
    var x := w.(sigma := w.sigma[m := w.sigma[m] + delta]);
    if x.sigma[m] != 0 then x
    else
      var y := if x.hot[m] then SetCold(x, m, k.scope[m]) else x;
      var z := AddIfFree(y, m);
      z.(numSigmaZero := z.numSigmaZero + 1)
  }

  function TouchAll(k: Setup, v: View, xs: seq<nat>, delta: int): (r: View)
    requires HasScopes(k, v) && InRange(xs, |k.scope|)
    ensures r == v.(sigma := r.sigma, sigmaHot := r.sigmaHot, hot := r.hot, free := r.free,
                    numSigmaZero := r.numSigmaZero)
    ensures HasScopes(k, r)
  {
    if xs == [] then v else Touch(k, TouchAll(k, v, xs[..|xs| - 1], delta), xs[|xs| - 1], delta)
  }

  /** What holds at every iteration of the scheduler's loops; `up` and `down` are
      the blocks whose use counter is still to move. */
  ghost predicate Steady(k: Setup, v: View, up: set<nat>, down: set<nat>) {
    && HasScopes(k, v)
    && Counts(v.sigma, v.inuse, k.scope, up, down)
    && Counts(v.sigmaHot, v.hot, k.scope, {}, {})
    && v.numSigmaZero == |Zeros(v.sigma)|
    && FreeListOk(k, v, {}) && HotIsBusy(v, {})
  }

  /** A block about to become busy leaves the free list first. */
  lemma RaiseStep(k: Setup, v: View, m: nat)
    requires m < |k.scope| && HasScopes(k, v) && v.sigma[m] >= 0 && FreeListOk(k, v, {}) && HotIsBusy(v, {})
    ensures var r := Touch(k, v, m, 1);
            && FreeListOk(k, r, {}) && HotIsBusy(r, {}) && r.hot == v.hot && r.sigmaHot == v.sigmaHot
            && r.numSigmaZero == v.numSigmaZero - One(v.sigma[m] == 0)
            && forall b :: b in r.free <==> b in v.free && b != m
  {
    DropKeepsFreeList(k, v, m);
    var w := if v.sigma[m] == 0 then DropIfFree(v, m) else v;
    BusyIsNotFree(k, w, m);
  }

  lemma BusyIsNotFree(k: Setup, w: View, m: nat)
    requires Sizes(|k.scope|, w) && m < |k.scope| && m !in w.free && w.sigma[m] >= 0
    requires FreeListOk(k, w, {m}) && HotIsBusy(w, {})
    ensures FreeListOk(k, w.(sigma := w.sigma[m := w.sigma[m] + 1]), {})
    ensures HotIsBusy(w.(sigma := w.sigma[m := w.sigma[m] + 1]), {})
  {
  }

  lemma RaisedIsNotNegative(k: Setup, v: View, n: nat, up: set<nat>, m: nat)
    requires n < |k.scope| && m < |k.scope| && m in k.scope[n] && m in up
    requires Counts(v.sigma, v.inuse, k.scope, up, {}) && v.inuse[n]
    ensures v.sigma[m] >= 0
  {
    NearHas(v.inuse, k.scope, m, n);
  }

  lemma RaiseOk(k: Setup, v: View, n: nat, i: nat)
    requires n < |k.scope| && HasScopes(k, v) && i < |k.scope[n]| && v.inuse[n]
    requires Steady(k, v, Elements(k.scope[n][i..]), {})
    ensures k.scope[n][i] < |k.scope|
    ensures var r := Touch(k, v, k.scope[n][i], 1);
            && Steady(k, r, Elements(k.scope[n][i + 1..]), {})
            && r.sigma[k.scope[n][i]] > 0 && r.hot == v.hot
            && forall b :: b in r.free <==> b in v.free && b != k.scope[n][i]
  {
    hide Counts, FreeListOk, HotIsBusy;
    var xs := k.scope[n];
    var m := xs[i];
    Prefixes(xs, i, |k.scope|);
    assert m in k.scope[n];
    assert m in Elements(xs[i..]);
    RaisedIsNotNegative(k, v, n, Elements(xs[i..]), m);
    CountUp(v.sigma, v.inuse, k.scope, xs, i, {});
    ZerosChange(v.sigma, m, v.sigma[m] + 1);
    RaiseStep(k, v, m);
  }

  lemma LowerOk(k: Setup, v: View, n: nat, i: nat)
    requires n < |k.scope| && HasScopes(k, v) && i < |k.scope[n]|
    requires Steady(k, v, {}, Elements(k.scope[n][i..]))
    ensures k.scope[n][i] < |k.scope| && v.sigma[k.scope[n][i]] > 0
    ensures var m := k.scope[n][i];
            var r := Touch(k, v, m, -1);
            && Steady(k, r, {}, Elements(k.scope[n][i + 1..]))
            && r.hot == v.hot[m := v.hot[m] && r.sigma[m] > 0]
            && forall b :: b in v.free ==> b in r.free
  {
    var xs := k.scope[n];
    var m := xs[i];
    Prefixes(xs, i, |k.scope|);
    assert v.sigma[m] >= 1 by { assert m in Elements(xs[i..]); }
    CountDown(v.sigma, v.inuse, k.scope, xs, i, {});
    ZerosChange(v.sigma, m, v.sigma[m] - 1);
    ReleaseStep(k, v, m);
  }

  /** A block whose last busy neighbour leaves goes cold and may become free. */
  lemma ReleaseStep(k: Setup, v: View, m: nat)
    requires m < |k.scope| && HasScopes(k, v) && v.sigma[m] >= 1 && FreeListOk(k, v, {}) && HotIsBusy(v, {})
    requires Counts(v.sigmaHot, v.hot, k.scope, {}, {})
    ensures var r := Touch(k, v, m, -1);
            && FreeListOk(k, r, {}) && HotIsBusy(r, {}) && Counts(r.sigmaHot, r.hot, k.scope, {}, {})
            && r.numSigmaZero == v.numSigmaZero + One(r.sigma[m] == 0)
            && r.hot == v.hot[m := v.hot[m] && r.sigma[m] > 0]
            && forall b :: b in v.free ==> b in r.free
  {
    hide Counts;
    var x := v.(sigma := v.sigma[m := v.sigma[m] - 1]);
    LowerStep(k, v, m);
    if x.sigma[m] == 0 {
      var y := LastRelease(k, x, m);
      assert Touch(k, v, m, -1) == AddIfFree(y, m).(numSigmaZero := v.numSigmaZero + 1);
    } else {
      assert Touch(k, v, m, -1) == x;
    }
  }

  lemma LastRelease(k: Setup, x: View, m: nat) returns (y: View)
    requires m < |k.scope| && HasScopes(k, x) && m !in x.free && FreeListOk(k, x, {m}) && HotIsBusy(x, {m})
    requires Counts(x.sigmaHot, x.hot, k.scope, {}, {})
    ensures y == if x.hot[m] then SetCold(x, m, k.scope[m]) else x
    ensures Sizes(|k.scope|, y) && FreeListOk(k, AddIfFree(y, m), {}) && HotIsBusy(y, {})
    ensures Counts(y.sigmaHot, y.hot, k.scope, {}, {}) && y.hot == x.hot[m := false]
    ensures forall b :: b in x.free ==> b in AddIfFree(y, m).free
  {
    y := if x.hot[m] then SetCold(x, m, k.scope[m]) else x;
    if x.hot[m] {
      SetColdOk(k, x, m, {}, |k.scope|, {m});
    } else {
      assert x.hot == x.hot[m := false];
    }
    AddKeepsFreeList(k, y, m, {});
    HotIsBusyWithout(x, y, m);
  }

  lemma HotIsBusyWithout(x: View, y: View, m: nat)
    requires |x.hot| == |x.sigma| && m < |x.hot| && HotIsBusy(x, {m})
    requires y.hot == x.hot[m := false] && y.sigma == x.sigma
    ensures HotIsBusy(y, {})
  {
  }

  /** Lowering a positive use counter can only free the block itself. */
  lemma LowerStep(k: Setup, v: View, m: nat)
    requires Sizes(|k.scope|, v) && m < |k.scope| && FreeListOk(k, v, {}) && HotIsBusy(v, {}) && v.sigma[m] >= 1
    ensures m !in v.free
    ensures var x := v.(sigma := v.sigma[m := v.sigma[m] - 1]);
            && FreeListOk(k, x, {m}) && HotIsBusy(x, {m})
            && (x.sigma[m] > 0 ==> FreeListOk(k, x, {}) && HotIsBusy(x, {}))
  {
  }

  lemma {:induction false} RaiseAllOk(k: Setup, v: View, n: nat, i: nat)
    requires n < |k.scope| && HasScopes(k, v) && i <= |k.scope[n]| && v.inuse[n]
    requires Steady(k, v, Elements(k.scope[n]), {})
    ensures InRange(k.scope[n][..i], |k.scope|)
    ensures var r := TouchAll(k, v, k.scope[n][..i], 1);
            && Steady(k, r, Elements(k.scope[n][i..]), {})
            && r.hot == v.hot && forall b :: b in r.free <==> b in v.free && b !in k.scope[n][..i]
  {
    hide Counts, FreeListOk, HotIsBusy, Touch;
    var xs := k.scope[n];
    if i == 0 {
      assert xs[0..] == xs;
    } else {
      Prefixes(xs, i - 1, |k.scope|);
      RaiseAllOk(k, v, n, i - 1);
      RaiseOk(k, TouchAll(k, v, xs[..i - 1], 1), n, i - 1);
      assert xs[..i] == xs[..i - 1] + [xs[i - 1]];
    }
  }

  lemma HotMeansBusy(v: View)
    requires |v.hot| == |v.sigma| && HotIsBusy(v, {})
    ensures forall b :: 0 <= b < |v.hot| && v.hot[b] ==> v.sigma[b] > 0
  {
  }

  lemma {:induction false} LowerAllOk(k: Setup, v: View, n: nat, i: nat)
    requires n < |k.scope| && HasScopes(k, v) && i <= |k.scope[n]|
    requires Steady(k, v, {}, Elements(k.scope[n]))
    ensures InRange(k.scope[n][..i], |k.scope|)
    ensures var r := TouchAll(k, v, k.scope[n][..i], -1);
            && Steady(k, r, {}, Elements(k.scope[n][i..]))
            && (forall b :: b in v.free ==> b in r.free)
            && (forall b :: 0 <= b < |k.scope| ==> (r.hot[b] <==> v.hot[b] && r.sigma[b] > 0))
  {
    hide Counts, FreeListOk, HotIsBusy, Touch;
    var xs := k.scope[n];
    if i == 0 {
      assert xs[0..] == xs;
      HotMeansBusy(v);
    } else {
      Prefixes(xs, i - 1, |k.scope|);
      LowerAllOk(k, v, n, i - 1);
      LowerOk(k, TouchAll(k, v, xs[..i - 1], -1), n, i - 1);
      assert xs[..i] == xs[..i - 1] + [xs[i - 1]];
    }
  }

  // ---------- going hot ----------

  function ShadeOne(k: Setup, v: View, m: nat): (r: View)
    requires m < |k.scope| && HasScopes(k, v)
    ensures r == v.(sigmaHot := r.sigmaHot, hot := v.hot[m := false], free := r.free) && HasScopes(k, r)
  {
    var w := DropIfFree(v, m);
    var x := if w.hot[m] then SetCold(w, m, k.scope[m]) else w;
    x.(sigmaHot := x.sigmaHot[m := x.sigmaHot[m] + 1])
  }

  function ShadeAll(k: Setup, v: View, xs: seq<nat>): (r: View)
    requires HasScopes(k, v) && InRange(xs, |k.scope|)
    ensures r == v.(sigmaHot := r.sigmaHot, hot := r.hot, free := r.free) && HasScopes(k, r)
  {
    if xs == [] then v else ShadeOne(k, ShadeAll(k, v, xs[..|xs| - 1]), xs[|xs| - 1])
  }

  /** b goes hot: it shadows every block in its scope, and hot blocks there go cold. */
  function SetHot(k: Setup, v: View, b: nat): (r: View)
    requires b < |k.scope| && HasScopes(k, v)
    ensures r == v.(sigmaHot := r.sigmaHot, hot := r.hot, free := r.free) && HasScopes(k, r)
  {
    ShadeAll(k, v.(hot := v.hot[b := true]), k.scope[b])
  }

  ghost predicate Shading(k: Setup, v: View, b: nat, i: nat)
    requires b < |k.scope| && HasScopes(k, v) && i <= |k.scope[b]|
  {
    && v.hot[b] && v.sigma[b] > 0
    && Counts(v.sigmaHot, v.hot, k.scope, Elements(k.scope[b][i..]), {})
    && FreeListOk(k, v, {}) && HotIsBusy(v, {})
  }

  lemma ShadeOk(k: Setup, v: View, b: nat, i: nat)
    requires b < |k.scope| && HasScopes(k, v) && i < |k.scope[b]| && Shading(k, v, b, i)
    ensures k.scope[b][i] < |k.scope| && k.scope[b][i] != b
    ensures Shading(k, ShadeOne(k, v, k.scope[b][i]), b, i + 1)
  {
    var xs := k.scope[b];
    var m := xs[i];
    Prefixes(xs, i, |k.scope|);
    assert m in k.scope[b];
    var x := ShadeCold(k, v, b, xs[i..], m);
    NearHas(x.hot, k.scope, m, b);
    CountUp(x.sigmaHot, x.hot, k.scope, xs, i, {});
    assert x.sigmaHot[m] >= 0 by { assert m in Elements(xs[i..]); }
    ShadedIsNotFree(k, x, m);
  }

  /** The part of one shading step before the counter rises. */
  lemma ShadeCold(k: Setup, v: View, b: nat, ys: seq<nat>, m: nat) returns (x: View)
    requires b < |k.scope| && m < |k.scope| && m != b && HasScopes(k, v) && v.hot[b]
    requires Elements(ys) <= Elements(k.scope[b])
    requires Counts(v.sigmaHot, v.hot, k.scope, Elements(ys), {}) && FreeListOk(k, v, {}) && HotIsBusy(v, {})
    ensures Sizes(|k.scope|, x) && x.sigma == v.sigma && x.inuse == v.inuse && x.hot == v.hot[m := false]
    ensures ShadeOne(k, v, m) == x.(sigmaHot := x.sigmaHot[m := x.sigmaHot[m] + 1])
    ensures m !in x.free && FreeListOk(k, x, {m}) && HotIsBusy(x, {})
    ensures Counts(x.sigmaHot, x.hot, k.scope, Elements(ys), {})
  {
    hide Counts, FreeListOk, IsFree;
    var w := DropIfFree(v, m);
    DropKeepsFreeList(k, v, m);
    x := if w.hot[m] then SetCold(w, m, k.scope[m]) else w;
    if w.hot[m] {
      assert Rest(w, k.scope, Elements(ys), b);
      SetColdOk(k, w, m, Elements(ys), b, {m});
    } else {
      assert w.hot == w.hot[m := false];
    }
  }

  lemma ShadedIsNotFree(k: Setup, x: View, m: nat)
    requires Sizes(|k.scope|, x) && m < |k.scope| && m !in x.free && x.sigmaHot[m] >= 0 && FreeListOk(k, x, {m})
    ensures FreeListOk(k, x.(sigmaHot := x.sigmaHot[m := x.sigmaHot[m] + 1]), {})
  {
  }

  lemma {:induction false} ShadeAllOk(k: Setup, v: View, b: nat, i: nat)
    requires b < |k.scope| && HasScopes(k, v) && i <= |k.scope[b]| && Shading(k, v, b, 0)
    ensures InRange(k.scope[b][..i], |k.scope|)
    ensures var r := ShadeAll(k, v, k.scope[b][..i]);
            && Shading(k, r, b, i)
            && forall c :: 0 <= c < |k.scope| ==> (r.hot[c] <==> v.hot[c] && c !in k.scope[b][..i])
  {
    hide Counts, FreeListOk, HotIsBusy, ShadeOne;
    var xs := k.scope[b];
    if i > 0 {
      Prefixes(xs, i - 1, |k.scope|);
      ShadeAllOk(k, v, b, i - 1);
      var d := ShadeAll(k, v, xs[..i - 1]);
      ShadeOk(k, d, b, i - 1);
      assert ShadeAll(k, v, xs[..i]) == ShadeOne(k, d, xs[i - 1]);
      assert xs[..i] == xs[..i - 1] + [xs[i - 1]];
    }
  }

  // ---------- the critical sections ----------

  lemma ScopesOf(k: Setup, v: View)
    requires WellSet(k) && Sizes(|k.scope|, v)
    ensures HasScopes(k, v) && Symmetric(k.scope)
  {
    ScopesAreSymmetric(k.p, k.scope);
  }

  function Release(k: Setup, v: View, w: nat, b: nat): View
    requires HasScopes(k, v) && b < |k.scope| && w < |v.held|
  {
    var given := v.(inuse := v.inuse[b := false], held := v.held[w := None]);
    TouchAll(k, AddIfFree(given, b), k.scope[b], -1)
  }

  function Acquire(k: Setup, v: View, w: nat, b: nat): View
    requires HasScopes(k, v) && b < |k.scope| && w < |v.held|
  {
    var taken := v.(free := Without(v.free, b), inuse := v.inuse[b := true], held := v.held[w := Some(b)]);
    TouchAll(k, taken, k.scope[b], 1)
  }

  lemma UnusedNeighbours(k: Setup, v: View, b: nat)
    requires Symmetric(k.scope) && |v.inuse| == |k.scope| && b < |k.scope| && Apart(v.inuse, k.scope) && v.inuse[b]
    ensures Near(v.inuse, k.scope, b) == {}
  {
  }

  /** Giving a block back, before the counters of its scope are lowered. */
  lemma GivenIsSteady(k: Setup, v: View, given: View, b: nat)
    requires HasScopes(k, v) && Symmetric(k.scope) && b < |k.scope| && v.inuse[b] && Apart(v.inuse, k.scope)
    requires Steady(k, v, {}, {})
    requires given == v.(inuse := v.inuse[b := false], held := given.held)
    ensures Steady(k, AddIfFree(given, b), {}, Elements(k.scope[b])) && v.sigma[b] == 0
  {
    UnusedNeighbours(k, v, b);
    LowerFlag(v.sigma, v.inuse, k.scope, b, {});
    assert b !in given.free;
    FreeListFrame(k, v, given, b);
    AddKeepsFreeList(k, given, b, {});
  }

  lemma FreeListFrame(k: Setup, v: View, r: View, b: nat)
    requires Sizes(|k.scope|, v) && Sizes(|k.scope|, r) && b < |k.scope| && FreeListOk(k, v, {}) && b !in v.free
    requires r.free == v.free && r.best == v.best && r.bound == v.bound
    requires forall c :: 0 <= c < |k.scope| && c != b ==> IsFree(r, c) == IsFree(v, c)
    ensures FreeListOk(k, r, {b})
  {
  }

  lemma ApartShrinks(flags: seq<bool>, less: seq<bool>, scope: seq<seq<nat>>)
    requires |flags| == |less| == |scope| && Apart(flags, scope)
    requires forall c :: 0 <= c < |less| && less[c] ==> flags[c]
    ensures Apart(less, scope)
  {
  }

  lemma ReleaseKeepsInv(k: Setup, v: View, w: nat, b: nat)
    requires WellSet(k) && Inv(k, v) && w < |v.held| && v.held[w] == Some(b)
    ensures HasScopes(k, v) && b < |k.scope|
    ensures Inv(k, Release(k, v, w, b)) && v.sigma[b] == 0
    ensures forall c :: 0 <= c < |k.scope| ==>
              (Release(k, v, w, b).hot[c] <==> v.hot[c] && Release(k, v, w, b).sigma[c] > 0)
  {
    ApartShrinks(v.inuse, v.inuse[b := false], k.scope);
    ScopesOf(k, v);
    var given := v.(inuse := v.inuse[b := false], held := v.held[w := None]);
    GivenIsSteady(k, v, given, b);
    var r := LoweredIsSteady(k, AddIfFree(given, b), b);
    ApartShrinks(v.hot, r.hot, k.scope);
    HeldAfterRelease(v, r, w, b);
    assert !Finished(k, v);
  }

  lemma LoweredIsSteady(k: Setup, v: View, b: nat) returns (r: View)
    requires b < |k.scope| && Steady(k, v, {}, Elements(k.scope[b]))
    ensures r == TouchAll(k, v, k.scope[b], -1) && Steady(k, r, {}, {})
    ensures forall c :: 0 <= c < |k.scope| ==> (r.hot[c] <==> v.hot[c] && r.sigma[c] > 0)
  {
    var xs := k.scope[b];
    assert xs[..|xs|] == xs && Elements(xs[|xs|..]) == {};
    LowerAllOk(k, v, b, |xs|);
    r := TouchAll(k, v, xs, -1);
  }

  lemma HeldAfterRelease(v: View, r: View, w: nat, b: nat)
    requires HeldOk(v) && w < |v.held| && v.held[w] == Some(b) && b < |v.inuse|
    requires r.held == v.held[w := None] && r.inuse == v.inuse[b := false]
    ensures HeldOk(r)
  {
    forall x | 0 <= x < |r.held| && r.held[x].Some?
      ensures r.held[x].value < |r.inuse| && r.inuse[r.held[x].value]
    {
      assert v.held[x] == r.held[x] && (x < w || w < x);
    }
    forall c | 0 <= c < |r.inuse| && r.inuse[c] ensures Some(c) in r.held {
      var x :| 0 <= x < |v.held| && v.held[x] == Some(c);
      assert r.held[x] == Some(c);
    }
  }

  /** Taking a free block, before the counters of its scope are raised. */
  lemma TakenIsSteady(k: Setup, v: View, taken: View, b: nat)
    requires HasScopes(k, v) && Symmetric(k.scope) && b in v.free && Apart(v.inuse, k.scope)
    requires Steady(k, v, {}, {}) && b < |k.scope|
    requires taken == v.(free := Without(v.free, b), inuse := v.inuse[b := true], held := taken.held)
    ensures Steady(k, taken, Elements(k.scope[b]), {}) && Apart(taken.inuse, k.scope)
  {
    WithoutOk(v.free, b);
    NearIsEmpty(v.inuse, k.scope, b);
    RaiseFlag(v.sigma, v.inuse, k.scope, b, {});
    TakenFreeList(k, v, taken, b);
  }

  lemma TakenFreeList(k: Setup, v: View, taken: View, b: nat)
    requires Sizes(|k.scope|, v) && b < |k.scope| && FreeListOk(k, v, {}) && NoDuplicates(taken.free)
    requires taken == v.(free := taken.free, inuse := v.inuse[b := true], held := taken.held)
    requires forall c :: c in taken.free <==> c in v.free && c != b
    ensures FreeListOk(k, taken, {})
  {
  }

  lemma AcquireKeepsInv(k: Setup, v: View, w: nat, b: nat)
    requires WellSet(k) && Inv(k, v) && w < |v.held| && v.held[w] == None && b in v.free && !v.done
    ensures HasScopes(k, v) && b < |k.scope|
    ensures Inv(k, Acquire(k, v, w, b)) && Acquire(k, v, w, b).hot == v.hot
    ensures forall c :: c in Acquire(k, v, w, b).free <==> c in v.free && c != b && c !in k.scope[b]
  {
    ScopesOf(k, v);
    WithoutOk(v.free, b);
    var taken := v.(free := Without(v.free, b), inuse := v.inuse[b := true], held := v.held[w := Some(b)]);
    TakenIsSteady(k, v, taken, b);
    var xs := k.scope[b];
    assert xs[..|xs|] == xs && Elements(xs[|xs|..]) == {};
    RaiseAllOk(k, taken, b, |xs|);
    HeldAfterAcquire(v, taken, w, b);
  }

  lemma HeldAfterAcquire(v: View, r: View, w: nat, b: nat)
    requires HeldOk(v) && w < |v.held| && v.held[w] == None && b < |v.inuse| && !v.inuse[b]
    requires r.held == v.held[w := Some(b)] && r.inuse == v.inuse[b := true]
    ensures HeldOk(r)
  {
    forall c | 0 <= c < |r.inuse| && r.inuse[c] ensures Some(c) in r.held {
      if c != b {
        var x :| 0 <= x < |v.held| && v.held[x] == Some(c);
        assert r.held[x] == Some(c);
      } else {
        assert r.held[w] == Some(c);
      }
    }
  }

  /** Pruning is sound once the front of the list is not worth searching. */
  lemma PruneKeepsInv(k: Setup, v: View, front: nat)
    requires WellSet(k) && Inv(k, v) && Foremost(v, front) && k.prunes(v.best[front].value, v.bound)
    ensures Inv(k, v.(free := []))
  {
  }

  lemma StopKeepsInv(k: Setup, v: View)
    requires WellSet(k) && Inv(k, v) && v.numSigmaZero == |k.scope| && v.free == []
    ensures Inv(k, v.(done := true))
  {
    StopTestIsExact(k, v);
  }

  lemma HeatedIsShading(k: Setup, v: View, b: nat)
    requires HasScopes(k, v) && b < |k.scope| && !v.hot[b] && v.sigma[b] > 0 && Steady(k, v, {}, {})
    ensures Shading(k, v.(hot := v.hot[b := true]), b, 0)
  {
    RaiseFlag(v.sigmaHot, v.hot, k.scope, b, {});
    assert k.scope[b][0..] == k.scope[b];
  }

  lemma HotApart(scope: seq<seq<nat>>, hot: seq<bool>, r: seq<bool>, b: nat)
    requires Symmetric(scope) && |hot| == |r| == |scope| && b < |scope| && Apart(hot, scope)
    requires forall c :: 0 <= c < |scope| ==> (r[c] <==> c == b || (hot[c] && c !in scope[b]))
    ensures Apart(r, scope)
  {
  }

  /** Were the search over, no block could be busy enough to go hot. */
  lemma BusyMeansUnfinished(k: Setup, v: View, b: nat)
    requires Sizes(|k.scope|, v) && b < |k.scope| && Counts(v.sigma, v.inuse, k.scope, {}, {}) && v.sigma[b] > 0
    ensures !Finished(k, v)
  {
    var x :| x in Near(v.inuse, k.scope, b);
    assert v.inuse[x];
  }

  lemma SetHotKeepsInv(k: Setup, v: View, b: nat)
    requires WellSet(k) && Inv(k, v) && b < |k.scope| && !v.hot[b] && v.sigma[b] > 0
    ensures HasScopes(k, v) && Inv(k, SetHot(k, v, b))
    ensures forall c :: 0 <= c < |k.scope| ==>
              (SetHot(k, v, b).hot[c] <==> c == b || (v.hot[c] && c !in k.scope[b]))
  {
    ScopesOf(k, v);
    HeatedIsShading(k, v, b);
    BusyMeansUnfinished(k, v, b);
    var xs := k.scope[b];
    assert xs[..|xs|] == xs && Elements(xs[|xs|..]) == {};
    ShadeAllOk(k, v.(hot := v.hot[b := true]), b, |xs|);
    HotApart(k.scope, v.hot, SetHot(k, v, b).hot, b);
  }

  // ---------- a worker that keeps its block cools its scope ----------

  function CoolOne(k: Setup, v: View, m: nat): (r: View)
    requires m < |k.scope| && HasScopes(k, v)
    ensures r == v.(sigmaHot := r.sigmaHot, hot := v.hot[m := false], free := r.free) && HasScopes(k, r)
  {
    if v.hot[m] then SetCold(v, m, k.scope[m]) else v.(hot := v.hot[m := false])
  }

  function CoolAll(k: Setup, v: View, xs: seq<nat>): (r: View)
    requires HasScopes(k, v) && InRange(xs, |k.scope|)
    ensures r == v.(sigmaHot := r.sigmaHot, hot := r.hot, free := r.free) && HasScopes(k, r)
  {
    if xs == [] then v else CoolOne(k, CoolAll(k, v, xs[..|xs| - 1]), xs[|xs| - 1])
  }

  lemma {:induction false} CoolAllKeepsInv(k: Setup, v: View, xs: seq<nat>)
    requires WellSet(k) && Inv(k, v) && HasScopes(k, v) && InRange(xs, |k.scope|)
    ensures Inv(k, CoolAll(k, v, xs))
    ensures forall c :: 0 <= c < |k.scope| ==> (CoolAll(k, v, xs).hot[c] <==> v.hot[c] && c !in xs)
  {
    if xs != [] {
      hide Inv, WellSet;
      var front, m := xs[..|xs| - 1], xs[|xs| - 1];
      CoolAllKeepsInv(k, v, front);
      var d := CoolAll(k, v, front);
      CoolOneKeepsInv(k, d, m);
      assert xs == front + [m];
    }
  }

  lemma CoolOneKeepsInv(k: Setup, v: View, m: nat)
    requires WellSet(k) && Inv(k, v) && HasScopes(k, v) && m < |k.scope|
    ensures Inv(k, CoolOne(k, v, m))
  {
    var r := CoolOne(k, v, m);
    if v.hot[m] {
      SetColdOk(k, v, m, {}, |k.scope|, {});
      assert Apart(r.hot, k.scope);
    } else {
      assert v.hot == v.hot[m := false];
    }
  }

  // ---------- the searching workers ----------

  /** A worker that holds b may change the open lists of b and of b's successors. */
  ghost predicate Searches(k: Setup, v: View, r: View, b: nat)
    requires b < |k.p.succs|
  {
    && r == v.(best := r.best) && |r.best| == |v.best|
    && forall c :: 0 <= c < |v.best| && !Touches(k.p, b, c) ==> r.best[c] == v.best[c]
  }

  lemma SearchKeepsInv(k: Setup, v: View, r: View, w: nat, b: nat)
    requires WellSet(k) && Inv(k, v) && w < |v.held| && v.held[w] == Some(b)
    requires b < |k.p.succs| && Searches(k, v, r, b)
    ensures Inv(k, r)
  {
    forall c | 0 <= c < |k.scope| ensures r.best[c] == v.best[c] || (!IsFree(v, c) && !IsFree(r, c) && c !in v.free) {
      if r.best[c] != v.best[c] { SearchTouchesNoFreeBlock(k, v, b, c); }
    }
  }

  lemma LowerBoundKeepsInv(k: Setup, v: View, bound: nat)
    requires WellSet(k) && Inv(k, v) && bound <= v.bound
    ensures Inv(k, v.(bound := bound))
  {
    var r := v.(bound := bound);
    assert forall b :: 0 <= b < |v.best| && NotWorthIt(k, v, b) ==> NotWorthIt(k, r, b);
  }
}
