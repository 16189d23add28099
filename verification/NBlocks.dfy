/** The abstract blocks of PBNF: which blocks interfere, and what the scheduler's
    counters have to say about the blocks in use. */
module NBlocks {
  import opened Graphs

  /** Successor and predecessor lists of the abstract state space. */
  datatype Projection = Projection(succs: seq<seq<nat>>, preds: seq<seq<nat>>)

  ghost predicate InRange(xs: seq<nat>, n: nat) {
    forall i :: 0 <= i < |xs| ==> xs[i] < n
  }

  ghost predicate WellFormed(p: Projection) {
    && |p.preds| == |p.succs|
    && (forall b :: 0 <= b < |p.succs| ==> InRange(p.succs[b], |p.succs|) && InRange(p.preds[b], |p.succs|))
    && (forall b, c :: 0 <= b < |p.succs| && 0 <= c < |p.succs| ==> (c in p.succs[b] <==> b in p.preds[c]))
  }

  /** c is a predecessor of b, a successor, or shares a successor with b. */
  ghost predicate Interferes(p: Projection, b: nat, c: nat)
    requires WellFormed(p) && b < |p.succs|
  {
    c != b && (c in p.preds[b] || c in p.succs[b] || exists d :: d in p.succs[b] && c in p.preds[d])
  }

  lemma InterferenceIsSymmetric(p: Projection, b: nat, c: nat)
    requires WellFormed(p) && b < |p.succs| && c < |p.succs|
    ensures Interferes(p, b, c) <==> Interferes(p, c, b)
  {
    forall d | d in p.succs[b] ensures c in p.preds[d] <==> d in p.succs[c] {}
    forall d | d in p.succs[c] ensures b in p.preds[d] <==> d in p.succs[b] {}
  }

  predicate NoDuplicates(xs: seq<nat>) {
    forall i, j :: 0 <= i < j < |xs| ==> xs[i] != xs[j]
  }

  /** `scope[b]` is the interference array of block b. */
  ghost predicate ScopesOk(p: Projection, scope: seq<seq<nat>>) {
    && WellFormed(p) && |scope| == |p.succs|
    && forall b :: 0 <= b < |scope| ==>
         NoDuplicates(scope[b]) && InRange(scope[b], |scope|)
         && forall c :: 0 <= c < |scope| ==> (c in scope[b] <==> Interferes(p, b, c))
  }

  /** What the counters need of the scopes: symmetric and irreflexive. */
  ghost predicate Symmetric(scope: seq<seq<nat>>) {
    && (forall b :: 0 <= b < |scope| ==> NoDuplicates(scope[b]) && InRange(scope[b], |scope|) && b !in scope[b])
    && (forall b, c :: 0 <= b < |scope| && 0 <= c < |scope| ==> (c in scope[b] <==> b in scope[c]))
  }

  lemma ScopesAreSymmetric(p: Projection, scope: seq<seq<nat>>)
    requires ScopesOk(p, scope)
    ensures Symmetric(scope)
  {
    forall b, c | 0 <= b < |scope| && 0 <= c < |scope| ensures c in scope[b] <==> b in scope[c] {
      InterferenceIsSymmetric(p, b, c);
    }
  }

  // ---------- counting ----------

  /** The flagged blocks in whose scope m lies. */
  ghost function Near(flags: seq<bool>, scope: seq<seq<nat>>, m: nat): set<nat>
    requires |flags| == |scope|
  {
    set x | 0 <= x < |flags| && flags[x] && m in scope[x]
  }

  ghost function One(c: bool): int { if c then 1 else 0 }

  /** The counters equal the number of flagged neighbours, except that blocks in
      `up` are still to be incremented and blocks in `down` still to be decremented. */
  ghost predicate Counts(count: seq<int>, flags: seq<bool>, scope: seq<seq<nat>>, up: set<nat>, down: set<nat>) {
    && |count| == |flags| == |scope|
    && forall m :: 0 <= m < |count| ==>
         count[m] == |Near(flags, scope, m)| - One(m in up) + One(m in down)
  }

  ghost function Elements(xs: seq<nat>): set<nat> {
    set x | x in xs
  }

  lemma RaiseFlag(count: seq<int>, flags: seq<bool>, scope: seq<seq<nat>>, n: nat, down: set<nat>)
    requires Counts(count, flags, scope, {}, down) && n < |flags| && !flags[n]
    ensures Counts(count, flags[n := true], scope, Elements(scope[n]), down)
  {
    forall m | 0 <= m < |count|
      ensures |Near(flags[n := true], scope, m)| == |Near(flags, scope, m)| + One(m in scope[n])
    {
      var before, after := Near(flags, scope, m), Near(flags[n := true], scope, m);
      assert after == if m in scope[n] then before + {n} else before;
    }
  }

  lemma LowerFlag(count: seq<int>, flags: seq<bool>, scope: seq<seq<nat>>, n: nat, up: set<nat>)
    requires Counts(count, flags, scope, up, {}) && n < |flags| && flags[n]
    ensures Counts(count, flags[n := false], scope, up, Elements(scope[n]))
  {
    forall m | 0 <= m < |count|
      ensures |Near(flags[n := false], scope, m)| == |Near(flags, scope, m)| - One(m in scope[n])
    {
      var before, after := Near(flags, scope, m), Near(flags[n := false], scope, m);
      assert before == if m in scope[n] then after + {n} else after;
    }
  }

  lemma CountUp(count: seq<int>, flags: seq<bool>, scope: seq<seq<nat>>, xs: seq<nat>, i: nat, down: set<nat>)
    requires i < |xs| && Counts(count, flags, scope, Elements(xs[i..]), down) && NoDuplicates(xs) && xs[i] < |count|
    ensures Counts(count[xs[i] := count[xs[i]] + 1], flags, scope, Elements(xs[i + 1..]), down)
  {
    assert xs[i..] == [xs[i]] + xs[i + 1..];
    assert xs[i] !in xs[i + 1..];
  }

  lemma CountDown(count: seq<int>, flags: seq<bool>, scope: seq<seq<nat>>, xs: seq<nat>, i: nat, up: set<nat>)
    requires i < |xs| && Counts(count, flags, scope, up, Elements(xs[i..])) && NoDuplicates(xs) && xs[i] < |count|
    ensures Counts(count[xs[i] := count[xs[i]] - 1], flags, scope, up, Elements(xs[i + 1..]))
  {
    assert xs[i..] == [xs[i]] + xs[i + 1..];
    assert xs[i] !in xs[i + 1..];
  }

  ghost function Zeros(count: seq<int>): set<nat> {
    set b | 0 <= b < |count| && count[b] == 0
  }

  lemma NearIsEmpty(flags: seq<bool>, scope: seq<seq<nat>>, m: nat)
    requires |flags| == |scope| && |Near(flags, scope, m)| == 0
    ensures forall x :: 0 <= x < |flags| && flags[x] ==> m !in scope[x]
  {
    assert forall x :: 0 <= x < |flags| && flags[x] && m in scope[x] ==> x in Near(flags, scope, m);
  }

  lemma NearHas(flags: seq<bool>, scope: seq<seq<nat>>, m: nat, x: nat)
    requires |flags| == |scope| && x < |flags| && flags[x] && m in scope[x]
    ensures |Near(flags, scope, m)| >= 1
  {
    assert x in Near(flags, scope, m);
  }

  lemma ZerosChange(count: seq<int>, m: nat, v: int)
    requires m < |count|
    ensures |Zeros(count[m := v])| == |Zeros(count)| - One(count[m] == 0) + One(v == 0)
  {
    var a, b := Zeros(count), Zeros(count[m := v]);
    assert a - {m} == b - {m};
    assert |a - {m}| == |a| - One(m in a);
    assert |b - {m}| == |b| - One(m in b);
  }
}
