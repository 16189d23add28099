/** Construction of a block's interference array. */
module NBlockScope {
  import opened Counting
  import opened NBlocks

  /** The blocks collected after the first i successors have been looked at. */
  ghost function Collected(p: Projection, id: nat, i: nat): set<nat>
    requires WellFormed(p) && id < |p.succs| && i <= |p.succs[id]|
  {
    if i == 0 then Elements(p.preds[id])
    else
      var s := p.succs[id][i - 1];
      Collected(p, id, i - 1) + {s} + Elements(p.preds[s])
  }

  /** The array length the constructor computes: one slot per successor and one
      per predecessor of a successor, but none for the block's own predecessors. */
  ghost function Slots(p: Projection, id: nat, i: nat): nat
    requires WellFormed(p) && id < |p.succs| && i <= |p.succs[id]|
  {
    if i == 0 then 0 else Slots(p, id, i - 1) + 1 + |p.preds[p.succs[id][i - 1]]|
  }

  /** The array is long enough. */
  ghost predicate Fits(p: Projection, id: nat)
    requires WellFormed(p) && id < |p.succs|
  {
    |Collected(p, id, |p.succs[id]|) - {id}| <= Slots(p, id, |p.succs[id]|)
  }

  lemma {:induction false} CollectedMeans(p: Projection, id: nat, i: nat)
    requires WellFormed(p) && id < |p.succs| && i <= |p.succs[id]|
    ensures forall c :: c in Collected(p, id, i) <==>
              c in p.preds[id] || exists j :: 0 <= j < i && (c == p.succs[id][j] || c in p.preds[p.succs[id][j]])
  {
    if i != 0 { CollectedMeans(p, id, i - 1); }
  }

  lemma CollectedIsScope(p: Projection, id: nat, c: nat)
    requires WellFormed(p) && id < |p.succs|
    ensures c in Collected(p, id, |p.succs[id]|) - {id} <==> Interferes(p, id, c)
  {
    var ss := p.succs[id];
    CollectedMeans(p, id, |ss|);
    if c in Collected(p, id, |ss|) && c != id && c !in p.preds[id] {
      var j :| 0 <= j < |ss| && (c == ss[j] || c in p.preds[ss[j]]);
      assert ss[j] in ss;
    }
    if Interferes(p, id, c) && c !in p.preds[id] && c !in ss {
      var d :| d in ss && c in p.preds[d];
      var j :| 0 <= j < |ss| && ss[j] == d;
    }
  }

  lemma {:induction false} ElementsAreFew(xs: seq<nat>)
    ensures |Elements(xs)| <= |xs|
  {
    if xs == [] {
      assert Elements(xs) == {};
    } else {
      ElementsAreFew(xs[1..]);
      assert xs == [xs[0]] + xs[1..];
      assert Elements(xs) == {xs[0]} + Elements(xs[1..]);
    }
  }

  /** The blocks that some successor accounts for: itself and its predecessors. */
  ghost function Reached(p: Projection, id: nat, i: nat): set<nat>
    requires WellFormed(p) && id < |p.succs| && i <= |p.succs[id]|
  {
    if i == 0 then {}
    else
      var s := p.succs[id][i - 1];
      Reached(p, id, i - 1) + {s} + Elements(p.preds[s])
  }

  lemma {:induction false} CollectedSplits(p: Projection, id: nat, i: nat)
    requires WellFormed(p) && id < |p.succs| && i <= |p.succs[id]|
    ensures Collected(p, id, i) == Elements(p.preds[id]) + Reached(p, id, i)
  {
    if i != 0 { CollectedSplits(p, id, i - 1); }
  }

  lemma OneMoreSuccessor(before: set<nat>, s: nat, own: set<nat>, id: nat)
    requires id in own
    ensures |before + {s} + own - {id}| <= |before - {id}| + |own|
  {
    var parts := (before - {id}) + {s} + (own - {id});
    SubsetIsSmaller(before + {s} + own - {id}, parts);
    assert own == (own - {id}) + {id};
  }

  /** A successor's predecessors include the block itself, which is not stored. */
  lemma {:induction false} ReachedLeavesSlots(p: Projection, id: nat, i: nat)
    requires WellFormed(p) && id < |p.succs| && i <= |p.succs[id]|
    ensures |Reached(p, id, i) - {id}| + i <= Slots(p, id, i)
  {
    if i != 0 {
      ReachedLeavesSlots(p, id, i - 1);
      var s := p.succs[id][i - 1];
      assert s in p.succs[id] && id in p.preds[s];
      var own := p.preds[s];
      assert Reached(p, id, i) == Reached(p, id, i - 1) + {s} + Elements(own);
      assert Slots(p, id, i) == Slots(p, id, i - 1) + 1 + |own|;
      assert id in Elements(own);
      hide WellFormed, Reached, Slots, Elements;
      ElementsAreFew(own);
      OneMoreSuccessor(Reached(p, id, i - 1), s, Elements(own), id);
    }
  }

  /** The block's predecessors for which the constructor reserves no slot. */
  ghost function Unreserved(p: Projection, id: nat): set<nat>
    requires WellFormed(p) && id < |p.succs|
  {
    Elements(p.preds[id]) - Reached(p, id, |p.succs[id]|) - {id}
  }

  /** The slots that stay empty because blocks were counted more than once, or
      because the block itself was counted. */
  ghost function Spare(p: Projection, id: nat): (n: nat)
    requires WellFormed(p) && id < |p.succs|
    ensures n >= |p.succs[id]|
  {
    ReachedLeavesSlots(p, id, |p.succs[id]|);
    Slots(p, id, |p.succs[id]|) - |Reached(p, id, |p.succs[id]|) - {id}|
  }

  /** The array is long enough exactly when the predecessors nobody reserved a slot
      for fit into the slots that are left over. */
  lemma FitsExactly(p: Projection, id: nat)
    requires WellFormed(p) && id < |p.succs|
    ensures Fits(p, id) <==> |Unreserved(p, id)| <= Spare(p, id)
  {
    var n := |p.succs[id]|;
    CollectedSplits(p, id, n);
    assert Collected(p, id, n) - {id} == Unreserved(p, id) + (Reached(p, id, n) - {id});
  }

  /** A block without successors has no slots, so it fits only without predecessors. */
  lemma SinkFitsExactly(p: Projection, id: nat)
    requires WellFormed(p) && id < |p.succs| && p.succs[id] == []
    ensures Fits(p, id) <==> p.preds[id] == []
  {
    FitsExactly(p, id);
    if p.preds[id] != [] {
      assert p.preds[id][0] in p.preds[id];
      assert id !in p.preds[id];
      assert p.preds[id][0] in Unreserved(p, id);
    }
  }

  /** A block with no more predecessors than successors never overruns the array. */
  lemma BalancedBlocksFit(p: Projection, id: nat)
    requires WellFormed(p) && id < |p.succs| && |p.preds[id]| <= |p.succs[id]|
    ensures Fits(p, id)
  {
    FitsExactly(p, id);
    ElementsAreFew(p.preds[id]);
    SubsetIsSmaller(Unreserved(p, id), Elements(p.preds[id]));
  }

  /** Every projection of the repository answers both questions with the same list
      of neighbours, so none of their blocks overruns the array. */
  lemma SharedListsFit(p: Projection, id: nat)
    requires WellFormed(p) && id < |p.succs| && p.preds == p.succs
    ensures Fits(p, id)
  {
    BalancedBlocksFit(p, id);
  }

  /** An asymmetric projection can overrun it: here the sink's only predecessor. */
  lemma SinkDoesNotFit() returns (p: Projection)
    ensures WellFormed(p) && |p.succs| == 2 && p.succs[1] == [] && !Fits(p, 1)
  {
    p := Projection([[1], []], [[], [0]]);
    SinkFitsExactly(p, 1);
  }

  /** The constructor: collect into an ordered set, then copy everything but the
      block itself. */
  method ComputeScope(p: Projection, id: nat) returns (interferes: array<nat>, ninterferes: nat)
    requires WellFormed(p) && id < |p.succs| && Fits(p, id)
    ensures ninterferes <= interferes.Length && NoDuplicates(interferes[..ninterferes])
    ensures forall c: nat :: c in interferes[..ninterferes] <==> Interferes(p, id, c)
  {
    var ids := set x | x in p.preds[id];
    var slots := 0;
    var succs := p.succs[id];
    var i := 0;
    while i < |succs|
      invariant 0 <= i <= |succs| && ids == Collected(p, id, i) && slots == Slots(p, id, i)
    {
      var spreds := p.preds[succs[i]];
      ids := ids + {succs[i]} + (set x | x in spreds);
      slots := slots + 1 + |spreds|;
      i := i + 1;
    }
    interferes := new nat[slots];
    ninterferes := CopyAscending(ids, id, interferes);
    forall c: nat ensures c in interferes[..ninterferes] <==> Interferes(p, id, c) {
      CollectedIsScope(p, id, c);
      assert c in interferes[..ninterferes] <==> c in Elements(interferes[..ninterferes]);
    }
  }

  lemma AppendNew(xs: seq<nat>, x: nat)
    requires NoDuplicates(xs) && x !in Elements(xs)
    ensures NoDuplicates(xs + [x]) && Elements(xs + [x]) == Elements(xs) + {x}
  {
    assert forall i :: 0 <= i < |xs| ==> xs[i] in Elements(xs);
  }

  /** One element moves from the set to the array. */
  lemma MoveOne(ids: set<nat>, rest: set<nat>, id: nat, k: nat)
    requires k in rest && rest <= ids
    ensures k == id ==> ids - (rest - {k}) - {id} == ids - rest - {id} && rest - {k} - {id} == rest - {id}
    ensures k != id ==> ids - (rest - {k}) - {id} == (ids - rest - {id}) + {k}
                        && |rest - {k} - {id}| + 1 == |rest - {id}|
  {
    if k != id { assert rest - {id} == (rest - {k} - {id}) + {k}; }
  }

  /** An ordered set is iterated from its least element upwards. */
  method CopyAscending(ids: set<nat>, id: nat, a: array<nat>) returns (next: nat)
    requires |ids - {id}| <= a.Length
    modifies a
    ensures next <= a.Length && NoDuplicates(a[..next]) && Elements(a[..next]) == ids - {id}
  {
    var rest := ids;
    next := 0;
    assert a[..0] == [];
    while rest != {}
      invariant rest <= ids && next + |rest - {id}| <= a.Length && NoDuplicates(a[..next])
      invariant Elements(a[..next]) == ids - rest - {id}
      decreases rest
    {
      var k := Least(rest);
      MoveOne(ids, rest, id, k);
      if k != id {
        next := Append(a, next, k);
      }
      rest := rest - {k};
    }
  }

  method Append(a: array<nat>, n: nat, k: nat) returns (next: nat)
    requires n < a.Length && NoDuplicates(a[..n]) && k !in Elements(a[..n])
    modifies a
    ensures next == n + 1 && NoDuplicates(a[..next]) && Elements(a[..next]) == Elements(old(a[..n])) + {k}
  {
    AppendNew(a[..n], k);
    ghost var before := a[..n];
    a[n] := k;
    next := n + 1;
    assert a[..next] == before + [k];
  }

  method Least(s: set<nat>) returns (k: nat)
    requires s != {}
    ensures k in s && forall x :: x in s ==> k <= x
  {
    ghost var least := LeastOf(s);
    k :| k in s && forall x :: x in s ==> k <= x;
  }

  lemma {:induction false} LeastOf(s: set<nat>) returns (k: nat)
    requires s != {}
    ensures k in s && forall x :: x in s ==> k <= x
    decreases s
  {
    var y :| y in s;
    if s == {y} {
      k := y;
    } else {
      var m := LeastOf(s - {y});
      k := if y <= m then y else m;
      assert forall x :: x in s ==> x == y || x in s - {y};
    }
  }
}
