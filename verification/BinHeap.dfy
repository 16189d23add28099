/** The binary heap PWSA keeps its frontiers in, with the split that hands half of
    a frontier to another worker. */
module BinHeap {
  import opened HeapOrder
  import opened Numbers
  import opened Subtrees

  const LONG_MAX: int := 0x7fff_ffff_ffff_ffff

  /** A priority is a signed 64-bit integer. */
  type Long = p: int | -0x8000_0000_0000_0000 <= p <= 0x7fff_ffff_ffff_ffff

  datatype KV<V> = KV(priority: Long, value: V)

  function Keys<V>(s: seq<KV<V>>): (r: seq<int>)
    ensures |r| == |s| && forall i :: 0 <= i < |s| ==> r[i] == s[i].priority
  {
    seq(|s|, i requires 0 <= i < |s| => s[i].priority)
  }

  /** Every item of `all` has at least x's priority. */
  predicate Least<V>(x: KV<V>, all: seq<KV<V>>) {
    forall i :: 0 <= i < |all| ==> x.priority <= all[i].priority
  }

  /** x was one of the items, none had a smaller priority, and only x is gone. */
  ghost predicate TookLeast<V>(before: multiset<KV<V>>, after: multiset<KV<V>>, x: KV<V>) {
    x in before && after == before - multiset{x} && forall y :: y in before ==> x.priority <= y.priority
  }

  class Heap<V(0, ==)> {
    var n: nat
    var capacity: nat
    var values: array<KV<V>>

    ghost predicate Sized()
      reads this
    {
      n <= capacity == values.Length && capacity > 0
    }

    ghost predicate Valid()
      reads this, values
    {
      Sized() && IsHeap(Keys(values[..n]))
    }

    ghost function Items(): multiset<KV<V>>
      reads this, values
      requires n <= values.Length
    {
      multiset(values[..n])
    }

    constructor ()
      ensures Valid() && Items() == multiset{} && fresh(values)
    {
      n := 0;
      capacity := 4096;
      values := new KV<V>[4096];
    }

    /** priority(i): positions beyond the end count as infinitely bad. */
    function Priority(i: nat): int
      reads this, values
      requires n <= values.Length
    {
      if i >= n then LONG_MAX else values[i].priority
    }

    method ResizeBigger(newCap: nat)
      requires n <= values.Length && n <= newCap
      modifies this`capacity, this`values
      ensures capacity == newCap == values.Length && fresh(values) && values[..n] == old(values[..n])
    {
      capacity := newCap;
      var oldValues := values;
      values := new KV<V>[capacity];
      var i := 0;
      while i < n
        invariant 0 <= i <= n <= values.Length && fresh(values) && values.Length == newCap == capacity
        invariant values[..i] == oldValues[..i] && oldValues[..n] == old(values[..n])
      {
        values[i] := oldValues[i];
        i := i + 1;
      }
    }

    method Swap(i: nat, j: nat)
      requires i < n <= values.Length && j < n && i != j
      modifies values
      ensures values[..n] == Swapped(old(values[..n]), i, j)
      ensures Keys(values[..n]) == Swapped(Keys(old(values[..n])), i, j)
      ensures multiset(values[..n]) == multiset(old(values[..n]))
    {
      ghost var s := values[..n];
      values[i], values[j] := values[j], values[i];
      assert values[..n] == Swapped(s, i, j);
      SwapKeepsItems(s, i, j);
    }

    method HeapifyUpFrom(i: nat)
      requires Sized() && i < n && OrderedButUp(Less, Keys(values[..n]), i)
      modifies values
      ensures Valid() && Items() == old(Items())
    {
      var curr: nat := i;
      while curr > 0 && values[curr].priority < values[(curr - 1) / 2].priority
        invariant curr < n && Sized() && OrderedButUp(Less, Keys(values[..n]), curr)
        invariant multiset(values[..n]) == old(Items())
      {
        LessIsWeak();
        UpStep(Less, Keys(values[..n]), curr);
        Swap(curr, (curr - 1) / 2);
        curr := (curr - 1) / 2;
      }
      ButUpDone(Less, Keys(values[..n]), curr);
    }

    /** min_child: on a tie the right child. */
    function MinChild(i: nat): nat
      reads this, values
      requires n <= values.Length
    {
      if Priority(2 * i + 1) < Priority(2 * i + 2) then 2 * i + 1 else 2 * i + 2
    }

    method HeapifyDownFrom(i: nat)
      requires Sized() && OrderedButDown(Less, Keys(values[..n]), i)
      modifies values
      ensures Valid() && Items() == old(Items())
    {
      var curr := i;
      while Priority(curr) > Priority(2 * curr + 1) || Priority(curr) > Priority(2 * curr + 2)
        invariant Sized() && OrderedButDown(Less, Keys(values[..n]), curr)
        invariant multiset(values[..n]) == old(Items())
        decreases if curr < n then n - curr else 0
      {
        var next := MinChild(curr);
        MinChildIsSmallest(curr);
        LessIsWeak();
        DownStep(Less, Keys(values[..n]), curr, next);
        Swap(curr, next);
        curr := next;
      }
      NoSmallerChild(curr);
    }

    lemma MinChildIsSmallest(curr: nat)
      requires Sized()
      requires Priority(curr) > Priority(2 * curr + 1) || Priority(curr) > Priority(2 * curr + 2)
      ensures curr < n && MinChild(curr) < n && values[MinChild(curr)].priority < values[curr].priority
      ensures Foremost(Less, Keys(values[..n]), curr, MinChild(curr))
    {
      var s := Keys(values[..n]);
      forall k | 0 < k < |s| && Parent(k) == curr ensures !Less(s[k], s[MinChild(curr)]) {
        assert k == 2 * curr + 1 || k == 2 * curr + 2;
      }
    }

    lemma NoSmallerChild(curr: nat)
      requires Sized() && OrderedButDown(Less, Keys(values[..n]), curr)
      requires Priority(curr) <= Priority(2 * curr + 1) && Priority(curr) <= Priority(2 * curr + 2)
      ensures IsHeap(Keys(values[..n]))
    {
      var s := Keys(values[..n]);
      forall k | 0 < k < |s| && Parent(k) == curr ensures !Less(s[k], s[curr]) {
        assert k == 2 * curr + 1 || k == 2 * curr + 2;
      }
      DownDone(Less, s, curr);
    }

    method Insert(priority: Long, value: V)
      requires Valid()
      modifies this, values
      ensures Valid() && Items() == old(Items()) + multiset{KV(priority, value)}
      ensures values == old(values) || fresh(values)
    {
      ghost var s := values[..n];
      if n == capacity {
        ResizeBigger(capacity * 2);
      }
      values[n] := KV(priority, value);
      n := n + 1;
      assert values[..n] == s + [KV(priority, value)];
      assert Keys(values[..n]) == Keys(s) + [priority];
      LeafAdded(Less, Keys(s), priority);
      HeapifyUpFrom(n - 1);
    }

    method DeleteMin() returns (result: V)
      requires Valid() && n > 0
      modifies this`n, values
      ensures Valid() && n == old(n) - 1
      ensures exists p: Long :: TookLeast(old(Items()), Items(), KV(p, result))
    {
      ghost var root := values[0];
      result := values[0].value;
      DropRoot();
      HeapifyDownFrom(0);
      assert TookLeast(old(Items()), Items(), KV(root.priority, result));
    }

    method DropRoot()
      requires Valid() && n > 0
      modifies this`n, values
      ensures Sized() && n == old(n) - 1 && OrderedButDown(Less, Keys(values[..n]), 0)
      ensures TookLeast(old(Items()), Items(), old(values[0]))
    {
      ghost var s := values[..n];
      RootIsMinimum(s);
      values[0] := values[n - 1];
      n := n - 1;
      RootRemoved(s, values[..n]);
    }

    /** Hand half of this heap to the empty heap `other`: level by level, the left
        half stays and the right half goes; the root follows the right half.  This heap
        keeps just the left subtree, less than two thirds of the items, and `other` gets
        at most one item more than this heap keeps. */
    method Split(other: Heap<V>)
      requires Valid() && other.Valid() && other != this && other.values != values && other.n == 0
      modifies this`n, values, other, other.values
      ensures Valid() && other.Valid()
      ensures if old(n) < 2 then n == old(n) && other.n == 0 && Items() == old(Items())
              else n > 0 && other.n > 0 && n + other.n == old(n) && Items() + other.Items() == old(Items())
      ensures old(n) >= 2 ==> n < 2 * other.n && other.n <= n + 1
      ensures old(n) >= 2 ==> IsLeftOf(Keys(values[..n]), Keys(old(values[..n])))
    {
      if n < 2 {
        return;
      }
      var root := values[0];
      ghost var s := values[..n];
      var m := n;
      other.ResizeBigger(m / 2);
      Deal(other, m);
      ghost var l, r := values[..n], other.values[..other.n];
      SubtreesAreHeaps(Keys(s), Keys(l));
      SubtreesAreHeaps(Keys(s), Keys(r));
      assert s[..m] == s;
      other.Insert(root.priority, root.value);
      assert values[..n] == l;
      assert multiset(l) + (multiset(r) + multiset{root}) == multiset(s);
    }

    method Deal(other: Heap<V>, m: nat)
      requires m >= 2 && Sized() && n == m && other.Sized() && other.capacity >= m / 2
      requires other != this && other.values != values && IsHeap(Keys(values[..m]))
      modifies this`n, values, other`n, other.values
      ensures Sized() && other.Sized() && n > 0 && n + other.n == m - 1
      ensures other.n <= n <= 2 * other.n + 1
      ensures IsLeftOf(Keys(values[..n]), Keys(old(values[..m])))
      ensures IsRightOf(Keys(other.values[..other.n]), Keys(old(values[..m])))
      ensures multiset(values[..n]) + multiset(other.values[..other.n]) + multiset{old(values[0])}
           == multiset(old(values[..m]))
    {
      ghost var s := values[..m];
      n, other.n := 0, 0;
      assert s[..1] == [s[0]] && values[..0] == [] && other.values[..0] == [];
      DealLevels(other, m, s);
      assert s[..m] == s;
    }

    method DealLevels(other: Heap<V>, m: nat, ghost s: seq<KV<V>>)
      requires Dealing(other, s, 1) && m == |s| >= 2 && n == other.n == 0
      modifies this`n, values, other`n, other.values
      ensures Dealing(other, s, m) && n > 0 && n <= 2 * other.n + 1
    {
      hide IsLeftOf, IsRightOf, Keys, SharedOut, Sized;
      var readIdx := 1;
      var level := 2;
      ghost var e := 0;
      while readIdx < m
        invariant level == 2 * Pow2(e)
        invariant readIdx == level - 1 || readIdx == m
        invariant Dealing(other, s, readIdx) && (readIdx > 1 ==> n > 0) && n <= 2 * other.n + 1
        invariant readIdx < m ==> n == other.n == Pow2(e) - 1
        decreases m - readIdx
      {
        readIdx := DealLeft(other, m, level / 2, readIdx, s, e);
        readIdx := DealRight(other, m, level / 2, readIdx, s, e);
        e := e + 1;
        level := level * 2;
      }
    }

    /** The left half of a level stays, moving to the front. */
    method DealLeft(other: Heap<V>, m: nat, half: nat, start: nat, ghost s: seq<KV<V>>, ghost e: nat)
        returns (readIdx: nat)
      requires Dealing(other, s, start) && m == |s| && half == Pow2(e) && start < m
      requires n == other.n == half - 1 && start == 2 * half - 1
      modifies this`n, values
      ensures Dealing(other, s, readIdx) && readIdx > start && n > 0 && n <= 2 * half - 1
      ensures readIdx == m || readIdx == start + half
      ensures n == readIdx - half
    {
      readIdx := start;
      var i := 0;
      while readIdx < m && i < half
        invariant 0 <= i <= half && Dealing(other, s, readIdx)
        invariant n == half - 1 + i && other.n == half - 1 && readIdx == start + i
        invariant other.values == old(other.values)
        decreases m - readIdx
      {
        LevelSizeIsUnique(n, half, e);
        readIdx := KeepOne(other, s, readIdx);
        i := i + 1;
      }
    }

    /** The right half of a level goes to the other heap. */
    method DealRight(other: Heap<V>, m: nat, half: nat, start: nat, ghost s: seq<KV<V>>, ghost e: nat)
        returns (readIdx: nat)
      requires Dealing(other, s, start) && m == |s| && half == Pow2(e)
      requires n == start - half && other.n == half - 1 && n <= 2 * half - 1
      requires start == m || start == 3 * half - 1
      modifies other`n, other.values
      ensures Dealing(other, s, readIdx) && readIdx >= start && other.n >= half - 1
      ensures readIdx == m || readIdx == 4 * half - 1
      ensures readIdx < m ==> n == other.n == 2 * half - 1
    {
      readIdx := start;
      var i := 0;
      while readIdx < m && i < half
        invariant 0 <= i <= half && Dealing(other, s, readIdx)
        invariant other.n == half - 1 + i && readIdx == start + i
        decreases m - readIdx
      {
        LevelSizeIsUnique(other.n, half, e);
        readIdx := GiveOne(other, s, readIdx);
        i := i + 1;
      }
    }

    /** Cells below n and other.n hold the two subtrees read so far, and no cell
        from readIdx on has been overwritten. */
    ghost predicate Dealing(other: Heap<V>, s: seq<KV<V>>, readIdx: nat)
      reads this, values, other, other.values
    {
      && Sized() && other.Sized() && other != this && other.values != values
      && |s| <= values.Length && other.values.Length >= |s| / 2
      && 1 <= readIdx <= |s| && other.n <= n && n + other.n == readIdx - 1
      && (forall k :: readIdx <= k < |s| ==> values[k] == s[k])
      && IsLeftOf(Keys(values[..n]), Keys(s)) && IsRightOf(Keys(other.values[..other.n]), Keys(s))
      && SharedOut(values[..n], other.values[..other.n], s)
    }

    method KeepOne(other: Heap<V>, ghost s: seq<KV<V>>, readIdx: nat) returns (next: nat)
      requires Dealing(other, s, readIdx) && readIdx < |s| && LeftAt(n) == readIdx
      modifies this`n, values
      ensures next == readIdx + 1 && n == old(n) + 1 && Dealing(other, s, next)
    {
      hide LevelSize, LeftAt, RightAt, Keys, IsLeftOf, IsRightOf, SharedOut;
      next := readIdx + 1;
      ghost var l, r, x := values[..n], other.values[..other.n], s[readIdx];
      KeptOne(l, r, s, x, readIdx);
      values[n] := values[readIdx];
      n := n + 1;
      assert values[..n] == l + [x];
      assert other.values[..other.n] == r;
    }

    method GiveOne(other: Heap<V>, ghost s: seq<KV<V>>, readIdx: nat) returns (next: nat)
      requires Dealing(other, s, readIdx) && readIdx < |s| && RightAt(other.n) == readIdx && other.n < n
      modifies other`n, other.values
      ensures next == readIdx + 1 && other.n == old(other.n) + 1 && Dealing(other, s, next)
    {
      hide LevelSize, LeftAt, RightAt, Keys, IsLeftOf, IsRightOf, SharedOut;
      next := readIdx + 1;
      ghost var l, r, x := values[..n], other.values[..other.n], s[readIdx];
      GaveOne(l, r, s, x, readIdx);
      other.values[other.n] := values[readIdx];
      other.n := other.n + 1;
      assert other.values[..other.n] == r + [x];
      assert values[..n] == l;
    }
  }

  /** l and r together hold the first cells of s, the root excepted. */
  ghost predicate SharedOut<V>(l: seq<KV<V>>, r: seq<KV<V>>, s: seq<KV<V>>) {
    |l| + |r| < |s| && multiset(l) + multiset(r) + multiset{s[0]} == multiset(s[..|l| + |r| + 1])
  }

  lemma SharedOutGrows<V>(l: seq<KV<V>>, r: seq<KV<V>>, s: seq<KV<V>>, x: KV<V>)
    requires SharedOut(l, r, s) && |l| + |r| + 1 < |s| && x == s[|l| + |r| + 1]
    ensures SharedOut(l + [x], r, s) && SharedOut(l, r + [x], s)
  {
    var k := |l| + |r| + 1;
    assert s[..k + 1] == s[..k] + [x];
  }

  lemma KeptOne<V>(l: seq<KV<V>>, r: seq<KV<V>>, s: seq<KV<V>>, x: KV<V>, readIdx: nat)
    requires SharedOut(l, r, s) && IsLeftOf(Keys(l), Keys(s)) && readIdx == |l| + |r| + 1 == LeftAt(|l|)
    requires readIdx < |s| && x == s[readIdx]
    ensures SharedOut(l + [x], r, s) && IsLeftOf(Keys(l + [x]), Keys(s))
  {
    SharedOutGrows(l, r, s, x);
    LeftGrows(Keys(l), Keys(s), x.priority);
    assert Keys(l + [x]) == Keys(l) + [x.priority];
  }

  lemma GaveOne<V>(l: seq<KV<V>>, r: seq<KV<V>>, s: seq<KV<V>>, x: KV<V>, readIdx: nat)
    requires SharedOut(l, r, s) && IsRightOf(Keys(r), Keys(s)) && readIdx == |l| + |r| + 1 == RightAt(|r|)
    requires readIdx < |s| && x == s[readIdx]
    ensures SharedOut(l, r + [x], s) && IsRightOf(Keys(r + [x]), Keys(s))
  {
    SharedOutGrows(l, r, s, x);
    RightGrows(Keys(r), Keys(s), x.priority);
    assert Keys(r + [x]) == Keys(r) + [x.priority];
  }

  lemma RootIsMinimum<V>(s: seq<KV<V>>)
    requires IsHeap(Keys(s)) && |s| > 0
    ensures forall x :: x in multiset(s) ==> s[0].priority <= x.priority
  {
    forall x | x in multiset(s) ensures s[0].priority <= x.priority {
      var k :| 0 <= k < |s| && s[k] == x;
      LessIsWeak();
      FrontIsFirst(Less, Keys(s), k);
    }
  }

  lemma RootRemoved<V>(s: seq<KV<V>>, r: seq<KV<V>>)
    requires IsHeap(Keys(s)) && |s| > 0 && |r| == |s| - 1
    requires |s| > 1 ==> r == s[..|s| - 1][0 := s[|s| - 1]]
    ensures OrderedButDown(Less, Keys(r), 0) && multiset(r) == multiset(s) - multiset{s[0]}
  {
    if |s| > 1 {
      LessIsWeak();
      LastMoved(Less, Keys(s), 0);
      assert Keys(r) == Keys(s)[..|s| - 1][0 := Keys(s)[|s| - 1]];
      assert s == s[..|s| - 1] + [s[|s| - 1]];
    } else {
      assert s == [s[0]] && r == [];
    }
  }
}
