/** The indexed binary heap behind the open lists.  Every element stores its own
    position, so that it can be re-sorted or removed without a search. */
module PriorityQueues {
  import opened HeapOrder

  /** An element is a reference; 0 is the null reference. */
  type Elem = nat

  const NULL: Elem := 0

  datatype Taken = Empty | Got(e: Elem)

  function Keys<K>(key: Elem -> K, s: seq<Elem>): (r: seq<K>)
    ensures |r| == |s| && forall i :: 0 <= i < |s| ==> r[i] == key(s[i])
  {
    seq(|s|, i requires 0 <= i < |s| => key(s[i]))
  }

  function IndexOf(index: map<Elem, int>, e: Elem): int {
    if e in index then index[e] else -1
  }

  ghost predicate PlacedAt(s: seq<Elem>, index: map<Elem, int>, k: nat)
    requires k < |s|
  {
    IndexOf(index, s[k]) == k
  }

  /** Every element but the one at i stores its position. */
  ghost predicate PlacedBut(s: seq<Elem>, index: map<Elem, int>, i: int) {
    forall k {:trigger PlacedAt(s, index, k)} :: 0 <= k < |s| && k != i ==>
      PlacedAt(s, index, k) && (0 <= i < |s| ==> s[k] != s[i])
  }

  /** Every element stores its position. */
  ghost predicate Placed(s: seq<Elem>, index: map<Elem, int>) {
    forall k {:trigger PlacedAt(s, index, k)} :: 0 <= k < |s| ==> PlacedAt(s, index, k)
  }

  /** Elements outside store -1. */
  ghost predicate NoOthers(s: seq<Elem>, index: map<Elem, int>) {
    forall e {:trigger IndexOf(index, e)} :: e !in s ==> IndexOf(index, e) == -1
  }

  ghost predicate SameOutside(s: seq<Elem>, was: map<Elem, int>, index: map<Elem, int>) {
    forall e {:trigger IndexOf(index, e)} :: e !in s ==> IndexOf(index, e) == IndexOf(was, e)
  }

  lemma PlacedApart(s: seq<Elem>, index: map<Elem, int>, j: nat, k: nat)
    requires Placed(s, index) && j < k < |s|
    ensures s[j] != s[k]
  {
    assert PlacedAt(s, index, j) && PlacedAt(s, index, k);
  }

  lemma AnyMayBeLoose(s: seq<Elem>, index: map<Elem, int>, i: nat)
    requires Placed(s, index) && i < |s|
    ensures PlacedBut(s, index, i)
  {
    forall k | 0 <= k < |s| && k != i ensures PlacedAt(s, index, k) && s[k] != s[i] {
      assert PlacedAt(s, index, i);
    }
  }

  lemma NothingToPlace(s: seq<Elem>, index: map<Elem, int>)
    requires s == []
    ensures Placed(s, index)
  {
  }

  lemma NewIsLoose(s: seq<Elem>, index: map<Elem, int>, e: Elem)
    requires Placed(s, index) && e !in s
    ensures PlacedBut(s + [e], index, |s|)
  {
    forall k | 0 <= k < |s| ensures PlacedAt(s + [e], index, k) && s[k] != e {
      assert PlacedAt(s, index, k);
    }
  }

  lemma SameItems(a: seq<Elem>, b: seq<Elem>)
    requires multiset(a) == multiset(b)
    ensures forall e :: e in a <==> e in b
  {
    forall e ensures e in a <==> e in b {
      assert e in a <==> e in multiset(a);
      assert e in b <==> e in multiset(b);
    }
  }

  /** The element at j moves to i and stores that; the loose element moves to j. */
  lemma MovePlaces(s: seq<Elem>, index: map<Elem, int>, i: nat, j: nat)
    requires i < |s| && j < |s| && i != j && PlacedBut(s, index, i)
    ensures PlacedBut(Swapped(s, i, j), index[s[j] := i], j)
    ensures SameOutside(s, index, index[s[j] := i])
  {
    var r := Swapped(s, i, j);
    assert PlacedAt(s, index, j);
    forall k | 0 <= k < |r| && k != j ensures PlacedAt(r, index[s[j] := i], k) && r[k] != r[j] {
      if k != i { assert PlacedAt(s, index, k); }
    }
  }

  /** The same elements in another order; elements outside were left alone. */
  ghost predicate Shuffled(s: seq<Elem>, was: map<Elem, int>, r: seq<Elem>, index: map<Elem, int>) {
    multiset(s) == multiset(r) && SameOutside(s, was, index)
  }

  lemma ShuffledOn(s: seq<Elem>, a: map<Elem, int>, r: seq<Elem>, b: map<Elem, int>, q: seq<Elem>, c: map<Elem, int>)
    requires Shuffled(s, a, r, b) && Shuffled(r, b, q, c)
    ensures Shuffled(s, a, q, c)
  {
    SameItems(s, r);
    forall e | e !in s ensures IndexOf(c, e) == IndexOf(a, e) {
      assert IndexOf(b, e) == IndexOf(a, e);
    }
  }

  /** Storing the loose element's position puts everything in its place. */
  lemma PlacedAgain(s: seq<Elem>, was: map<Elem, int>, r: seq<Elem>, index: map<Elem, int>, i: nat)
    requires i < |r| && PlacedBut(r, index, i) && Shuffled(s, was, r, index)
    ensures Placed(r, index[r[i] := i]) && Shuffled(s, was, r, index[r[i] := i])
  {
    SameItems(s, r);
    var now := index[r[i] := i];
    forall k | 0 <= k < |r| ensures PlacedAt(r, now, k) {
      if k != i { assert PlacedAt(r, index, k); }
    }
    forall e | e !in s ensures IndexOf(index[r[i] := i], e) == IndexOf(was, e) {
      assert IndexOf(index, e) == IndexOf(was, e);
    }
  }

  lemma LooseStored(s: seq<Elem>, index: map<Elem, int>, i: nat)
    requires i < |s| && PlacedBut(s, index, i) && NoOthers(s, index)
    ensures PlacedBut(s, index[s[i] := i], i) && NoOthers(s, index[s[i] := i])
  {
    forall k | 0 <= k < |s| && k != i ensures PlacedAt(s, index[s[i] := i], k) && s[k] != s[i] {
      assert PlacedAt(s, index, k);
    }
    forall e | e !in s ensures IndexOf(index[s[i] := i], e) == -1 {
      assert IndexOf(index, e) == -1;
    }
  }

  lemma NoOthersKept(s: seq<Elem>, was: map<Elem, int>, r: seq<Elem>, index: map<Elem, int>)
    requires NoOthers(s, was) && Shuffled(s, was, r, index)
    ensures NoOthers(r, index)
  {
    SameItems(s, r);
    forall e | e !in r ensures IndexOf(index, e) == -1 {
      assert IndexOf(was, e) == -1;
    }
  }

  /** What holds while the element that was at start is held back at i. */
  ghost predicate Lifting<K(!new)>(prec: (K, K) -> bool, key: Elem -> K, s: seq<Elem>, start: nat, was: map<Elem, int>,
                                   v: seq<Elem>, i: nat, index: map<Elem, int>) {
    Rising(prec, Keys(key, s), start, Keys(key, v), i) && PlacedBut(v, index, i) && Shuffled(s, was, v, index)
  }

  lemma LiftOn<K(!new)>(prec: (K, K) -> bool, key: Elem -> K, s: seq<Elem>, start: nat, was: map<Elem, int>,
                        v: seq<Elem>, i: nat, index: map<Elem, int>, v': seq<Elem>, index': map<Elem, int>)
    requires StrictWeak(prec) && Lifting(prec, key, s, start, was, v, i, index)
    requires 0 < i < |v| && i <= start && prec(key(v[i]), key(v[Parent(i)]))
    requires |v'| == |v| && Keys(key, v') == Swapped(Keys(key, v), i, Parent(i))
    requires PlacedBut(v', index', Parent(i)) && Shuffled(v, index, v', index')
    ensures Lifting(prec, key, s, start, was, v', Parent(i), index')
  {
    RisingStep(prec, Keys(key, s), start, Keys(key, v), i);
    ShuffledOn(s, was, v, index, v', index');
  }

  lemma LiftStart<K(!new)>(prec: (K, K) -> bool, key: Elem -> K, s: seq<Elem>, start: nat, index: map<Elem, int>)
    requires PlacedBut(s, index, start) && OrderedBut(prec, Keys(key, s), start)
    ensures Lifting(prec, key, s, start, index, s, start, index)
  {
  }

  lemma LiftDone<K(!new)>(prec: (K, K) -> bool, key: Elem -> K, s: seq<Elem>, start: nat, was: map<Elem, int>,
                          v: seq<Elem>, i: nat, index: map<Elem, int>)
    requires Lifting(prec, key, s, start, was, v, i, index) && i < |v|
    requires i == 0 || !prec(key(v[i]), key(v[Parent(i)]))
    ensures OrderedButDown(prec, Keys(key, v), i) && PlacedBut(v, index, i) && Shuffled(s, was, v, index)
    ensures OrderedButUp(prec, Keys(key, s), start) ==> Ordered(prec, Keys(key, v))
  {
    RisingDone(prec, Keys(key, s), start, Keys(key, v), i);
  }

  lemma OneMoreToAdd(s: seq<Elem>, start: map<Elem, int>, i: nat, r: seq<Elem>)
    requires i < |s| && multiset(s[..i]) == multiset(r) && Placed(s, start)
    ensures s[i] !in r
  {
    SameItems(s[..i], r);
    forall k | 0 <= k < i ensures s[k] != s[i] {
      PlacedApart(s, start, k, i);
    }
  }

  lemma OneMoreAdded(s: seq<Elem>, start: map<Elem, int>, i: nat, r: seq<Elem>, was: map<Elem, int>, q: seq<Elem>,
                     index: map<Elem, int>)
    requires i < |s| && multiset(s[..i]) == multiset(r) && SameOutside(s, start, was)
             && Shuffled(r + [s[i]], was, q, index)
    ensures multiset(s[..i + 1]) == multiset(q) && SameOutside(s, start, index)
  {
    assert s[..i + 1] == s[..i] + [s[i]];
    SameItems(s[..i + 1], r + [s[i]]);
    forall e | e !in s ensures IndexOf(index, e) == IndexOf(start, e) {
      assert e !in s[..i + 1] && e !in r + [s[i]];
      assert IndexOf(was, e) == IndexOf(start, e);
    }
  }

  /** s without the element at i, the last one in its place. */
  function Folded(s: seq<Elem>, i: nat): (r: seq<Elem>)
    requires i < |s|
    ensures |r| == |s| - 1
  {
    if i < |s| - 1 then s[..|s| - 1][i := s[|s| - 1]] else s[..|s| - 1]
  }

  lemma FoldedItems(s: seq<Elem>, i: nat)
    requires i < |s|
    ensures multiset(Folded(s, i)) == multiset(s) - multiset{s[i]}
  {
    assert s == s[..|s| - 1] + [s[|s| - 1]];
  }

  lemma FoldedPlaces(s: seq<Elem>, index: map<Elem, int>, i: nat)
    requires i < |s| && Placed(s, index) && NoOthers(s, index)
    ensures PlacedBut(Folded(s, i), index[s[i] := -1], i) && NoOthers(Folded(s, i), index[s[i] := -1])
    ensures s[i] !in Folded(s, i)
  {
    var r, n, now := Folded(s, i), |s| - 1, index[s[i] := -1];
    FoldedKeeps(s, i);
    assert PlacedAt(s, index, i);
    forall k | 0 <= k < n && k != i ensures PlacedAt(r, now, k) && (i < n ==> r[k] != r[i]) {
      assert PlacedAt(s, index, k) && PlacedAt(s, index, n);
    }
    forall k | 0 <= k < n ensures r[k] != s[i] {
      assert PlacedAt(s, index, k) && PlacedAt(s, index, n);
    }
    forall e | e !in r ensures IndexOf(now, e) == -1 {
      if e != s[i] { assert e !in s && IndexOf(index, e) == -1; }
    }
  }

  lemma FoldedKeeps(s: seq<Elem>, i: nat)
    requires i < |s|
    ensures forall e :: e in s && e != s[i] ==> e in Folded(s, i)
  {
    var r, n := Folded(s, i), |s| - 1;
    forall e | e in s && e != s[i] ensures e in r {
      var k :| 0 <= k < |s| && s[k] == e;
      if k == n { assert r[i] == e; } else { assert r[k] == e; }
    }
  }

  class PriorityQueue<K(!new)> {
    const prec: (K, K) -> bool
    var fill: nat
    var size: nat
    var heap: array<Elem>
    /** The key and the stored position of each element. */
    var key: Elem -> K
    var index: map<Elem, int>

    ghost predicate Sized()
      reads this
    {
      StrictWeak(prec) && fill <= size == heap.Length && size > 0
    }

    ghost function Items(): seq<Elem>
      reads this, heap
      requires fill <= heap.Length
    {
      heap[..fill]
    }

    /** The positions are right, whatever the keys are. */
    ghost predicate Indexed()
      reads this, heap
    {
      Sized() && Placed(Items(), index) && NoOthers(Items(), index)
    }

    ghost predicate Valid()
      reads this, heap
    {
      Indexed() && Ordered(prec, Keys(key, Items()))
    }

    /** The contents once e has been written at i. */
    ghost function With(i: nat, e: Elem): (r: seq<Elem>)
      reads this, heap
      requires i < fill <= heap.Length
      ensures |r| == fill && r[i] == e
    {
      heap[..fill][i := e]
    }

    constructor (prec: (K, K) -> bool, key: Elem -> K)
      requires StrictWeak(prec)
      ensures Valid() && fresh(heap) && Items() == [] && this.prec == prec && this.key == key
    {
      this.prec, this.key := prec, key;
      fill, size, index := 0, 100, map[];
      heap := new Elem[100];
    }

    function ParentOf(i: nat): (p: nat)
      ensures i > 0 ==> p == Parent(i) && p < i
    {
      if i == 0 then 0 else (i - 1) / 2
    }

    /** One turn of the sift: the parent moves down to i. */
    method MoveTo(i: nat, j: nat, ghost e: Elem)
      requires Sized() && i < fill && j < fill && i != j && PlacedBut(With(i, e), index, i)
      modifies heap, this`index
      ensures With(j, e) == Swapped(old(With(i, e)), i, j)
      ensures Keys(key, With(j, e)) == Swapped(Keys(key, old(With(i, e))), i, j)
      ensures PlacedBut(With(j, e), index, j) && Shuffled(old(With(i, e)), old(index), With(j, e), index)
    {
      hide PlacedBut, SameOutside, StrictWeak;
      ghost var v := With(i, e);
      MovePlaces(v, index, i, j);
      SwapKeepsItems(v, i, j);
      heap[i] := heap[j];
      index := index[heap[i] := i];
      assert With(j, e) == Swapped(v, i, j);
    }

    /** sift_up leaves the position stored in the element to its caller. */
    method SiftUp(start: nat) returns (i: nat)
      requires Sized() && start < fill && PlacedBut(Items(), index, start)
      requires OrderedBut(prec, Keys(key, Items()), start)
      modifies heap, this`index
      ensures i <= start < fill && heap[i] == old(heap[start])
      ensures OrderedButDown(prec, Keys(key, Items()), i)
      ensures OrderedButUp(prec, old(Keys(key, Items())), start) ==> Ordered(prec, Keys(key, Items()))
      ensures PlacedBut(Items(), index, i) && Shuffled(old(Items()), old(index), Items(), index)
    {
      hide StrictWeak, Placed, PlacedBut, Shuffled, Rising, OrderedButDown, OrderedButUp, OrderedBut, Ordered;
      i := start;
      var p := ParentOf(i);
      var parent := heap[p];
      var e := heap[i];
      ghost var s := Items();
      assert With(i, e) == s;
      LiftStart(prec, key, s, start, index);
      while i > 0 && prec(key(e), key(parent))
        invariant i <= start < fill && p == ParentOf(i) && Sized()
        invariant i > 0 ==> parent == With(i, e)[p]
        invariant Lifting(prec, key, s, start, old(index), With(i, e), i, index)
      {
        ghost var v, was := With(i, e), index;
        MoveTo(i, p, e);
        LiftOn(prec, key, s, start, old(index), v, i, was, With(p, e), index);
        i := p;
        p := ParentOf(i);
        parent := heap[p];
      }
      LiftDone(prec, key, s, start, old(index), With(i, e), i, index);
      label L:
      heap[i] := e;
      assert Items() == old@L(With(i, e));
    }

    lemma ForemostChild(e: Elem, i: nat, c: nat)
      requires Sized() && i < fill && c < fill && (c == 2 * i + 1 || c == 2 * i + 2)
      requires c == 2 * i + 1 && 2 * i + 2 < fill ==> !prec(key(heap[2 * i + 2]), key(heap[c]))
      requires c == 2 * i + 2 ==> prec(key(heap[c]), key(heap[2 * i + 1]))
      ensures Foremost(prec, Keys(key, With(i, e)), i, c)
    {
      var s := Keys(key, With(i, e));
      forall k | 0 < k < |s| && Parent(k) == i ensures !prec(s[k], s[c]) {
        assert k == 2 * i + 1 || k == 2 * i + 2;
        assert WeakAt(prec, s[c], s[k], s[c]) && WeakAt(prec, s[c], s[c], s[c]);
      }
    }

    /** The child that goes up if any does; on a tie the left one. */
    method ChildToPush(e: Elem, i: nat) returns (c: nat)
      requires Sized() && 2 * i + 1 < fill
      ensures i < c < fill && Foremost(prec, Keys(key, With(i, e)), i, c)
    {
      c := 2 * i + 1;
      if 2 * i + 2 < fill {
        if prec(key(heap[2 * i + 2]), key(heap[c])) { c := 2 * i + 2; }
      }
      ForemostChild(e, i, c);
    }

    /** try_push: on a tie the element is pushed further down. */
    method TryPush(e: Elem, i: nat) returns (j: nat)
      requires Sized() && i < fill && PlacedBut(With(i, e), index, i)
      requires OrderedButDown(prec, Keys(key, With(i, e)), i)
      modifies heap, this`index
      ensures i <= j < fill && Ordered(prec, Keys(key, With(j, e)))
      ensures PlacedBut(With(j, e), index, j) && Shuffled(old(With(i, e)), old(index), With(j, e), index)
      decreases fill - i
    {
      ghost var v := With(i, e);
      if 2 * i + 1 >= fill {
        DownDone(prec, Keys(key, v), i);
        return i;
      }
      var c := ChildToPush(e, i);
      if prec(key(e), key(heap[c])) {
        BeforeForemost(prec, Keys(key, v), i, c);
        DownDone(prec, Keys(key, v), i);
        return i;
      }
      DownStep(prec, Keys(key, v), i, c);
      MoveTo(i, c, e);
      ghost var mid, r := index, With(c, e);
      j := TryPush(e, c);
      ShuffledOn(v, old(index), r, mid, With(j, e), index);
    }

    method SiftDown(e: Elem, start: nat) returns (i: nat)
      requires Sized() && start < fill && heap[start] == e && PlacedBut(Items(), index, start)
      requires OrderedButDown(prec, Keys(key, Items()), start)
      modifies heap, this`index
      ensures start <= i < fill && heap[i] == e && Ordered(prec, Keys(key, Items()))
      ensures Placed(Items(), index) && Shuffled(old(Items()), old(index), Items(), index)
    {
      ghost var s := Items();
      assert With(start, e) == s;
      i := TryPush(e, start);
      PlacedAgain(s, old(index), With(i, e), index, i);
      heap[i] := e;
      index := index[e := i];
    }

    /** Sifts the element at i to where it belongs, as remove and see_update do. */
    method Resift(i: nat)
      requires Sized() && i < fill && PlacedBut(Items(), index, i) && OrderedBut(prec, Keys(key, Items()), i)
      modifies heap, this`index
      ensures Ordered(prec, Keys(key, Items()))
      ensures Placed(Items(), index) && Shuffled(old(Items()), old(index), Items(), index)
    {
      ghost var s, was := Items(), index;
      var e := heap[i];
      var ind := SiftUp(i);
      ghost var r, mid := Items(), index;
      var j := SiftDown(e, ind);
      ShuffledOn(s, was, r, mid, Items(), index);
    }

    method Grow()
      requires Sized()
      modifies this`size, this`heap
      ensures Sized() && fill < size && fresh(heap) && Items() == old(Items())
    {
      size := size * 2;
      var bigger := new Elem[size];
      var i := 0;
      while i < fill
        invariant 0 <= i <= fill < size == bigger.Length && heap == old(heap) && fill <= heap.Length
        invariant bigger[..i] == heap[..i]
      {
        bigger[i] := heap[i];
        i := i + 1;
      }
      heap := bigger;
    }

    method PutAtEnd(e: Elem)
      requires Sized() && fill < size
      requires Placed(Items(), index) && Ordered(prec, Keys(key, Items())) && e !in Items()
      modifies this`fill, this`index, heap
      ensures Sized() && Placed(Items(), index) && Ordered(prec, Keys(key, Items()))
      ensures Shuffled(old(Items()) + [e], old(index), Items(), index)
    {
      ghost var s := Items();
      heap[fill] := e;
      fill := fill + 1;
      ghost var r := Items();
      assert r == s + [e];
      assert Keys(key, r) == Keys(key, s) + [key(e)];
      LeafAdded(prec, Keys(key, s), key(e));
      NewIsLoose(s, index, e);
      var i := SiftUp(fill - 1);
      PlacedAgain(r, old(index), Items(), index, i);
      index := index[e := i];
    }

    /** add, without asking what elements outside the queue store. */
    method Put(e: Elem)
      requires Sized() && Placed(Items(), index) && Ordered(prec, Keys(key, Items())) && e !in Items()
      modifies this`fill, this`size, this`heap, this`index, heap
      ensures Sized() && (heap == old(heap) || fresh(heap))
      ensures Placed(Items(), index) && Ordered(prec, Keys(key, Items()))
      ensures Shuffled(old(Items()) + [e], old(index), Items(), index)
    {
      if size <= fill { Grow(); }
      PutAtEnd(e);
    }

    method Add(e: Elem)
      requires Valid() && e !in Items()
      modifies this`fill, this`size, this`heap, this`index, heap
      ensures Valid() && (heap == old(heap) || fresh(heap))
      ensures multiset(Items()) == multiset(old(Items())) + multiset{e}
    {
      ghost var s, was := Items(), index;
      Put(e);
      NoOthersKept(s + [e], was, Items(), index);
    }

    /** The last element is moved to i and the queue is one shorter. */
    method Fold(i: nat)
      requires Valid() && i < fill
      modifies this`fill, this`index, heap
      ensures fill == old(fill) - 1 && Sized() && PlacedBut(Items(), index, i) && NoOthers(Items(), index)
      ensures i < fill ==> OrderedBut(prec, Keys(key, Items()), i)
      ensures i == fill ==> Ordered(prec, Keys(key, Items()))
      ensures multiset(Items()) == multiset(old(Items())) - multiset{old(heap[i])}
      ensures old(heap[i]) !in Items()
    {
      ghost var s := Items();
      index := index[heap[i] := -1];
      heap[i] := heap[fill - 1];
      heap[fill - 1] := NULL;
      fill := fill - 1;
      assert Items() == Folded(s, i);
      FoldedItems(s, i);
      FoldedPlaces(s, old(index), i);
      FoldedOrder(s, i);
    }

    lemma FoldedOrder(s: seq<Elem>, i: nat)
      requires StrictWeak(prec) && Ordered(prec, Keys(key, s)) && i < |s|
      ensures i < |s| - 1 ==> OrderedBut(prec, Keys(key, Folded(s, i)), i)
      ensures i == |s| - 1 ==> Ordered(prec, Keys(key, Folded(s, i)))
    {
      var ks, n := Keys(key, s), |s| - 1;
      if i < n {
        LastMoved(prec, ks, i);
        assert Keys(key, Folded(s, i)) == ks[..n][i := ks[n]];
      } else {
        var r := Keys(key, Folded(s, i));
        forall k | 0 < k < n ensures InOrder(prec, r, k) {
          assert InOrder(prec, ks, k);
        }
      }
    }

    method Take() returns (r: Taken)
      requires Valid()
      modifies this`fill, this`index, heap
      ensures Valid()
      ensures r.Empty? <==> old(Items()) == []
      ensures r.Empty? ==> Items() == old(Items())
      ensures r.Got? ==> r.e in old(Items()) && forall x :: x in old(Items()) ==> !prec(key(x), key(r.e))
      ensures r.Got? ==> multiset(Items()) == multiset(old(Items())) - multiset{r.e} && r.e !in Items()
    {
      hide Placed, NoOthers, PlacedBut, SameOutside, StrictWeak;
      if fill <= 0 { return Empty; }
      FirstOfAll(Items());
      r := Got(heap[0]);
      Fold(0);
      if fill > 0 {
        ghost var s, was := Items(), index;
        var j := SiftDown(heap[0], 0);
        NoOthersKept(s, was, Items(), index);
        SameItems(s, Items());
      } else {
        NothingToPlace(Items(), index);
      }
    }

    lemma FirstOfAll(s: seq<Elem>)
      requires StrictWeak(prec) && Ordered(prec, Keys(key, s)) && |s| > 0
      ensures forall x :: x in s ==> !prec(key(x), key(s[0]))
    {
      forall x | x in s ensures !prec(key(x), key(s[0])) {
        var k :| 0 <= k < |s| && s[k] == x;
        FrontIsFirst(prec, Keys(key, s), k);
      }
    }

    method Remove(i: nat)
      requires Valid() && i < fill
      modifies this`fill, this`index, heap
      ensures Valid() && multiset(Items()) == multiset(old(Items())) - multiset{old(heap[i])}
      ensures old(heap[i]) !in Items()
    {
      Fold(i);
      label F:
      if i < fill {
        index := index[heap[i] := i];
        ghost var s, was := Items(), index;
        LooseStored(s, old@F(index), i);
        Resift(i);
        NoOthersKept(s, was, Items(), index);
      }
    }

    /** see_update: the key of the element at i, and no other, has just changed. */
    method SeeUpdate(i: nat, ghost was: Elem -> K)
      requires Indexed() && i < fill && Ordered(prec, Keys(was, Items()))
      requires forall e :: e in Items() && e != heap[i] ==> key(e) == was(e)
      modifies this`index, heap
      ensures Valid() && multiset(Items()) == multiset(old(Items()))
    {
      ghost var s := Items();
      OneChanged(prec, Keys(was, s), i, key(heap[i]));
      AnyMayBeLoose(s, index, i);
      forall k | 0 <= k < |s| && k != i ensures key(s[k]) == was(s[k]) {
        assert PlacedAt(s, index, k) && PlacedAt(s, index, i);
      }
      assert Keys(key, s) == Keys(was, s)[i := key(heap[i])];
      Resift(i);
      NoOthersKept(s, old(index), Items(), index);
    }

    /** resort: any number of keys have changed, so everything is added again. */
    method Resort()
      requires Indexed()
      modifies this`fill, this`size, this`heap, this`index, heap
      ensures Valid() && multiset(Items()) == multiset(old(Items()))
    {
      ghost var s := Items();
      var oldFill, oldHeap := fill, heap;
      heap := new Elem[size];
      fill := 0;
      var i := 0;
      while i < oldFill
        invariant 0 <= i <= oldFill <= oldHeap.Length && oldHeap[..oldFill] == s && heap != oldHeap && fresh(heap)
        invariant Sized() && Placed(Items(), index) && Ordered(prec, Keys(key, Items()))
        invariant Shuffled(s[..i], index, Items(), index) && SameOutside(s, old(index), index)
      {
        ghost var r, was := Items(), index;
        OneMoreToAdd(s, old(index), i, r);
        Put(oldHeap[i]);
        OneMoreAdded(s, old(index), i, r, was, Items(), index);
        i := i + 1;
      }
      assert s[..i] == s;
      NoOthersKept(s, old(index), Items(), index);
    }

    method Reset()
      requires Indexed()
      modifies this`fill, this`size, this`heap, this`index
      ensures Valid() && Items() == [] && fresh(heap)
    {
      ghost var s := Items();
      var i := 0;
      while i < fill
        invariant 0 <= i <= fill && Sized() && Items() == s
        invariant forall k :: 0 <= k < i ==> IndexOf(index, s[k]) == -1
        invariant SameOutside(s, old(index), index)
      {
        ghost var was := index;
        index := index[heap[i] := -1];
        forall e | e !in s ensures IndexOf(index, e) == IndexOf(old(index), e) {
          assert IndexOf(was, e) == IndexOf(old(index), e);
        }
        i := i + 1;
      }
      fill, size := 0, 100;
      heap := new Elem[100];
    }
  }
}
