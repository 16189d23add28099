/** Binary heaps laid out level by level in a sequence, ordered by an arbitrary
    strict weak order on keys. */
module HeapOrder {

  function Parent(i: nat): nat
    requires i > 0
  {
    (i - 1) / 2
  }

  function Swapped<T>(s: seq<T>, i: nat, j: nat): (r: seq<T>)
    requires i < |s| && j < |s|
    ensures |r| == |s| && r[i] == s[j] && r[j] == s[i]
    ensures forall k :: 0 <= k < |s| && k != i && k != j ==> r[k] == s[k]
  {
    s[i := s[j]][j := s[i]]
  }

  lemma SwapKeepsItems<T>(s: seq<T>, i: nat, j: nat)
    requires i < |s| && j < |s|
    ensures multiset(Swapped(s, i, j)) == multiset(s)
  {
  }

  /** The three laws of a strict weak order, for given elements. */
  ghost predicate WeakAt<K(!new)>(prec: (K, K) -> bool, a: K, b: K, c: K) {
    && !prec(a, a)
    && (prec(a, b) && prec(b, c) ==> prec(a, c))
    && (prec(a, c) ==> prec(a, b) || prec(b, c))
  }

  ghost predicate StrictWeak<K(!new)>(prec: (K, K) -> bool) {
    forall a, b, c {:trigger WeakAt(prec, a, b, c)} :: WeakAt(prec, a, b, c)
  }

  /** "Does not precede" is transitive. */
  lemma NotBeforeTrans<K(!new)>(prec: (K, K) -> bool, a: K, b: K, c: K)
    requires StrictWeak(prec) && !prec(a, b) && !prec(b, c)
    ensures !prec(a, c)
  {
    assert WeakAt(prec, a, b, c);
  }

  lemma BeforeIsNotAfter<K(!new)>(prec: (K, K) -> bool, a: K, b: K)
    requires StrictWeak(prec) && prec(a, b)
    ensures !prec(b, a)
  {
    assert WeakAt(prec, a, b, a);
  }

  ghost predicate InOrder<K(!new)>(prec: (K, K) -> bool, s: seq<K>, k: nat)
    requires 0 < k < |s|
  {
    !prec(s[k], s[Parent(k)])
  }

  /** No element precedes its parent. */
  ghost predicate Ordered<K(!new)>(prec: (K, K) -> bool, s: seq<K>) {
    forall k {:trigger InOrder(prec, s, k)} :: 0 < k < |s| ==> InOrder(prec, s, k)
  }

  /** Below i nothing precedes the parent of i. */
  ghost predicate Bridged<K(!new)>(prec: (K, K) -> bool, s: seq<K>, i: nat) {
    0 < i < |s| ==> forall k :: 0 < k < |s| && Parent(k) == i ==> !prec(s[k], s[Parent(i)])
  }

  /** Order may fail between i and its parent, and between i and its children. */
  ghost predicate OrderedBut<K(!new)>(prec: (K, K) -> bool, s: seq<K>, i: nat) {
    && (forall k {:trigger InOrder(prec, s, k)} :: 0 < k < |s| && k != i && Parent(k) != i ==> InOrder(prec, s, k))
    && Bridged(prec, s, i)
  }

  /** Order may fail between i and its parent only. */
  ghost predicate OrderedButUp<K(!new)>(prec: (K, K) -> bool, s: seq<K>, i: nat) {
    (forall k {:trigger InOrder(prec, s, k)} :: 0 < k < |s| && k != i ==> InOrder(prec, s, k)) && Bridged(prec, s, i)
  }

  /** Order may fail between i and its children only. */
  ghost predicate OrderedButDown<K(!new)>(prec: (K, K) -> bool, s: seq<K>, i: nat) {
    && (forall k {:trigger InOrder(prec, s, k)} :: 0 < k < |s| && Parent(k) != i ==> InOrder(prec, s, k))
    && Bridged(prec, s, i)
  }

  /** An element that precedes its parent and changes places with it also precedes
      its new children. */
  lemma UpStep<K(!new)>(prec: (K, K) -> bool, s: seq<K>, i: nat)
    requires StrictWeak(prec) && 0 < i < |s| && OrderedBut(prec, s, i) && prec(s[i], s[Parent(i)])
    ensures OrderedButUp(prec, Swapped(s, i, Parent(i)), Parent(i))
  {
    var p := Parent(i);
    var r := Swapped(s, i, p);
    BeforeIsNotAfter(prec, s[i], s[p]);
    forall k | 0 < k < |r| && k != p ensures InOrder(prec, r, k) {
      if k != i && Parent(k) != i {
        assert InOrder(prec, s, k);
        if Parent(k) == p { NotBeforeTrans(prec, s[k], s[p], s[i]); }
      }
    }
    forall k | 0 < k < |r| && Parent(k) == p && p > 0 ensures !prec(r[k], r[Parent(p)]) {
      assert InOrder(prec, s, p);
      if k != i { assert InOrder(prec, s, k); NotBeforeTrans(prec, s[k], s[p], s[Parent(p)]); }
    }
  }

  lemma ButUpDone<K(!new)>(prec: (K, K) -> bool, s: seq<K>, i: nat)
    requires i < |s| && OrderedButUp(prec, s, i) && (i == 0 || !prec(s[i], s[Parent(i)]))
    ensures Ordered(prec, s)
  {
  }

  /** A sift up from start that has come to i: once it has moved, and if order failed
      only upwards to begin with, order fails only upwards. */
  ghost predicate Rising<K(!new)>(prec: (K, K) -> bool, was: seq<K>, start: nat, s: seq<K>, i: nat) {
    OrderedBut(prec, s, i) && (i < start || OrderedButUp(prec, was, start) ==> OrderedButUp(prec, s, i))
  }

  lemma RisingStep<K(!new)>(prec: (K, K) -> bool, was: seq<K>, start: nat, s: seq<K>, i: nat)
    requires StrictWeak(prec) && 0 < i < |s| && i <= start && Rising(prec, was, start, s, i) && prec(s[i], s[Parent(i)])
    ensures Rising(prec, was, start, Swapped(s, i, Parent(i)), Parent(i))
  {
    UpStep(prec, s, i);
  }

  /** Where the sift stops, order fails only downwards. */
  lemma RisingDone<K(!new)>(prec: (K, K) -> bool, was: seq<K>, start: nat, s: seq<K>, i: nat)
    requires i < |s| && Rising(prec, was, start, s, i) && (i == 0 || !prec(s[i], s[Parent(i)]))
    ensures OrderedButDown(prec, s, i)
    ensures OrderedButUp(prec, was, start) ==> Ordered(prec, s)
  {
    if OrderedButUp(prec, was, start) { ButUpDone(prec, s, i); }
  }

  /** c is the child a push moves up: no child of i precedes it. */
  ghost predicate Foremost<K(!new)>(prec: (K, K) -> bool, s: seq<K>, i: nat, c: nat) {
    0 < c < |s| && Parent(c) == i && forall k :: 0 < k < |s| && Parent(k) == i ==> !prec(s[k], s[c])
  }

  lemma DownStep<K(!new)>(prec: (K, K) -> bool, s: seq<K>, i: nat, c: nat)
    requires StrictWeak(prec) && i < |s| && OrderedButDown(prec, s, i) && Foremost(prec, s, i, c) && !prec(s[i], s[c])
    ensures OrderedButDown(prec, Swapped(s, i, c), c)
  {
    var r := Swapped(s, i, c);
    forall k | 0 < k < |r| && Parent(k) != c ensures InOrder(prec, r, k) {
      if k == i { assert !prec(s[c], s[Parent(i)]); } else if Parent(k) != i { assert InOrder(prec, s, k); }
    }
    forall k | 0 < k < |r| && Parent(k) == c ensures !prec(r[k], r[Parent(c)]) {
      assert InOrder(prec, s, k);
    }
  }

  lemma DownDone<K(!new)>(prec: (K, K) -> bool, s: seq<K>, i: nat)
    requires OrderedButDown(prec, s, i) && forall k :: 0 < k < |s| && Parent(k) == i ==> !prec(s[k], s[i])
    ensures Ordered(prec, s)
  {
  }

  /** An element in front of the foremost child is in front of both. */
  lemma BeforeForemost<K(!new)>(prec: (K, K) -> bool, s: seq<K>, i: nat, c: nat)
    requires StrictWeak(prec) && i < |s| && Foremost(prec, s, i, c) && prec(s[i], s[c])
    ensures forall k :: 0 < k < |s| && Parent(k) == i ==> !prec(s[k], s[i])
  {
    forall k | 0 < k < |s| && Parent(k) == i ensures !prec(s[k], s[i]) {
      BeforeIsNotAfter(prec, s[i], s[c]);
      NotBeforeTrans(prec, s[k], s[c], s[i]);
    }
  }

  /** Nothing in an ordered heap precedes its first element. */
  lemma {:induction false} FrontIsFirst<K(!new)>(prec: (K, K) -> bool, s: seq<K>, k: nat)
    requires StrictWeak(prec) && Ordered(prec, s) && k < |s|
    ensures !prec(s[k], s[0])
    decreases k
  {
    if k > 0 {
      FrontIsFirst(prec, s, Parent(k));
      assert InOrder(prec, s, k);
      NotBeforeTrans(prec, s[k], s[Parent(k)], s[0]);
    } else {
      assert WeakAt(prec, s[0], s[0], s[0]);
    }
  }

  lemma LeafAdded<K(!new)>(prec: (K, K) -> bool, s: seq<K>, x: K)
    requires Ordered(prec, s)
    ensures OrderedButUp(prec, s + [x], |s|)
  {
    var r := s + [x];
    forall k | 0 < k < |r| && k != |s| ensures InOrder(prec, r, k) {
      assert InOrder(prec, s, k);
    }
  }

  /** Dropping the last element and putting it at i, as take and remove do. */
  lemma LastMoved<K(!new)>(prec: (K, K) -> bool, s: seq<K>, i: nat)
    requires StrictWeak(prec) && Ordered(prec, s) && i < |s| - 1
    ensures OrderedBut(prec, s[..|s| - 1][i := s[|s| - 1]], i)
  {
    var r := s[..|s| - 1][i := s[|s| - 1]];
    forall k | 0 < k < |r| && k != i && Parent(k) != i ensures InOrder(prec, r, k) {
      assert InOrder(prec, s, k);
    }
    forall k | 0 < k < |r| && Parent(k) == i && i > 0 ensures !prec(r[k], r[Parent(i)]) {
      assert InOrder(prec, s, k) && InOrder(prec, s, i);
      NotBeforeTrans(prec, s[k], s[i], s[Parent(i)]);
    }
  }

  lemma OneChanged<K(!new)>(prec: (K, K) -> bool, s: seq<K>, i: nat, x: K)
    requires StrictWeak(prec) && Ordered(prec, s) && i < |s|
    ensures OrderedBut(prec, s[i := x], i)
  {
    var r := s[i := x];
    forall k | 0 < k < |r| && k != i && Parent(k) != i ensures InOrder(prec, r, k) {
      assert InOrder(prec, s, k);
    }
    forall k | 0 < k < |r| && Parent(k) == i && i > 0 ensures !prec(r[k], r[Parent(i)]) {
      assert InOrder(prec, s, k) && InOrder(prec, s, i);
      NotBeforeTrans(prec, s[k], s[i], s[Parent(i)]);
    }
  }
}
