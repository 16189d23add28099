/** The two subtrees of the root of a heap, each read level by level, and the order
    on integer priorities. */
module Subtrees {
  import opened HeapOrder
  import opened Numbers

  predicate Less(a: int, b: int) {
    a < b
  }

  lemma LessIsWeak()
    ensures StrictWeak(Less)
  {
    forall a: int, b: int, c: int ensures WeakAt(Less, a, b, c) {
    }
  }

  /** No element is smaller than its parent. */
  ghost predicate IsHeap(s: seq<int>) {
    Ordered(Less, s)
  }

  // ---------- the two subtrees of the root ----------

  /** The size of the level that index j is on. */
  function LevelSize(j: nat): (h: nat)
    ensures 1 <= h <= j + 1 < 2 * h
  {
    if j == 0 then 1 else 2 * LevelSize((j - 1) / 2)
  }

  lemma {:induction false} LevelSizeIsUnique(j: nat, h: nat, e: nat)
    requires h == Pow2(e) && h <= j + 1 < 2 * h
    ensures LevelSize(j) == h
    decreases e
  {
    if e > 0 {
      LevelSizeIsUnique((j - 1) / 2, Pow2(e - 1), e - 1);
    }
  }

  /** Where the j-th element of the left (right) subtree sits in the whole heap. */
  function LeftAt(j: nat): nat { j + LevelSize(j) }

  function RightAt(j: nat): nat { j + 2 * LevelSize(j) }

  lemma SubtreeParents(j: nat)
    requires j > 0
    ensures Parent(LeftAt(j)) == LeftAt(Parent(j)) && Parent(RightAt(j)) == RightAt(Parent(j))
  {
  }

  ghost predicate FromLeft(l: seq<int>, s: seq<int>, j: nat)
    requires j < |l|
  {
    LeftAt(j) < |s| && l[j] == s[LeftAt(j)]
  }

  ghost predicate FromRight(l: seq<int>, s: seq<int>, j: nat)
    requires j < |l|
  {
    RightAt(j) < |s| && l[j] == s[RightAt(j)]
  }

  ghost predicate IsLeftOf(l: seq<int>, s: seq<int>) {
    forall j {:trigger FromLeft(l, s, j)} :: 0 <= j < |l| ==> FromLeft(l, s, j)
  }

  ghost predicate IsRightOf(l: seq<int>, s: seq<int>) {
    forall j {:trigger FromRight(l, s, j)} :: 0 <= j < |l| ==> FromRight(l, s, j)
  }

  lemma LeftGrows(l: seq<int>, s: seq<int>, x: int)
    requires IsLeftOf(l, s) && LeftAt(|l|) < |s| && s[LeftAt(|l|)] == x
    ensures IsLeftOf(l + [x], s)
  {
    forall j: nat | j < |l| + 1 ensures FromLeft(l + [x], s, j) {
      if j < |l| { assert FromLeft(l, s, j); }
    }
  }

  lemma RightGrows(l: seq<int>, s: seq<int>, x: int)
    requires IsRightOf(l, s) && RightAt(|l|) < |s| && s[RightAt(|l|)] == x
    ensures IsRightOf(l + [x], s)
  {
    forall j: nat | j < |l| + 1 ensures FromRight(l + [x], s, j) {
      if j < |l| { assert FromRight(l, s, j); }
    }
  }

  /** Each subtree, read level by level, is a heap again. */
  lemma SubtreesAreHeaps(s: seq<int>, l: seq<int>)
    requires IsHeap(s) && (IsLeftOf(l, s) || IsRightOf(l, s))
    ensures IsHeap(l)
  {
    forall j: nat | 0 < j < |l| ensures InOrder(Less, l, j) {
      SubtreeParents(j);
      if IsLeftOf(l, s) {
        assert FromLeft(l, s, j) && FromLeft(l, s, Parent(j));
        assert InOrder(Less, s, LeftAt(j));
      } else {
        assert FromRight(l, s, j) && FromRight(l, s, Parent(j));
        assert InOrder(Less, s, RightAt(j));
      }
    }
  }
}
