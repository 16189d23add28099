/** The tile projections of PBNF: a block is the positions of the blank and of the
    first few tiles.  What is said here of blocks, of their numbers and of the lists of
    neighbours holds for any number of tracked tiles. */
module TileProjection {
  import opened Graphs
  import opened Numbers
  import opened TileHash
  import opened TileBoards
  import TileHeuristic
  import NBlocks
  import NBlockScheduler

  /** A block: where tiles 0 (the blank), 1, 2, ... are. */
  type Key = seq<nat>

  ghost predicate KeyOk(key: Key, k: nat, cells: nat) {
    && |key| == k + 1
    && (forall j :: 0 <= j <= k ==> key[j] < cells)
    && (forall i, j :: 0 <= i < j <= k ==> key[i] != key[j])
  }

  ghost function Where(t: seq<nat>, tile: nat): (p: nat)
    requires Board(t) && tile < |t|
    ensures p < |t| && t[p] == tile
  {
    TileHeuristic.TileIsSomewhere(t, tile);
    var p: nat :| p < |t| && t[p] == tile;
    p
  }

  ghost function Track(t: seq<nat>, k: nat): (key: Key)
    requires Board(t) && k < |t|
    ensures KeyOk(key, k, |t|) && forall j :: 0 <= j <= k ==> t[key[j]] == j
  {
    seq(k + 1, j requires 0 <= j <= k => Where(t, j))
  }

  lemma TrackIsUnique(t: seq<nat>, k: nat, key: Key)
    requires Board(t) && k < |t| && KeyOk(key, k, |t|) && forall j :: 0 <= j <= k ==> t[key[j]] == j
    ensures key == Track(t, k)
  {
    forall j | 0 <= j <= k ensures key[j] == Track(t, k)[j] {
      assert t[key[j]] == t[Track(t, k)[j]];
    }
  }

  /** The blank moves to i; a tracked tile that was there takes the blank's place. */
  function Slide(key: Key, i: nat): (r: Key)
    requires |key| > 0
    ensures |r| == |key|
  {
    seq(|key|, j requires 0 <= j < |key| => if j == 0 then i else if key[j] == i then key[0] else key[j])
  }

  /** Projecting commutes with moving: the block of a child is found from the block
      of its parent alone. */
  lemma ChildProjectsToNeighbour(grid: Grid, t: seq<nat>, o: nat, n: nat, k: nat)
    requires StateOk(grid, t, o) && grid.Adjacent(o, n) && k < |t|
    ensures n < |t| && StateOk(grid, Child(t, o, n), n)
    ensures Track(t, k)[0] == o && Track(Child(t, o, n), k) == Slide(Track(t, k), n)
  {
    ChildIsBoard(grid, t, o, n);
    var key, c := Track(t, k), Child(t, o, n);
    assert key[0] == o;
    var r := Slide(key, n);
    SlideKeepsKey(key, n, k, |t|);
    forall j | 0 <= j <= k ensures c[r[j]] == j {
    }
    TrackIsUnique(c, k, r);
  }

  lemma SlideKeepsKey(key: Key, i: nat, k: nat, cells: nat)
    requires KeyOk(key, k, cells) && i < cells && i != key[0]
    ensures KeyOk(Slide(key, i), k, cells)
  {
  }

  /** The blank can slide back. */
  lemma SlideBack(key: Key, i: nat, k: nat, cells: nat)
    requires KeyOk(key, k, cells) && i < cells && i != key[0]
    ensures Slide(Slide(key, i), key[0]) == key && Slide(key, i)[0] == i
  {
  }

  /** One block follows another when the blank can move so. */
  ghost predicate Follows(grid: Grid, key: Key, next: Key)
    requires grid.Valid() && |key| > 0
  {
    |next| == |key| && grid.Adjacent(key[0], next[0]) && next == Slide(key, next[0])
  }

  lemma FollowsIsSymmetric(grid: Grid, k: nat, a: Key, b: Key)
    requires grid.Valid() && KeyOk(a, k, grid.Cells()) && KeyOk(b, k, grid.Cells())
    ensures Follows(grid, a, b) <==> Follows(grid, b, a)
  {
    if Follows(grid, a, b) { FollowsBack(grid, k, a, b); }
    if Follows(grid, b, a) { FollowsBack(grid, k, b, a); }
  }

  lemma FollowsBack(grid: Grid, k: nat, a: Key, b: Key)
    requires grid.Valid() && KeyOk(a, k, grid.Cells()) && Follows(grid, a, b)
    ensures Follows(grid, b, a)
  {
    grid.MoveStaysInGrid(a[0], b[0]);
    SlideBack(a, b[0], k, grid.Cells());
    grid.AdjacentIsSymmetric(a[0], b[0]);
  }

  // ---------- numbering the blocks ----------

  /** How many of the numbers below l are not in ex. */
  function Free(ex: set<nat>, l: nat): nat {
    l - Below(ex, l)
  }

  lemma FreeNext(ex: set<nat>, l: nat)
    ensures Free(ex, l + 1) == Free(ex, l) + if l in ex then 0 else 1
  {
  }

  lemma {:induction false} FreeAll(ex: set<nat>, n: nat)
    requires forall x :: x in ex ==> x < n
    ensures |ex| <= n && Free(ex, n) == n - |ex|
    decreases |ex|
  {
    if ex == {} {
      NothingBelow(n);
    } else {
      var x :| x in ex;
      FreeAll(ex - {x}, n);
      BelowGrows(ex - {x}, x, n);
      assert ex - {x} + {x} == ex;
    }
  }

  lemma FreeInRange(ex: set<nat>, l: nat, n: nat)
    requires l < n && l !in ex && forall x :: x in ex ==> x < n
    ensures Free(ex, l) + |ex| < n
  {
    FreeAll(ex, n);
    BelowGap(ex, l, n);
  }

  /** The number of ways to place m more tiles when `used` cells are taken. */
  function Ways(size: nat, used: nat, m: nat): (w: nat)
    decreases m
  {
    if m == 0 then 1
    else if size <= used then 0
    else
      var rest := Ways(size, used + 1, m - 1);
      ProductIsNat(size - used, rest);
      (size - used) * rest
  }

  /** One more free cell on this level leaves room for its blocks. */
  lemma RoomForOne(size: nat, used: nat, m: nat, free: nat)
    requires m > 0 && free + used < size
    ensures free * Ways(size, used + 1, m - 1) + Ways(size, used + 1, m - 1) <= Ways(size, used, m)
  {
    Scale(free, size - used - 1, Ways(size, used + 1, m - 1));
  }

  lemma OneMore(free: nat, w: nat)
    ensures (free + 1) * w == free * w + w
  {
  }

  lemma LevelDone(size: nat, used: nat, m: nat, ex: set<nat>)
    requires m > 0 && |ex| == used && forall x :: x in ex ==> x < size
    ensures used <= size && Free(ex, size) * Ways(size, used + 1, m - 1) == Ways(size, used, m)
  {
    FreeAll(ex, size);
  }

  /** The order in which nested loops come to the keys. */
  ghost predicate Lex(key: Key, at: Key)
    requires |key| == |at|
  {
    |key| > 0 && (key[0] < at[0] || (key[0] == at[0] && Lex(key[1..], at[1..])))
  }

  /** The innermost loop goes on by one. */
  lemma {:induction false} LexNext(key: Key, at: Key)
    requires |key| == |at| > 0
    ensures Lex(key, at[|at| - 1 := at[|at| - 1] + 1]) <==> Lex(key, at) || key == at
  {
    var n := |at| - 1;
    var next := at[n := at[n] + 1];
    if n > 0 {
      LexNext(key[1..], at[1..]);
      assert next[1..] == at[1..][n - 1 := at[1..][n - 1] + 1];
      assert key == [key[0]] + key[1..] && at == [at[0]] + at[1..];
    } else {
      assert key[0] == at[0] ==> key == at;
      assert !Lex(key[1..], at[1..]) && !Lex(key[1..], next[1..]);
    }
  }

  ghost predicate ZeroFrom(at: Key, p: nat) {
    forall q :: p <= q < |at| ==> at[q] == 0
  }

  lemma LexOfZero(key: Key, at: Key)
    requires |key| == |at| && ZeroFrom(at, 0)
    ensures !Lex(key, at)
  {
    if |at| > 0 {
      LexOfZero(key[1..], at[1..]);
    }
  }

  /** The end of loop p is the start of the next turn of the loop around it. */
  lemma {:induction false} LexCarry(key: Key, at: Key, p: nat)
    requires |key| == |at| && 0 < p < |at| && key[p] < at[p] && ZeroFrom(at, p + 1)
    ensures Lex(key, at) <==> Lex(key, at[p - 1 := at[p - 1] + 1][p := 0])
    decreases p
  {
    var next := at[p - 1 := at[p - 1] + 1][p := 0];
    if p == 1 {
      assert key[1..][0] < at[1..][0];
      LexOfZero(key[1..], next[1..]);
    } else {
      LexCarry(key[1..], at[1..], p - 1);
      assert next[1..] == at[1..][p - 2 := at[1..][p - 2] + 1][p - 1 := 0];
    }
  }

  ghost predicate Numbered(proj: map<Key, nat>, key: Key) {
    key in proj
  }

  /** proj and unproj are inverse, and number the first `id` blocks. */
  ghost predicate Inverse(proj: map<Key, nat>, unproj: seq<Key>, id: nat, m: nat, size: nat) {
    && id <= |unproj|
    && (forall b :: 0 <= b < id ==> KeyOk(unproj[b], m, size) && unproj[b] in proj && proj[unproj[b]] == b)
    && (forall key :: key in proj ==> proj[key] < id && unproj[proj[key]] == key)
  }

  /** Exactly the keys before `at` are numbered. */
  ghost predicate UpTo(proj: map<Key, nat>, m: nat, size: nat, at: Key) {
    && |at| == m + 1
    && forall key: Key {:trigger Numbered(proj, key)} ::
         Numbered(proj, key) <==> KeyOk(key, m, size) && Lex(key, at)
  }

  lemma StoreKeepsInverse(proj: map<Key, nat>, unproj: seq<Key>, id: nat, m: nat, size: nat, key: Key)
    requires Inverse(proj, unproj, id, m, size) && id < |unproj| && KeyOk(key, m, size) && key !in proj
    ensures Inverse(proj[key := id], unproj[id := key], id + 1, m, size)
  {
  }

  lemma {:induction false} LexIsStrict(at: Key)
    ensures !Lex(at, at)
  {
    if |at| > 0 { LexIsStrict(at[1..]); }
  }

  lemma StoreReaches(proj: map<Key, nat>, id: nat, m: nat, size: nat, at: Key)
    requires UpTo(proj, m, size, at) && KeyOk(at, m, size)
    ensures at !in proj && UpTo(proj[at := id], m, size, at[m := at[m] + 1])
  {
    LexIsStrict(at);
    assert !Numbered(proj, at);
    forall key: Key
      ensures Numbered(proj[at := id], key) <==> KeyOk(key, m, size) && Lex(key, at[m := at[m] + 1])
    {
      assert Numbered(proj, key) <==> KeyOk(key, m, size) && Lex(key, at);
      if KeyOk(key, m, size) { LexNext(key, at); }
    }
  }

  /** A tuple that is skipped is not a key. */
  lemma SkipReaches(proj: map<Key, nat>, m: nat, size: nat, at: Key)
    requires UpTo(proj, m, size, at) && !KeyOk(at, m, size)
    ensures UpTo(proj, m, size, at[m := at[m] + 1])
  {
    forall key: Key ensures Numbered(proj, key) <==> KeyOk(key, m, size) && Lex(key, at[m := at[m] + 1]) {
      assert Numbered(proj, key) <==> KeyOk(key, m, size) && Lex(key, at);
      if KeyOk(key, m, size) { LexNext(key, at); }
    }
  }

  lemma CarryReaches(proj: map<Key, nat>, m: nat, size: nat, at: Key, p: nat)
    requires UpTo(proj, m, size, at) && 0 < p <= m && at[p] == size && ZeroFrom(at, p + 1)
    ensures UpTo(proj, m, size, at[p - 1 := at[p - 1] + 1][p := 0])
  {
    var next := at[p - 1 := at[p - 1] + 1][p := 0];
    forall key: Key ensures Numbered(proj, key) <==> KeyOk(key, m, size) && Lex(key, next) {
      assert Numbered(proj, key) <==> KeyOk(key, m, size) && Lex(key, at);
      if KeyOk(key, m, size) { LexCarry(key, at, p); }
    }
  }

  // ---------- a finished table ----------

  /** Every block has exactly one number. */
  ghost predicate Table(grid: Grid, m: nat, proj: map<Key, nat>, unproj: seq<Key>) {
    && grid.Valid() && Inverse(proj, unproj, |unproj|, m, grid.Cells())
    && forall key: Key {:trigger Numbered(proj, key)} :: KeyOk(key, m, grid.Cells()) ==> Numbered(proj, key)
  }

  /** The loops have come to the end. */
  lemma EndIsTable(grid: Grid, m: nat, proj: map<Key, nat>, unproj: seq<Key>, at: Key)
    requires grid.Valid() && Inverse(proj, unproj, |unproj|, m, grid.Cells())
    requires UpTo(proj, m, grid.Cells(), at) && at[0] == grid.Cells()
    ensures Table(grid, m, proj, unproj)
  {
    forall key: Key | KeyOk(key, m, grid.Cells()) ensures Numbered(proj, key) {
      assert Lex(key, at);
    }
  }

  lemma HasNumber(grid: Grid, m: nat, proj: map<Key, nat>, unproj: seq<Key>, key: Key)
    requires Table(grid, m, proj, unproj) && KeyOk(key, m, grid.Cells())
    ensures key in proj && proj[key] < |unproj| && unproj[proj[key]] == key
  {
    assert Numbered(proj, key);
  }

  // ---------- lists of neighbours ----------

  /** The block after the blank of b moves to n is on the list. */
  ghost predicate Lists(unproj: seq<Key>, ret: seq<nat>, b: nat, n: nat)
    requires b < |unproj| && |unproj[b]| > 0
  {
    exists x :: 0 <= x < |ret| && ret[x] < |unproj| && unproj[ret[x]] == Slide(unproj[b], n)
  }

  /** All that is on the list follows b, and the moves in `done` are on it. */
  ghost predicate Listed(grid: Grid, unproj: seq<Key>, ret: seq<nat>, b: nat, done: set<nat>) {
    && grid.Valid() && b < |unproj| && |unproj[b]| > 0
    && (forall x :: 0 <= x < |ret| ==> ret[x] < |unproj| && Follows(grid, unproj[b], unproj[ret[x]]))
    && forall n {:trigger Lists(unproj, ret, b, n)} :: n in done ==> Lists(unproj, ret, b, n)
  }

  /** One direction of get_neighbors. */
  lemma ListsOneMore(grid: Grid, unproj: seq<Key>, ret: seq<nat>, b: nat, done: set<nat>, c: nat, n: nat)
    requires Listed(grid, unproj, ret, b, done) && grid.Adjacent(unproj[b][0], n)
    requires c < |unproj| && unproj[c] == Slide(unproj[b], n)
    ensures Listed(grid, unproj, ret + [c], b, done + {n})
  {
    var r := ret + [c];
    assert r[|ret|] == c;
    forall k | k in done + {n} ensures Lists(unproj, r, b, k) {
      if k != n {
        assert Lists(unproj, ret, b, k);
        var x :| 0 <= x < |ret| && ret[x] < |unproj| && unproj[ret[x]] == Slide(unproj[b], k);
        assert r[x] == ret[x];
      }
    }
  }

  /** The blocks found for all moves of the blank are the blocks that follow b. */
  lemma NeighborsAreComplete(
      grid: Grid, m: nat, proj: map<Key, nat>, unproj: seq<Key>, b: nat, ret: seq<nat>, done: set<nat>)
    requires Table(grid, m, proj, unproj) && Listed(grid, unproj, ret, b, done)
    requires forall n: nat :: grid.Adjacent(unproj[b][0], n) ==> n in done
    ensures forall c: nat :: c in ret <==> c < |unproj| && Follows(grid, unproj[b], unproj[c])
  {
    forall c: nat | c < |unproj| && Follows(grid, unproj[b], unproj[c]) ensures c in ret {
      assert Lists(unproj, ret, b, unproj[c][0]);
      var x :| 0 <= x < |ret| && ret[x] < |unproj| && unproj[ret[x]] == Slide(unproj[b], unproj[c][0]);
      assert proj[unproj[c]] == c && proj[unproj[ret[x]]] == ret[x];
    }
  }

  // ---------- what PBNF assumes of a projection ----------

  /** The neighbour lists of all blocks, as get_neighbors computes them. */
  ghost predicate NeighborLists(grid: Grid, unproj: seq<Key>, ns: seq<seq<nat>>) {
    && grid.Valid() && |ns| == |unproj|
    && forall b: nat :: b < |unproj| ==>
         forall c: nat :: c in ns[b] <==> c < |unproj| && |unproj[b]| > 0 && Follows(grid, unproj[b], unproj[c])
  }

  /** Successors and predecessors are converse, as the scheduler needs. */
  lemma ProjectionIsWellFormed(grid: Grid, m: nat, proj: map<Key, nat>, unproj: seq<Key>, ns: seq<seq<nat>>)
    requires Table(grid, m, proj, unproj) && NeighborLists(grid, unproj, ns)
    ensures NBlocks.WellFormed(NBlocks.Projection(ns, ns))
  {
    forall b: nat, c: nat | b < |ns| && c < |ns| ensures c in ns[b] <==> b in ns[c] {
      FollowsIsSymmetric(grid, m, unproj[b], unproj[c]);
    }
    forall b: nat | b < |ns| ensures NBlocks.InRange(ns[b], |ns|) {
      forall i | 0 <= i < |ns[b]| ensures ns[b][i] < |ns| {
        assert ns[b][i] in ns[b];
      }
    }
  }

  /** A worker that expands boards of block b finds every child in a neighbour of b. */
  lemma ChildrenStayInScope(grid: Grid, m: nat, proj: map<Key, nat>, unproj: seq<Key>, ns: seq<seq<nat>>,
                            t: seq<nat>, o: nat, n: nat, b: nat, c: nat)
    requires Table(grid, m, proj, unproj) && NeighborLists(grid, unproj, ns)
    requires StateOk(grid, t, o) && grid.Adjacent(o, n) && m < |t|
    requires n < |t| && b < |unproj| && unproj[b] == Track(t, m)
    requires Board(Child(t, o, n)) && c < |unproj| && unproj[c] == Track(Child(t, o, n), m)
    ensures c in ns[b] && c != b
  {
    ChildProjectsToNeighbour(grid, t, o, n, m);
    ChildIsBoard(grid, t, o, n);
  }

  /** Every block has a neighbour other than itself, so none is isolated. */
  lemma NoBlockIsIsolated(grid: Grid, m: nat, proj: map<Key, nat>, unproj: seq<Key>, ns: seq<seq<nat>>, b: nat)
      returns (c: nat)
    requires Table(grid, m, proj, unproj) && NeighborLists(grid, unproj, ns) && b < |unproj| && m >= 1
    ensures c < |unproj| && c in ns[b] && c != b && c in NBlocks.Projection(ns, ns).preds[b]
  {
    var key := unproj[b];
    var n := SomeMove(grid, key, m);
    grid.MoveStaysInGrid(key[0], n);
    SlideKeepsKey(key, n, m, grid.Cells());
    HasNumber(grid, m, proj, unproj, Slide(key, n));
    c := proj[Slide(key, n)];
    assert unproj[c][0] == n;
  }

  /** A tile projection meets what the scheduler assumes: scopes are symmetric and none
      is empty. */
  lemma MeetsSchedulerAssumptions(grid: Grid, m: nat, proj: map<Key, nat>, unproj: seq<Key>, ns: seq<seq<nat>>,
                                  scope: seq<seq<nat>>)
    requires Table(grid, m, proj, unproj) && NeighborLists(grid, unproj, ns) && m >= 1
    requires NBlocks.ScopesOk(NBlocks.Projection(ns, ns), scope)
    ensures NBlocks.Symmetric(scope) && NBlockScheduler.NoneIsolated(scope)
  {
    var p := NBlocks.Projection(ns, ns);
    NBlocks.ScopesAreSymmetric(p, scope);
    forall b: nat | b < |scope| ensures scope[b] != [] {
      var c := NoBlockIsIsolated(grid, m, proj, unproj, ns, b);
      assert NBlocks.Interferes(p, b, c) && c in scope[b];
    }
  }

  /** Two distinct cells leave the blank somewhere to go. */
  lemma SomeMove(grid: Grid, key: Key, m: nat) returns (n: nat)
    requires grid.Valid() && KeyOk(key, m, grid.Cells()) && m >= 1
    ensures grid.Adjacent(key[0], n)
  {
    var a, b := key[0], key[1];
    DivisionSplits(a, grid.width);
    DivisionSplits(b, grid.width);
    grid.RowInGrid(a);
    grid.RowInGrid(b);
    if grid.Col(a) > 0 {
      n := a - 1;
    } else if grid.Col(a) < grid.width - 1 {
      n := a + 1;
    } else if grid.Row(a) > 0 {
      RowAbove(grid, a);
      n := a - grid.width;
    } else {
      n := a + grid.width;
    }
  }
}
