/** The tables of the projections that track one, two and three tiles, as their nested
    loops fill them, and the lookups in them. */
module TileProjects {
  import opened Numbers
  import opened TileHash
  import opened TileBoards
  import opened TileProjection

  /** The loops have come to `at`, with id blocks numbered. */
  ghost predicate Filled(grid: Grid, m: nat, proj: map<Key, nat>, unproj: seq<Key>, id: nat, at: Key) {
    && grid.Valid() && Inverse(proj, unproj, id, m, grid.Cells()) && UpTo(proj, m, grid.Cells(), at)
  }

  lemma NothingFilled(grid: Grid, m: nat, unproj: seq<Key>, at: Key)
    requires grid.Valid() && |at| == m + 1 && ZeroFrom(at, 0)
    ensures Filled(grid, m, map[], unproj, 0, at)
  {
    forall key: Key ensures Numbered(map[], key) <==> KeyOk(key, m, grid.Cells()) && Lex(key, at) {
      if KeyOk(key, m, grid.Cells()) { LexOfZero(key, at); }
    }
  }

  /** A tuple is numbered. */
  lemma Stored(grid: Grid, m: nat, proj: map<Key, nat>, unproj: seq<Key>, id: nat, at: Key)
    requires Filled(grid, m, proj, unproj, id, at) && KeyOk(at, m, grid.Cells()) && id < |unproj|
    ensures Filled(grid, m, proj[at := id], unproj[id := at], id + 1, at[m := at[m] + 1])
  {
    StoreReaches(proj, id, m, grid.Cells(), at);
    StoreKeepsInverse(proj, unproj, id, m, grid.Cells(), at);
  }

  lemma Skipped(grid: Grid, m: nat, proj: map<Key, nat>, unproj: seq<Key>, id: nat, at: Key)
    requires Filled(grid, m, proj, unproj, id, at) && !KeyOk(at, m, grid.Cells())
    ensures Filled(grid, m, proj, unproj, id, at[m := at[m] + 1])
  {
    SkipReaches(proj, m, grid.Cells(), at);
  }

  lemma Carried(grid: Grid, m: nat, proj: map<Key, nat>, unproj: seq<Key>, id: nat, at: Key, p: nat)
    requires Filled(grid, m, proj, unproj, id, at) && 0 < p <= m && at[p] == grid.Cells() && ZeroFrom(at, p + 1)
    ensures Filled(grid, m, proj, unproj, id, at[p - 1 := at[p - 1] + 1][p := 0])
  {
    CarryReaches(proj, m, grid.Cells(), at, p);
  }

  lemma NothingListed(grid: Grid, m: nat, proj: map<Key, nat>, keys: seq<Key>, b: nat)
    requires Table(grid, m, proj, keys) && b < |keys|
    ensures KeyOk(keys[b], m, grid.Cells()) && |keys[b]| == m + 1 && keys[b][0] < grid.Cells()
    ensures grid.Valid() && Listed(grid, keys, [], b, {})
  {
  }

  lemma ColumnBefore(grid: Grid, blank: nat)
    requires grid.Valid() && grid.Col(blank) > 0
    ensures blank > 0
  {
  }

  /** The four tests of get_neighbors miss no direction. */
  lemma EveryDirection(grid: Grid, blank: nat, done: set<nat>)
    requires grid.Valid()
    requires grid.Col(blank) > 0 ==> blank > 0 && blank - 1 in done
    requires grid.Col(blank) < grid.width - 1 ==> blank + 1 in done
    requires grid.Row(blank) > 0 ==> blank >= grid.width && blank - grid.width in done
    requires grid.Row(blank) < grid.height - 1 ==> blank + grid.width in done
    ensures forall n: nat :: grid.Adjacent(blank, n) ==> n in done
  {
    hide Grid.Row, Grid.Col;
  }

  lemma TwoDistinct(i: nat, j: nat, size: nat)
    requires i < size && j < size
    ensures KeyOk([i, j], 1, size) <==> i != j
  {
    var key := [i, j];
    if KeyOk(key, 1, size) { assert key[0] != key[1]; }
  }

  lemma ThreeDistinct(i: nat, j: nat, k: nat, size: nat)
    requires i < size && j < size && k < size
    ensures KeyOk([i, j, k], 2, size) <==> i != j && k !in {i, j}
  {
    var key := [i, j, k];
    if KeyOk(key, 2, size) { assert key[0] != key[1] && key[0] != key[2] && key[1] != key[2]; }
  }

  lemma FourDistinct(i: nat, j: nat, k: nat, l: nat, size: nat)
    requires i < size && j < size && k < size && l < size
    ensures KeyOk([i, j, k, l], 3, size) <==> i != j && k !in {i, j} && l !in {i, j, k}
  {
    var key := [i, j, k, l];
    if KeyOk(key, 3, size) {
      assert key[0] != key[1] && key[0] != key[2] && key[0] != key[3];
      assert key[1] != key[2] && key[1] != key[3] && key[2] != key[3];
    }
  }

  class OneTileProject {
    const grid: Grid
    var nnblocks: nat
    var proj: map<Key, nat>
    var unproj: array<Key>

    ghost predicate Filling(id: nat, at: Key)
      reads this, unproj
    {
      unproj.Length == nnblocks && Filled(grid, 1, proj, unproj[..], id, at)
    }

    /** Every block has exactly one number below nnblocks. */
    ghost predicate Valid()
      reads this, unproj
    {
      unproj.Length == nnblocks == Ways(grid.Cells(), 0, 2) && Table(grid, 1, proj, unproj[..])
    }

    constructor (grid: Grid)
      requires grid.Valid()
      ensures Valid() && this.grid == grid && fresh(unproj)
    {
      this.grid := grid;
      proj := map[];
      var size := grid.Cells();
      var blocks := Ways(size, 0, 2);
      nnblocks := blocks;
      unproj := new Key[blocks](_ => []);
      new;
      NothingFilled(grid, 1, unproj[..], [0, 0]);
      var id, i := 0, 0;
      while i < size
        invariant 0 <= i <= size && fresh(unproj) && nnblocks == Ways(size, 0, 2)
        invariant Filling(id, [i, 0]) && id == i * Ways(size, 1, 1)
      {
        RoomForOne(size, 0, 2, i);
        id := FillBlank(i, id);
        OneMore(i, Ways(size, 1, 1));
        Carried(grid, 1, proj, unproj[..], id, [i, size], 1);
        assert [i, size][0 := i + 1][1 := 0] == [i + 1, 0];
        i := i + 1;
      }
      EndIsTable(grid, 1, proj, unproj[..], [size, 0]);
    }

    method FillBlank(i: nat, start: nat) returns (id: nat)
      requires Filling(start, [i, 0]) && i < grid.Cells() && start + Ways(grid.Cells(), 1, 1) <= nnblocks
      modifies this`proj, unproj
      ensures Filling(id, [i, grid.Cells()]) && id == start + Ways(grid.Cells(), 1, 1)
    {
      var size := grid.Cells();
      var j := 0;
      id := start;
      while j < size
        invariant 0 <= j <= size
        invariant Filling(id, [i, j]) && id == start + Free({i}, j)
      {
        FreeNext({i}, j);
        TwoDistinct(i, j, size);
        assert [i, j][1 := j + 1] == [i, j + 1];
        if i == j {
          Skipped(grid, 1, proj, unproj[..], id, [i, j]);
        } else {
          FreeInRange({i}, j, size);
          Stored(grid, 1, proj, unproj[..], id, [i, j]);
          ghost var was := unproj[..];
          proj := proj[[i, j] := id];
          unproj[id] := [i, j];
          assert unproj[..] == was[id := [i, j]];
          id := id + 1;
        }
        j := j + 1;
      }
      FreeAll({i}, size);
    }

    /** project: the number of the block a board belongs to. */
    method Project(t: seq<nat>) returns (b: nat)
      requires Valid() && Board(t) && |t| == grid.Cells() && |t| >= 2
      ensures b < nnblocks && unproj[b] == Track(t, 1)
    {
      hide Table, Ways, Board, Where;
      var blank, one := 0, 0;
      var i := 0;
      while i < |t|
        invariant 0 <= i <= |t| && blank < |t| && one < |t|
        invariant t[blank] == 0 || forall k :: 0 <= k < i ==> t[k] != 0
        invariant t[one] == 1 || forall k :: 0 <= k < i ==> t[k] != 1
      {
        if t[i] == 0 {
          blank := i;
        } else if t[i] == 1 {
          one := i;
        }
        i := i + 1;
      }
      ghost var key := Track(t, 1);
      assert t[key[0]] == 0 && t[key[1]] == 1;
      TrackIsUnique(t, 1, [blank, one]);
      HasNumber(grid, 1, proj, unproj[..], [blank, one]);
      b := proj[[blank, one]];
    }

    /** The block reached when the blank moves to newBlank. */
    method GetNeighbor(blank: nat, one: nat, newBlank: nat) returns (b: nat)
      requires Valid() && KeyOk([blank, one], 1, grid.Cells())
      requires newBlank < grid.Cells() && newBlank != blank
      ensures b < nnblocks && unproj[b] == Slide([blank, one], newBlank)
    {
      ghost var key := [blank, one];
      SlideKeepsKey(key, newBlank, 1, grid.Cells());
      var next := if one == newBlank then [one, blank] else [newBlank, one];
      assert key[0] == blank && key[1] == one;
      assert next == Slide(key, newBlank);
      HasNumber(grid, 1, proj, unproj[..], next);
      b := proj[next];
    }

    /** One direction of get_neighbors. */
    method PushNeighbor(ret: seq<nat>, b: nat, n: nat, ghost done: set<nat>) returns (r: seq<nat>)
      requires Valid() && b < nnblocks && Listed(grid, unproj[..], ret, b, done) && grid.Adjacent(unproj[b][0], n)
      ensures Listed(grid, unproj[..], r, b, done + {n})
    {
      var key := unproj[b];
      assert key == unproj[..][b] && KeyOk(key, 1, grid.Cells());
      assert key == [key[0], key[1]];
      grid.MoveStaysInGrid(key[0], n);
      var c := GetNeighbor(key[0], key[1], n);
      r := ret + [c];
      ListsOneMore(grid, unproj[..], ret, b, done, c, n);
    }

    /** get_neighbors, which is both get_successors and get_predecessors. */
    method GetNeighbors(b: nat) returns (ret: seq<nat>)
      requires Valid() && b < nnblocks
      ensures |unproj[b]| > 0 && forall c: nat :: c in ret <==> c < nnblocks && Follows(grid, unproj[b], unproj[c])
    {
      ghost var keys := unproj[..];
      NothingListed(grid, 1, proj, keys, b);
      hide Listed, Follows, Table, KeyOk, Inverse, Grid.Row, Grid.Col;
      var blank := unproj[b][0];
      var col, row := grid.Col(blank), grid.Row(blank);
      ret := [];
      ghost var done: set<nat> := {};
      if col > 0 {
        ColumnBefore(grid, blank);
        ret := PushNeighbor(ret, b, blank - 1, done);
        done := done + {blank - 1};
      }
      if col < grid.width - 1 {
        ret := PushNeighbor(ret, b, blank + 1, done);
        done := done + {blank + 1};
      }
      if row > 0 {
        RowAbove(grid, blank);
        ret := PushNeighbor(ret, b, blank - grid.width, done);
        done := done + {blank - grid.width};
      }
      if row < grid.height - 1 {
        ret := PushNeighbor(ret, b, blank + grid.width, done);
        done := done + {blank + grid.width};
      }
      EveryDirection(grid, blank, done);
      NeighborsAreComplete(grid, 1, proj, keys, b, ret, done);
    }
  }

  class TwoTileProject {
    const grid: Grid
    var nnblocks: nat
    var proj: map<Key, nat>
    var unproj: array<Key>

    ghost predicate Filling(id: nat, at: Key)
      reads this, unproj
    {
      unproj.Length == nnblocks && Filled(grid, 2, proj, unproj[..], id, at)
    }

    /** Every block has exactly one number below nnblocks. */
    ghost predicate Valid()
      reads this, unproj
    {
      unproj.Length == nnblocks == Ways(grid.Cells(), 0, 3) && Table(grid, 2, proj, unproj[..])
    }

    constructor (grid: Grid)
      requires grid.Valid()
      ensures Valid() && this.grid == grid && fresh(unproj)
    {
      this.grid := grid;
      proj := map[];
      var size := grid.Cells();
      var blocks := Ways(size, 0, 3);
      nnblocks := blocks;
      unproj := new Key[blocks](_ => []);
      new;
      NothingFilled(grid, 2, unproj[..], [0, 0, 0]);
      var id, i := 0, 0;
      while i < size
        invariant 0 <= i <= size && fresh(unproj) && nnblocks == Ways(size, 0, 3)
        invariant Filling(id, [i, 0, 0]) && id == i * Ways(size, 1, 2)
      {
        RoomForOne(size, 0, 3, i);
        id := FillBlank(i, id);
        OneMore(i, Ways(size, 1, 2));
        Carried(grid, 2, proj, unproj[..], id, [i, size, 0], 1);
        assert [i, size, 0][0 := i + 1][1 := 0] == [i + 1, 0, 0];
        i := i + 1;
      }
      EndIsTable(grid, 2, proj, unproj[..], [size, 0, 0]);
    }

    method FillBlank(i: nat, start: nat) returns (id: nat)
      requires Filling(start, [i, 0, 0]) && i < grid.Cells() && start + Ways(grid.Cells(), 1, 2) <= nnblocks
      modifies this`proj, unproj
      ensures Filling(id, [i, grid.Cells(), 0]) && id == start + Ways(grid.Cells(), 1, 2)
    {
      var size := grid.Cells();
      var j := 0;
      id := start;
      while j < size
        invariant 0 <= j <= size
        invariant Filling(id, [i, j, 0]) && id == start + Free({i}, j) * Ways(size, 2, 1)
      {
        if i != j {
          FreeInRange({i}, j, size);
          RoomForOne(size, 1, 2, Free({i}, j));
        }
        id := FillOne(i, j, id);
        FreeNext({i}, j);
        OneMore(Free({i}, j), Ways(size, 2, 1));
        Carried(grid, 2, proj, unproj[..], id, [i, j, size], 2);
        assert [i, j, size][1 := j + 1][2 := 0] == [i, j + 1, 0];
        j := j + 1;
      }
      LevelDone(size, 1, 2, {i});
    }

    method FillOne(i: nat, j: nat, start: nat) returns (id: nat)
      requires Filling(start, [i, j, 0]) && i < grid.Cells() && j < grid.Cells()
      requires i != j ==> start + Ways(grid.Cells(), 2, 1) <= nnblocks
      modifies this`proj, unproj
      ensures Filling(id, [i, j, grid.Cells()])
      ensures id == start + if i != j then Ways(grid.Cells(), 2, 1) else 0
    {
      var size := grid.Cells();
      var k := 0;
      id := start;
      while k < size
        invariant 0 <= k <= size
        invariant Filling(id, [i, j, k]) && id == start + if i != j then Free({i, j}, k) else 0
      {
        if i != j && k !in {i, j} { FreeInRange({i, j}, k, size); }
        var used := SetupProj(id, i, j, k);
        FreeNext({i, j}, k);
        id := id + used;
        k := k + 1;
      }
      if i != j { FreeAll({i, j}, size); }
    }

    /** setup_proj: numbers one tuple, unless a position occurs twice. */
    method SetupProj(id: nat, i: nat, j: nat, k: nat) returns (used: nat)
      requires Filling(id, [i, j, k]) && i < grid.Cells() && j < grid.Cells() && k < grid.Cells()
      requires i != j && k !in {i, j} ==> id < nnblocks
      modifies this`proj, unproj
      ensures used == if i != j && k !in {i, j} then 1 else 0
      ensures Filling(id + used, [i, j, k + 1])
    {
      ThreeDistinct(i, j, k, grid.Cells());
      var key: Key := [i, j, k];
      assert key[2 := k + 1] == [i, j, k + 1];
      if i == j || i == k || j == k {
        Skipped(grid, 2, proj, unproj[..], id, key);
        return 0;
      }
      Stored(grid, 2, proj, unproj[..], id, key);
      ghost var was := unproj[..];
      proj := proj[key := id];
      unproj[id] := key;
      assert unproj[..] == was[id := key];
      return 1;
    }

    /** project: the number of the block a board belongs to. */
    method Project(t: seq<nat>) returns (b: nat)
      requires Valid() && Board(t) && |t| == grid.Cells() && |t| >= 3
      ensures b < nnblocks && unproj[b] == Track(t, 2)
    {
      hide Table, Ways, Board, Where;
      var blank, one, two := 0, 0, 0;
      var i := 0;
      while i < |t|
        invariant 0 <= i <= |t| && blank < |t| && one < |t| && two < |t|
        invariant t[blank] == 0 || forall k :: 0 <= k < i ==> t[k] != 0
        invariant t[one] == 1 || forall k :: 0 <= k < i ==> t[k] != 1
        invariant t[two] == 2 || forall k :: 0 <= k < i ==> t[k] != 2
      {
        if t[i] == 0 {
          blank := i;
        } else if t[i] == 1 {
          one := i;
        } else if t[i] == 2 {
          two := i;
        }
        i := i + 1;
      }
      ghost var key := Track(t, 2);
      assert t[key[0]] == 0 && t[key[1]] == 1 && t[key[2]] == 2;
      TrackIsUnique(t, 2, [blank, one, two]);
      HasNumber(grid, 2, proj, unproj[..], [blank, one, two]);
      b := proj[[blank, one, two]];
    }

    /** The block reached when the blank moves to newBlank. */
    method GetNeighbor(blank: nat, one: nat, two: nat, newBlank: nat) returns (b: nat)
      requires Valid() && KeyOk([blank, one, two], 2, grid.Cells())
      requires newBlank < grid.Cells() && newBlank != blank
      ensures b < nnblocks && unproj[b] == Slide([blank, one, two], newBlank)
    {
      ghost var key := [blank, one, two];
      SlideKeepsKey(key, newBlank, 2, grid.Cells());
      var next: Key;
      if one == newBlank {
        next := [one, blank, two];
      } else if two == newBlank {
        next := [two, one, blank];
      } else {
        next := [newBlank, one, two];
      }
      ThreeDistinct(blank, one, two, grid.Cells());
      assert key[0] == blank && key[1] == one && key[2] == two;
      assert next == Slide(key, newBlank);
      HasNumber(grid, 2, proj, unproj[..], next);
      b := proj[next];
    }

    /** One direction of get_neighbors. */
    method PushNeighbor(ret: seq<nat>, b: nat, n: nat, ghost done: set<nat>) returns (r: seq<nat>)
      requires Valid() && b < nnblocks && Listed(grid, unproj[..], ret, b, done) && grid.Adjacent(unproj[b][0], n)
      ensures Listed(grid, unproj[..], r, b, done + {n})
    {
      var key := unproj[b];
      assert key == unproj[..][b] && KeyOk(key, 2, grid.Cells());
      assert key == [key[0], key[1], key[2]];
      grid.MoveStaysInGrid(key[0], n);
      var c := GetNeighbor(key[0], key[1], key[2], n);
      r := ret + [c];
      ListsOneMore(grid, unproj[..], ret, b, done, c, n);
    }

    /** get_neighbors, which is both get_successors and get_predecessors. */
    method GetNeighbors(b: nat) returns (ret: seq<nat>)
      requires Valid() && b < nnblocks
      ensures |unproj[b]| > 0 && forall c: nat :: c in ret <==> c < nnblocks && Follows(grid, unproj[b], unproj[c])
    {
      ghost var keys := unproj[..];
      NothingListed(grid, 2, proj, keys, b);
      hide Listed, Follows, Table, KeyOk, Inverse, Grid.Row, Grid.Col;
      var blank := unproj[b][0];
      var col, row := grid.Col(blank), grid.Row(blank);
      ret := [];
      ghost var done: set<nat> := {};
      if col > 0 {
        ColumnBefore(grid, blank);
        ret := PushNeighbor(ret, b, blank - 1, done);
        done := done + {blank - 1};
      }
      if col < grid.width - 1 {
        ret := PushNeighbor(ret, b, blank + 1, done);
        done := done + {blank + 1};
      }
      if row > 0 {
        RowAbove(grid, blank);
        ret := PushNeighbor(ret, b, blank - grid.width, done);
        done := done + {blank - grid.width};
      }
      if row < grid.height - 1 {
        ret := PushNeighbor(ret, b, blank + grid.width, done);
        done := done + {blank + grid.width};
      }
      EveryDirection(grid, blank, done);
      NeighborsAreComplete(grid, 2, proj, keys, b, ret, done);
    }
  }

  class ThreeTileProject {
    const grid: Grid
    var nnblocks: nat
    var proj: map<Key, nat>
    var unproj: array<Key>

    ghost predicate Filling(id: nat, at: Key)
      reads this, unproj
    {
      unproj.Length == nnblocks && Filled(grid, 3, proj, unproj[..], id, at)
    }

    /** Every block has exactly one number below nnblocks. */
    ghost predicate Valid()
      reads this, unproj
    {
      unproj.Length == nnblocks == Ways(grid.Cells(), 0, 4) && Table(grid, 3, proj, unproj[..])
    }

    constructor (grid: Grid)
      requires grid.Valid()
      ensures Valid() && this.grid == grid && fresh(unproj)
    {
      this.grid := grid;
      proj := map[];
      var size := grid.Cells();
      var blocks := Ways(size, 0, 4);
      nnblocks := blocks;
      unproj := new Key[blocks](_ => []);
      new;
      NothingFilled(grid, 3, unproj[..], [0, 0, 0, 0]);
      var id, i := 0, 0;
      while i < size
        invariant 0 <= i <= size && fresh(unproj) && nnblocks == Ways(size, 0, 4)
        invariant Filling(id, [i, 0, 0, 0]) && id == i * Ways(size, 1, 3)
      {
        RoomForOne(size, 0, 4, i);
        id := FillBlank(i, id);
        OneMore(i, Ways(size, 1, 3));
        Carried(grid, 3, proj, unproj[..], id, [i, size, 0, 0], 1);
        assert [i, size, 0, 0][0 := i + 1][1 := 0] == [i + 1, 0, 0, 0];
        i := i + 1;
      }
      EndIsTable(grid, 3, proj, unproj[..], [size, 0, 0, 0]);
    }

    method FillBlank(i: nat, start: nat) returns (id: nat)
      requires Filling(start, [i, 0, 0, 0]) && i < grid.Cells() && start + Ways(grid.Cells(), 1, 3) <= nnblocks
      modifies this`proj, unproj
      ensures Filling(id, [i, grid.Cells(), 0, 0]) && id == start + Ways(grid.Cells(), 1, 3)
    {
      var size := grid.Cells();
      var j := 0;
      id := start;
      while j < size
        invariant 0 <= j <= size
        invariant Filling(id, [i, j, 0, 0]) && id == start + Free({i}, j) * Ways(size, 2, 2)
      {
        if i != j {
          FreeInRange({i}, j, size);
          RoomForOne(size, 1, 3, Free({i}, j));
        }
        id := FillOne(i, j, id);
        FreeNext({i}, j);
        OneMore(Free({i}, j), Ways(size, 2, 2));
        Carried(grid, 3, proj, unproj[..], id, [i, j, size, 0], 2);
        assert [i, j, size, 0][1 := j + 1][2 := 0] == [i, j + 1, 0, 0];
        j := j + 1;
      }
      LevelDone(size, 1, 3, {i});
    }

    method FillOne(i: nat, j: nat, start: nat) returns (id: nat)
      requires Filling(start, [i, j, 0, 0]) && i < grid.Cells() && j < grid.Cells()
      requires i != j ==> start + Ways(grid.Cells(), 2, 2) <= nnblocks
      modifies this`proj, unproj
      ensures Filling(id, [i, j, grid.Cells(), 0])
      ensures id == start + if i != j then Ways(grid.Cells(), 2, 2) else 0
    {
      var size := grid.Cells();
      var k := 0;
      id := start;
      while k < size
        invariant 0 <= k <= size
        invariant Filling(id, [i, j, k, 0])
        invariant id == start + if i != j then Free({i, j}, k) * Ways(size, 3, 1) else 0
      {
        if i != j && k !in {i, j} {
          FreeInRange({i, j}, k, size);
          RoomForOne(size, 2, 2, Free({i, j}, k));
        }
        id := FillTwo(i, j, k, id);
        FreeNext({i, j}, k);
        OneMore(Free({i, j}, k), Ways(size, 3, 1));
        Carried(grid, 3, proj, unproj[..], id, [i, j, k, size], 3);
        assert [i, j, k, size][2 := k + 1][3 := 0] == [i, j, k + 1, 0];
        k := k + 1;
      }
      if i != j { LevelDone(size, 2, 2, {i, j}); }
    }

    method FillTwo(i: nat, j: nat, k: nat, start: nat) returns (id: nat)
      requires Filling(start, [i, j, k, 0]) && i < grid.Cells() && j < grid.Cells() && k < grid.Cells()
      requires i != j && k !in {i, j} ==> start + Ways(grid.Cells(), 3, 1) <= nnblocks
      modifies this`proj, unproj
      ensures Filling(id, [i, j, k, grid.Cells()])
      ensures id == start + if i != j && k !in {i, j} then Ways(grid.Cells(), 3, 1) else 0
    {
      var size := grid.Cells();
      var l := 0;
      id := start;
      while l < size
        invariant 0 <= l <= size
        invariant Filling(id, [i, j, k, l])
        invariant id == start + if i != j && k !in {i, j} then Free({i, j, k}, l) else 0
      {
        if i != j && k !in {i, j} && l !in {i, j, k} { FreeInRange({i, j, k}, l, size); }
        var used := SetupProj(id, i, j, k, l);
        FreeNext({i, j, k}, l);
        id := id + used;
        l := l + 1;
      }
      if i != j && k !in {i, j} { FreeAll({i, j, k}, size); }
    }

    /** setup_proj: numbers one tuple, unless a position occurs twice. */
    method SetupProj(id: nat, i: nat, j: nat, k: nat, l: nat) returns (used: nat)
      requires Filling(id, [i, j, k, l])
      requires i < grid.Cells() && j < grid.Cells() && k < grid.Cells() && l < grid.Cells()
      requires i != j && k !in {i, j} && l !in {i, j, k} ==> id < nnblocks
      modifies this`proj, unproj
      ensures used == if i != j && k !in {i, j} && l !in {i, j, k} then 1 else 0
      ensures Filling(id + used, [i, j, k, l + 1])
    {
      FourDistinct(i, j, k, l, grid.Cells());
      var key: Key := [i, j, k, l];
      assert key[3 := l + 1] == [i, j, k, l + 1];
      if i == j || i == k || i == l || j == k || j == l || l == k {
        Skipped(grid, 3, proj, unproj[..], id, key);
        return 0;
      }
      Stored(grid, 3, proj, unproj[..], id, key);
      ghost var was := unproj[..];
      proj := proj[key := id];
      unproj[id] := key;
      assert unproj[..] == was[id := key];
      return 1;
    }

    /** project: the number of the block a board belongs to. */
    method Project(t: seq<nat>) returns (b: nat)
      requires Valid() && Board(t) && |t| == grid.Cells() && |t| >= 4
      ensures b < nnblocks && unproj[b] == Track(t, 3)
    {
      hide Table, Ways, Board, Where;
      var blank, one, two, three := 0, 0, 0, 0;
      var i := 0;
      while i < |t|
        invariant 0 <= i <= |t| && blank < |t| && one < |t| && two < |t| && three < |t|
        invariant t[blank] == 0 || forall k :: 0 <= k < i ==> t[k] != 0
        invariant t[one] == 1 || forall k :: 0 <= k < i ==> t[k] != 1
        invariant t[two] == 2 || forall k :: 0 <= k < i ==> t[k] != 2
        invariant t[three] == 3 || forall k :: 0 <= k < i ==> t[k] != 3
      {
        if t[i] == 0 {
          blank := i;
        } else if t[i] == 1 {
          one := i;
        } else if t[i] == 2 {
          two := i;
        } else if t[i] == 3 {
          three := i;
        }
        i := i + 1;
      }
      ghost var key := Track(t, 3);
      assert t[key[0]] == 0 && t[key[1]] == 1 && t[key[2]] == 2 && t[key[3]] == 3;
      TrackIsUnique(t, 3, [blank, one, two, three]);
      HasNumber(grid, 3, proj, unproj[..], [blank, one, two, three]);
      b := proj[[blank, one, two, three]];
    }

    /** get_neighbor: the block reached when the blank moves to newBlank. */
    method GetNeighbor(blank: nat, one: nat, two: nat, three: nat, newBlank: nat) returns (b: nat)
      requires Valid() && KeyOk([blank, one, two, three], 3, grid.Cells())
      requires newBlank < grid.Cells() && newBlank != blank
      ensures b < nnblocks && unproj[b] == Slide([blank, one, two, three], newBlank)
    {
      ghost var key := [blank, one, two, three];
      SlideKeepsKey(key, newBlank, 3, grid.Cells());
      var next: Key;
      if one == newBlank {
        next := [one, blank, two, three];
      } else if two == newBlank {
        next := [two, one, blank, three];
      } else if three == newBlank {
        next := [three, one, two, blank];
      } else {
        next := [newBlank, one, two, three];
      }
      ghost var r := Slide(key, newBlank);
      assert key[0] == blank && key[1] == one && key[2] == two && key[3] == three;
      assert one != two && one != three && two != three by {
        FourDistinct(blank, one, two, three, grid.Cells());
      }
      assert r[0] == next[0] && r[1] == next[1] && r[2] == next[2] && r[3] == next[3];
      assert next == r;
      HasNumber(grid, 3, proj, unproj[..], next);
      b := proj[next];
    }

    /** One direction of get_neighbors. */
    method PushNeighbor(ret: seq<nat>, b: nat, n: nat, ghost done: set<nat>) returns (r: seq<nat>)
      requires Valid() && b < nnblocks && Listed(grid, unproj[..], ret, b, done) && grid.Adjacent(unproj[b][0], n)
      ensures Listed(grid, unproj[..], r, b, done + {n})
    {
      var key := unproj[b];
      assert key == unproj[..][b] && KeyOk(key, 3, grid.Cells());
      assert key == [key[0], key[1], key[2], key[3]];
      grid.MoveStaysInGrid(key[0], n);
      var c := GetNeighbor(key[0], key[1], key[2], key[3], n);
      r := ret + [c];
      ListsOneMore(grid, unproj[..], ret, b, done, c, n);
    }

    /** get_neighbors, which is both get_successors and get_predecessors. */
    method GetNeighbors(b: nat) returns (ret: seq<nat>)
      requires Valid() && b < nnblocks
      ensures |unproj[b]| > 0 && forall c: nat :: c in ret <==> c < nnblocks && Follows(grid, unproj[b], unproj[c])
    {
      ghost var keys := unproj[..];
      NothingListed(grid, 3, proj, keys, b);
      hide Listed, Follows, Table, KeyOk, Inverse, Grid.Row, Grid.Col;
      var blank := unproj[b][0];
      var col, row := grid.Col(blank), grid.Row(blank);
      ret := [];
      ghost var done: set<nat> := {};
      if col > 0 {
        ColumnBefore(grid, blank);
        ret := PushNeighbor(ret, b, blank - 1, done);
        done := done + {blank - 1};
      }
      if col < grid.width - 1 {
        ret := PushNeighbor(ret, b, blank + 1, done);
        done := done + {blank + 1};
      }
      if row > 0 {
        RowAbove(grid, blank);
        ret := PushNeighbor(ret, b, blank - grid.width, done);
        done := done + {blank - grid.width};
      }
      if row < grid.height - 1 {
        ret := PushNeighbor(ret, b, blank + grid.width, done);
        done := done + {blank + grid.width};
      }
      EveryDirection(grid, blank, done);
      NeighborsAreComplete(grid, 3, proj, keys, b, ret, done);
    }
  }
}
