/** The Manhattan-distance heuristic: tabulated, computed in full for the initial
    state and incrementally for every other state. */
module TileHeuristic {
  import opened Graphs
  import opened Numbers
  import opened TileHash
  import opened TileBoards

  function Abs(x: int): nat {
    if x < 0 then -x else x
  }

  function Distance(grid: Grid, a: nat, b: nat): nat
    requires grid.Valid()
  {
    Abs(grid.Col(a) - grid.Col(b)) + Abs(grid.Row(a) - grid.Row(b))
  }

  /** A move changes the distance to anywhere by exactly one. */
  lemma MoveChangesDistance(grid: Grid, goal: nat, a: nat, b: nat)
    requires grid.Valid() && grid.Adjacent(a, b)
    ensures Distance(grid, goal, b) == Distance(grid, goal, a) + 1
            || Distance(grid, goal, b) + 1 == Distance(grid, goal, a)
  {
    grid.MoveInGrid(a, b);
  }

  /** A way over the grid, one cell to an adjacent one at a time. */
  predicate Way(grid: Grid, cells: seq<nat>)
    requires grid.Valid()
  {
    |cells| > 0 && forall i :: 0 <= i < |cells| - 1 ==> grid.Adjacent(cells[i], cells[i + 1])
  }

  /** No way is shorter than the distance. */
  lemma {:induction false} NoWayIsShorter(grid: Grid, cells: seq<nat>)
    requires grid.Valid() && Way(grid, cells)
    ensures Distance(grid, cells[0], cells[|cells| - 1]) <= |cells| - 1
  {
    if |cells| > 1 {
      var front := cells[..|cells| - 1];
      assert forall i :: 0 <= i < |front| ==> front[i] == cells[i];
      NoWayIsShorter(grid, front);
      MoveChangesDistance(grid, cells[0], front[|front| - 1], cells[|front|]);
    }
  }

  lemma StepRight(grid: Grid, a: nat)
    requires grid.Valid() && grid.Col(a) < grid.width - 1
    ensures grid.Adjacent(a, a + 1) && grid.Row(a + 1) == grid.Row(a) && grid.Col(a + 1) == grid.Col(a) + 1
  {
    DivisionSplits(a, grid.width);
    grid.CellOf(a + 1, grid.Row(a), grid.Col(a) + 1);
  }

  lemma StepLeft(grid: Grid, a: nat)
    requires grid.Valid() && grid.Col(a) > 0
    ensures a > 0 && grid.Adjacent(a, a - 1) && grid.Row(a - 1) == grid.Row(a) && grid.Col(a - 1) == grid.Col(a) - 1
  {
    DivisionSplits(a, grid.width);
    grid.CellOf(a - 1, grid.Row(a), grid.Col(a) - 1);
  }

  lemma StepDown(grid: Grid, a: nat)
    requires grid.Valid() && grid.Row(a) < grid.height - 1
    ensures grid.Adjacent(a, a + grid.width)
    ensures grid.Row(a + grid.width) == grid.Row(a) + 1 && grid.Col(a + grid.width) == grid.Col(a)
  {
    DivisionSplits(a, grid.width);
    AddProduct(grid.Row(a), 1, grid.width);
    grid.CellOf(a + grid.width, grid.Row(a) + 1, grid.Col(a));
  }

  lemma StepUp(grid: Grid, a: nat)
    requires grid.Valid() && grid.Row(a) > 0
    ensures a >= grid.width && grid.Adjacent(a, a - grid.width)
    ensures grid.Row(a - grid.width) == grid.Row(a) - 1 && grid.Col(a - grid.width) == grid.Col(a)
  {
    DivisionSplits(a, grid.width);
    AddProduct(grid.Row(a) - 1, 1, grid.width);
    grid.CellOf(a - grid.width, grid.Row(a) - 1, grid.Col(a));
  }

  /** From any cell but the goal a move leads closer. */
  lemma Closer(grid: Grid, goal: nat, a: nat) returns (b: nat)
    requires grid.Valid() && goal < grid.Cells() && a < grid.Cells() && a != goal
    ensures grid.Adjacent(a, b) && b < grid.Cells() && Distance(grid, goal, b) + 1 == Distance(grid, goal, a)
  {
    hide Grid.Row, Grid.Col, Grid.Adjacent, Grid.Cells;
    grid.RowInGrid(goal);
    grid.RowInGrid(a);
    SameCell(grid, goal, a);
    if grid.Col(a) < grid.Col(goal) {
      StepRight(grid, a);
      b := a + 1;
    } else if grid.Col(a) > grid.Col(goal) {
      StepLeft(grid, a);
      b := a - 1;
    } else if grid.Row(a) < grid.Row(goal) {
      StepDown(grid, a);
      b := a + grid.width;
    } else {
      StepUp(grid, a);
      b := a - grid.width;
    }
    grid.RowInGrid(b);
  }

  lemma SameCell(grid: Grid, a: nat, b: nat)
    requires grid.Valid()
    ensures grid.Row(a) == grid.Row(b) && grid.Col(a) == grid.Col(b) ==> a == b
    ensures grid.Col(a) < grid.width
  {
    DivisionSplits(a, grid.width);
    DivisionSplits(b, grid.width);
  }

  /** Main result: the tabulated distance is the length of a shortest way. */
  lemma {:induction false} DistanceIsShortest(grid: Grid, goal: nat, a: nat) returns (cells: seq<nat>)
    requires grid.Valid() && goal < grid.Cells() && a < grid.Cells()
    ensures Way(grid, cells) && cells[0] == goal && cells[|cells| - 1] == a
    ensures |cells| - 1 == Distance(grid, goal, a) && forall c :: c in cells ==> c < grid.Cells()
    ensures forall w :: Way(grid, w) && w[0] == goal && w[|w| - 1] == a ==> |w| >= |cells|
    decreases Distance(grid, goal, a)
  {
    if a == goal {
      cells := [goal];
    } else {
      var b := Closer(grid, goal, a);
      var front := DistanceIsShortest(grid, goal, b);
      grid.AdjacentIsSymmetric(a, b);
      cells := front + [a];
    }
    forall w | Way(grid, w) && w[0] == goal && w[|w| - 1] == a ensures |w| >= |cells| {
      NoWayIsShorter(grid, w);
    }
  }

  datatype Puzzle = Puzzle(grid: Grid, cost: nat -> nat, goal: seq<nat>, goalBlank: nat) {

    ghost predicate Valid() {
      StateOk(grid, goal, goalBlank)
    }

    ghost function Home(tile: nat): (p: nat)
      requires Valid() && tile < |goal|
      ensures p < |goal| && goal[p] == tile
    {
      TileIsSomewhere(goal, tile);
      var p: nat :| p < |goal| && goal[p] == tile;
      p
    }

    /** What a tile at pos adds to the heuristic. */
    ghost function Share(tile: nat, pos: nat): nat
      requires Valid() && tile < |goal|
    {
      ProductIsNat(Distance(grid, Home(tile), pos), cost(tile));
      Distance(grid, Home(tile), pos) * cost(tile)
    }

    /** The heuristic summed over the first i positions. */
    ghost function Sum(t: seq<nat>, i: nat): nat
      requires Valid() && Board(t) && |t| == |goal| && i <= |t|
    {
      if i == 0 then 0 else Sum(t, i - 1) + if t[i - 1] != 0 then Share(t[i - 1], i - 1) else 0
    }

    ghost function H(t: seq<nat>): nat
      requires Valid() && Board(t) && |t| == |goal|
    {
      Sum(t, |t|)
    }
  }

  lemma TileIsSomewhere(t: seq<nat>, tile: nat)
    requires Board(t) && tile < |t|
    ensures tile in t
  {
    BelowTail(t, |t|);
    AllBelow(Seen(t), |t|, tile);
    SeenIsTail(t, tile);
  }

  lemma {:induction false} AllBelow(s: set<nat>, n: nat, x: nat)
    requires x < n && Below(s, n) == n
    ensures x in s
  {
    if x < n - 1 { AllBelow(s, n - 1, x); }
  }

  // ---------- one move ----------

  lemma {:induction false} SumAfterMove(p: Puzzle, t: seq<nat>, o: nat, n: nat, i: nat)
    requires p.Valid() && StateOk(p.grid, t, o) && p.grid.Adjacent(o, n) && i <= |t| && n < |t|
    requires Board(Child(t, o, n)) && t[n] != 0 && o != n && |t| == |p.goal|
    ensures p.Sum(Child(t, o, n), i) + (if n < i then p.Share(t[n], n) else 0)
         == p.Sum(t, i) + if o < i then p.Share(t[n], o) else 0
  {
    if i > 0 { SumAfterMove(p, t, o, n, i - 1); }
  }

  /** The incremental heuristic equals the full one. */
  lemma IncrementIsExact(p: Puzzle, t: seq<nat>, o: nat, n: nat)
    requires p.Valid() && StateOk(p.grid, t, o) && p.grid.Adjacent(o, n)
    ensures n < |t| == |p.goal| && StateOk(p.grid, Child(t, o, n), n)
    ensures p.H(Child(t, o, n)) == p.H(t) + p.Share(t[n], o) - p.Share(t[n], n)
  {
    ChildIsBoard(p.grid, t, o, n);
    SumAfterMove(p, t, o, n, |t|);
  }

  /** A move changes the heuristic by exactly the cost of the tile moved. */
  lemma MoveChangesByCost(p: Puzzle, t: seq<nat>, o: nat, n: nat)
    requires p.Valid() && StateOk(p.grid, t, o) && p.grid.Adjacent(o, n)
    ensures n < |t| == |p.goal| && StateOk(p.grid, Child(t, o, n), n)
    ensures p.H(Child(t, o, n)) == p.H(t) + p.cost(t[n]) || p.H(t) == p.H(Child(t, o, n)) + p.cost(t[n])
  {
    IncrementIsExact(p, t, o, n);
    var tile := t[n];
    var home := p.Home(tile);
    MoveChangesDistance(p.grid, home, o, n);
    AddProduct(Distance(p.grid, home, o), 1, p.cost(tile));
    AddProduct(Distance(p.grid, home, n), 1, p.cost(tile));
  }

  // ---------- whole solutions ----------

  /** The blank may move to each of the listed positions in turn. */
  ghost predicate Legal(grid: Grid, t: seq<nat>, blank: nat, moves: seq<nat>)
    requires StateOk(grid, t, blank)
    decreases |moves|
  {
    moves == [] ||
    (grid.Adjacent(blank, moves[0]) &&
     (ChildIsBoard(grid, t, blank, moves[0]);
      Legal(grid, Child(t, blank, moves[0]), moves[0], moves[1..])))
  }

  ghost function Reached(grid: Grid, t: seq<nat>, blank: nat, moves: seq<nat>): seq<nat>
    requires StateOk(grid, t, blank) && Legal(grid, t, blank, moves)
    decreases |moves|
  {
    if moves == [] then t
    else
      ChildIsBoard(grid, t, blank, moves[0]);
      Reached(grid, Child(t, blank, moves[0]), moves[0], moves[1..])
  }

  ghost predicate Plan(p: Puzzle, t: seq<nat>, blank: nat, moves: seq<nat>)
    requires StateOk(p.grid, t, blank)
  {
    Legal(p.grid, t, blank, moves) && Reached(p.grid, t, blank, moves) == p.goal
  }

  ghost function PlanCost(p: Puzzle, t: seq<nat>, blank: nat, moves: seq<nat>): nat
    requires StateOk(p.grid, t, blank) && Legal(p.grid, t, blank, moves)
    decreases |moves|
  {
    if moves == [] then 0
    else
      ChildIsBoard(p.grid, t, blank, moves[0]);
      p.cost(t[moves[0]]) + PlanCost(p, Child(t, blank, moves[0]), moves[0], moves[1..])
  }

  lemma {:induction false} ShareAtHome(p: Puzzle, i: nat)
    requires p.Valid() && i <= |p.goal|
    ensures p.Sum(p.goal, i) == 0
  {
    if i > 0 {
      ShareAtHome(p, i - 1);
      if p.goal[i - 1] != 0 {
        assert p.Home(p.goal[i - 1]) == i - 1;
        assert Distance(p.grid, i - 1, i - 1) == 0;
      }
    }
  }

  /** The heuristic never exceeds the cost of a plan. */
  lemma {:induction false} ManhattanIsAdmissible(p: Puzzle, t: seq<nat>, blank: nat, moves: seq<nat>)
    requires p.Valid() && StateOk(p.grid, t, blank) && Plan(p, t, blank, moves)
    ensures |t| == |p.goal| && p.H(t) <= PlanCost(p, t, blank, moves)
    decreases |moves|
  {
    if moves == [] {
      ShareAtHome(p, |t|);
    } else {
      MoveChangesByCost(p, t, blank, moves[0]);
      ManhattanIsAdmissible(p, Child(t, blank, moves[0]), moves[0], moves[1..]);
    }
  }

  // ---------- zero at the goal and only there ----------

  lemma {:induction false} ZeroSum(p: Puzzle, t: seq<nat>, i: nat, k: nat)
    requires p.Valid() && Board(t) && |t| == |p.goal| && k < i <= |t| && p.Sum(t, i) == 0 && t[k] != 0
    ensures p.Share(t[k], k) == 0
  {
    if k < i - 1 { ZeroSum(p, t, i - 1, k); }
  }

  lemma SamePlace(grid: Grid, a: nat, b: nat)
    requires grid.Valid() && Distance(grid, a, b) == 0
    ensures a == b
  {
    DivisionSplits(a, grid.width);
    DivisionSplits(b, grid.width);
  }

  lemma PositiveProduct(a: nat, b: nat)
    requires a > 0 && b > 0
    ensures a * b > 0
  {
  }

  /** With positive tile costs the heuristic is zero exactly at the goal. */
  lemma ZeroOnlyAtGoal(p: Puzzle, t: seq<nat>, blank: nat)
    requires p.Valid() && StateOk(p.grid, t, blank) && forall tile: nat :: p.cost(tile) > 0
    ensures |t| == |p.goal| && (p.H(t) == 0 <==> t == p.goal)
  {
    ShareAtHome(p, |p.goal|);
    if p.H(t) == 0 {
      forall k | 0 <= k < |t| && t[k] != 0 ensures p.goal[k] == t[k] {
        ZeroSum(p, t, |t|, k);
        var d := Distance(p.grid, p.Home(t[k]), k);
        if d > 0 { PositiveProduct(d, p.cost(t[k])); }
        SamePlace(p.grid, p.Home(t[k]), k);
      }
      BlankFollows(t, p.goal, blank, p.goalBlank);
    }
  }

  /** Boards that agree on every tile agree on the blank. */
  lemma BlankFollows(t: seq<nat>, goal: seq<nat>, blank: nat, goalBlank: nat)
    requires Board(t) && Board(goal) && |t| == |goal| && blank < |t| && t[blank] == 0
    requires goalBlank < |t| && goal[goalBlank] == 0
    requires forall k :: 0 <= k < |t| && t[k] != 0 ==> goal[k] == t[k]
    ensures t == goal
  {
    assert t[goalBlank] == 0 && blank == goalBlank;
    assert forall k :: 0 <= k < |t| ==> t[k] == goal[k];
  }

  // ---------- the table ----------

  function Flat(n: nat, tile: nat, pos: nat): nat {
    ProductIsNat(tile, n);
    tile * n + pos
  }

  lemma FlatInRange(n: nat, tile: nat, pos: nat)
    requires tile < n && pos < n
    ensures Flat(n, tile, pos) < n * n
  {
    Scale(tile, n - 1, n);
  }

  lemma FlatIsInjective(n: nat, a: nat, i: nat, b: nat, j: nat)
    requires i < n && j < n && Flat(n, a, i) == Flat(n, b, j)
    ensures a == b && i == j
  {
    SameDigits(n, a, i, b, j);
  }

  class ManhattanDist {
    const p: Puzzle
    const table: array<nat>

    ghost predicate Valid()
      reads this, table
    {
      p.Valid() && table.Length == |p.goal| * |p.goal| && Filled(p, table[..], |p.goal|, 0)
    }

    constructor (p: Puzzle)
      requires p.Valid()
      ensures Valid() && this.p == p
    {
      var n := |p.goal|;
      ProductIsNat(n, n);
      var cells := new nat[n * n](_ => 0);
      var tile := 1;
      while tile < n
        invariant 1 <= tile <= n || (n == 1 && tile == 1)
        invariant Filled(p, cells[..], tile, 0)
      {
        var cost := p.cost(tile);
        var goalPos := 0;
        TileIsSomewhere(p.goal, tile);
        while p.goal[goalPos] != tile
          invariant goalPos < n && forall k :: 0 <= k < goalPos ==> p.goal[k] != tile
          decreases n - goalPos
        {
          goalPos := goalPos + 1;
        }
        var pos := 0;
        while pos < n
          invariant 0 <= pos <= n && Filled(p, cells[..], tile, pos)
        {
          FlatInRange(n, tile, pos);
          ghost var was := cells[..];
          cells[Flat(n, tile, pos)] := Distance(p.grid, goalPos, pos) * cost;
          FilledOne(p, was, cells[..], tile, pos);
          pos := pos + 1;
        }
        FilledRow(p, cells[..], tile);
        tile := tile + 1;
      }
      this.p, table := p, cells;
    }

    method LookupDist(num: nat, pos: nat) returns (d: nat)
      requires Valid() && 0 < num < |p.goal| && pos < |p.goal|
      ensures d == p.Share(num, pos)
    {
      FlatInRange(|p.goal|, num, pos);
      assert CellFilled(p, table[..], num, pos);
      d := table[Flat(|p.goal|, num, pos)];
    }

    method ComputeFull(t: seq<nat>) returns (dist: nat)
      requires Valid() && Board(t) && |t| == |p.goal|
      ensures dist == p.H(t)
    {
      dist := 0;
      var i := 0;
      while i < |t|
        invariant 0 <= i <= |t| && dist == p.Sum(t, i)
      {
        if t[i] != 0 {
          var d := LookupDist(t[i], i);
          dist := dist + d;
        }
        i := i + 1;
      }
    }

    /** compute_incr: from the parent's heuristic value. */
    method ComputeIncr(blank: nat, parent: seq<nat>, parentBlank: nat, parentH: nat) returns (h: nat)
      requires Valid() && StateOk(p.grid, parent, parentBlank) && p.grid.Adjacent(parentBlank, blank)
      requires parentH == p.H(parent)
      ensures blank < |parent| && StateOk(p.grid, Child(parent, parentBlank, blank), blank)
      ensures h == p.H(Child(parent, parentBlank, blank))
    {
      ChildIsBoard(p.grid, parent, parentBlank, blank);
      IncrementIsExact(p, parent, parentBlank, blank);
      var there := LookupDist(parent[blank], parentBlank);
      var here := LookupDist(parent[blank], blank);
      h := parentH + there - here;
    }

    /** The value stored in a state that was reached from t by the given moves, each
        computed from its parent's. */
    method Compute(t: seq<nat>, blank: nat, moves: seq<nat>) returns (h: nat, last: seq<nat>, lastBlank: nat)
      requires Valid() && StateOk(p.grid, t, blank) && Legal(p.grid, t, blank, moves)
      ensures StateOk(p.grid, last, lastBlank) && last == Reached(p.grid, t, blank, moves) && h == p.H(last)
    {
      last, lastBlank := t, blank;
      h := ComputeFull(t);
      var i := 0;
      while i < |moves|
        invariant 0 <= i <= |moves| && StateOk(p.grid, last, lastBlank) && h == p.H(last)
        invariant Legal(p.grid, last, lastBlank, moves[i..])
        invariant Reached(p.grid, last, lastBlank, moves[i..]) == Reached(p.grid, t, blank, moves)
      {
        assert moves[i..][1..] == moves[i + 1..];
        h := ComputeIncr(moves[i], last, lastBlank, h);
        last, lastBlank := Child(last, lastBlank, moves[i]), moves[i];
        i := i + 1;
      }
    }
  }

  ghost predicate CellFilled(p: Puzzle, cells: seq<nat>, tile: nat, pos: nat)
    requires p.Valid() && tile < |p.goal|
  {
    Flat(|p.goal|, tile, pos) < |cells| && cells[Flat(|p.goal|, tile, pos)] == p.Share(tile, pos)
  }

  /** Rows 1 .. tile-1 are filled, and of row tile the first pos cells. */
  ghost predicate Filled(p: Puzzle, cells: seq<nat>, tile: nat, pos: nat)
    requires p.Valid()
  {
    forall a: nat, i: nat {:trigger CellFilled(p, cells, a, i)} ::
      0 < a < |p.goal| && i < |p.goal| && (a < tile || (a == tile && i < pos)) ==> CellFilled(p, cells, a, i)
  }

  lemma FilledOne(p: Puzzle, was: seq<nat>, cells: seq<nat>, tile: nat, pos: nat)
    requires p.Valid() && 0 < tile < |p.goal| && pos < |p.goal| && Filled(p, was, tile, pos)
    requires Flat(|p.goal|, tile, pos) < |was|
    requires cells == was[Flat(|p.goal|, tile, pos) := p.Share(tile, pos)]
    ensures Filled(p, cells, tile, pos + 1)
  {
    forall a: nat, i: nat | 0 < a < |p.goal| && i < |p.goal| && (a < tile || (a == tile && i < pos + 1))
      ensures CellFilled(p, cells, a, i)
    {
      if a != tile || i != pos {
        assert CellFilled(p, was, a, i);
        if Flat(|p.goal|, a, i) == Flat(|p.goal|, tile, pos) { FlatIsInjective(|p.goal|, a, i, tile, pos); }
      }
    }
  }

  lemma FilledRow(p: Puzzle, cells: seq<nat>, tile: nat)
    requires p.Valid() && 0 < tile < |p.goal| && Filled(p, cells, tile, |p.goal|)
    ensures Filled(p, cells, tile + 1, 0)
  {
    forall a: nat, i: nat | 0 < a < |p.goal| && i < |p.goal| && a < tile + 1 ensures CellFilled(p, cells, a, i) {
    }
  }
}
