/** Sliding-tile boards: neighbouring cells, moves and expand. */
module TileBoards {
  import opened Graphs
  import opened Numbers
  import opened TileHash

  datatype Grid = Grid(width: nat, height: nat) {

    predicate Valid() { width > 0 && height > 0 }

    function Cells(): nat { width * height }

    function Col(p: nat): nat
      requires Valid()
    {
      p % width
    }

    function Row(p: nat): nat
      requires Valid()
    {
      DivisionSplits(p, width);
      p / width
    }

    /** The four conditions under which the blank at a may move to b. */
    predicate Adjacent(a: nat, b: nat)
      requires Valid()
    {
      || (Col(a) > 0 && b == a - 1)
      || (Col(a) < width - 1 && b == a + 1)
      || (Row(a) > 0 && b == a - width)
      || (Row(a) < height - 1 && b == a + width)
    }

    lemma CellOf(p: nat, row: nat, col: nat)
      requires Valid() && col < width && p == row * width + col
      ensures Row(p) == row && Col(p) == col
    {
      DivisionSplits(p, width);
      SameDigits(width, p / width, p % width, row, col);
    }

    /** A move changes the column or the row by one, and not the other. */
    lemma MoveInGrid(a: nat, b: nat)
      requires Valid() && Adjacent(a, b)
      ensures (Row(b) == Row(a) && (Col(b) == Col(a) + 1 || Col(b) + 1 == Col(a)))
              || (Col(b) == Col(a) && (Row(b) == Row(a) + 1 || Row(b) + 1 == Row(a)))
    {
      DivisionSplits(a, width);
      AddProduct(Row(a), 1, width);
      if Col(a) > 0 && b == a - 1 {
        CellOf(b, Row(a), Col(a) - 1);
      } else if Col(a) < width - 1 && b == a + 1 {
        CellOf(b, Row(a), Col(a) + 1);
      } else if b == a + width {
        CellOf(b, Row(a) + 1, Col(a));
      } else {
        AddProduct(Row(a) - 1, 1, width);
        CellOf(b, Row(a) - 1, Col(a));
      }
    }

    lemma RowInGrid(p: nat)
      requires Valid()
      ensures p < Cells() <==> Row(p) < height
    {
      DivisionSplits(p, width);
      if p < Cells() && height <= Row(p) {
        Grows(height, Row(p), width);
      } else if Row(p) < height {
        Scale(Row(p), height - 1, width);
      }
    }

    lemma Grows(x: nat, y: nat, f: nat)
      requires x <= y
      ensures f * x <= y * f
    {
    }

    lemma MoveStaysInGrid(a: nat, b: nat)
      requires Valid() && a < Cells() && Adjacent(a, b)
      ensures b < Cells() && a != b
    {
      RowInGrid(a);
      RowInGrid(b);
      MoveInGrid(a, b);
    }

    /** Moves can be undone. */
    lemma AdjacentIsSymmetric(a: nat, b: nat)
      requires Valid() && a < Cells() && Adjacent(a, b)
      ensures Adjacent(b, a)
    {
      MoveInGrid(a, b);
      RowInGrid(a);
    }
  }

  /** The blank is tile 0. */
  ghost predicate StateOk(grid: Grid, t: seq<nat>, blank: nat) {
    grid.Valid() && Board(t) && |t| == grid.Cells() && blank < |t| && t[blank] == 0
  }

  /** child: the tile at n slides to o, where the blank was. */
  function Child(t: seq<nat>, o: nat, n: nat): (r: seq<nat>)
    requires o < |t| && n < |t|
    ensures |r| == |t|
  {
    t[o := t[n]][n := 0]
  }

  lemma ChildIsBoard(grid: Grid, t: seq<nat>, o: nat, n: nat)
    requires StateOk(grid, t, o) && grid.Adjacent(o, n)
    ensures n < |t| && n != o && t[n] != 0 && StateOk(grid, Child(t, o, n), n)
  {
    grid.MoveStaysInGrid(o, n);
  }

  /** Sliding a tile back restores the board: the child that expand leaves out, the
      one whose blank is where the parent's was, is the parent itself. */
  lemma ChildUndone(grid: Grid, t: seq<nat>, o: nat, n: nat)
    requires StateOk(grid, t, o) && grid.Adjacent(o, n)
    ensures n < |t| && Child(Child(t, o, n), n, o) == t
  {
    ChildIsBoard(grid, t, o, n);
  }

  /** A generated state: its board, blank, cost of the move and g. */
  datatype Kid = Kid(tiles: seq<nat>, blank: nat, c: nat, g: nat)

  ghost predicate KidOk(grid: Grid, cost: nat -> nat, t: seq<nat>, blank: nat, g: nat, skip: Option<nat>, k: Kid)
    requires StateOk(grid, t, blank)
  {
    && k.blank < |t| && grid.Adjacent(blank, k.blank) && skip != Some(k.blank)
    && k.tiles == Child(t, blank, k.blank)
    && k.c == cost(t[k.blank]) && k.g == g + k.c
  }

  /** expand: a child for every legal move but the one back to the parent's blank. */
  method Expand(grid: Grid, cost: nat -> nat, t: seq<nat>, blank: nat, g: nat, parentBlank: Option<nat>)
    returns (children: seq<Kid>)
    requires StateOk(grid, t, blank)
    ensures forall k :: k in children ==> KidOk(grid, cost, t, blank, g, parentBlank, k)
    ensures forall n: nat :: grid.Adjacent(blank, n) && parentBlank != Some(n) ==>
              exists k :: k in children && k.blank == n
    ensures |children| <= 4
  {
    var col, row := grid.Col(blank), grid.Row(blank);
    children := [];
    if col > 0 && parentBlank != Some(blank - 1) {
      var k := Move(grid, cost, t, blank, g, blank - 1);
      children := children + [k];
    }
    if col < grid.width - 1 && parentBlank != Some(blank + 1) {
      var k := Move(grid, cost, t, blank, g, blank + 1);
      children := children + [k];
    }
    if row > 0 {
      RowAbove(grid, blank);
      if parentBlank != Some(blank - grid.width) {
        var k := Move(grid, cost, t, blank, g, blank - grid.width);
        children := children + [k];
      }
    }
    if row < grid.height - 1 && parentBlank != Some(blank + grid.width) {
      var k := Move(grid, cost, t, blank, g, blank + grid.width);
      children := children + [k];
    }
  }

  lemma RowAbove(grid: Grid, p: nat)
    requires grid.Valid() && grid.Row(p) > 0
    ensures p >= grid.width
  {
    DivisionSplits(p, grid.width);
    grid.Grows(1, grid.Row(p), grid.width);
  }

  method Move(grid: Grid, cost: nat -> nat, t: seq<nat>, blank: nat, g: nat, n: nat) returns (k: Kid)
    requires StateOk(grid, t, blank) && grid.Adjacent(blank, n)
    ensures KidOk(grid, cost, t, blank, g, None, k) && k.blank == n
  {
    ChildIsBoard(grid, t, blank, n);
    var c := cost(t[n]);
    k := Kid(Child(t, blank, n), n, c, g + c);
  }
}
