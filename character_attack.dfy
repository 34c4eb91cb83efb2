// CharacterAttack: the diamond of cells a unit can attack, and queries on it.

/** Cells in scan order: by x, then by y, and never the same cell twice. */
predicate ScanOrdered(cells: seq<Pos>)
{
  forall i, j | 0 <= i < j < |cells| :: cells[i].x < cells[j].x || (cells[i].x == cells[j].x && cells[i].y < cells[j].y)
}

/** Cells all in column `cx` and below row `top`, by increasing y. */
predicate RisingColumn(cells: seq<Pos>, cx: int, top: int)
{
  (forall i, j | 0 <= i < j < |cells| :: cells[i].y < cells[j].y) &&
  forall i | 0 <= i < |cells| :: cells[i].x == cx && cells[i].y < top
}

/** Whether CalculateAttackArea keeps the offset (x, y) from `p`: in range, not the unit's own cell, on the grid. */
predicate AttackKept(grid: GridMap, p: Pos, r: int, x: int, y: int)
{
  Abs(x) + Abs(y) <= r && !(x == 0 && y == 0) && grid.CheckBoundryXY(p.x + x, p.y + y)
}

/** The cells the inner loop adds for offset column `x`, for offsets -r <= dy < y. */
function AttackColumn(grid: GridMap, p: Pos, r: int, x: int, y: int): seq<Pos>
  requires -r <= y
  decreases y + r
{
  if y == -r then []
  else AttackColumn(grid, p, r, x, y - 1) + if AttackKept(grid, p, r, x, y - 1) then [Pos(p.x + x, p.y + y - 1)] else []
}

/** The cells the outer loop has added once it has done the offset columns -r <= dx < x. */
function AttackCells(grid: GridMap, p: Pos, r: int, x: int): seq<Pos>
  requires -r <= x && -r <= r + 1
  decreases x + r
{
  if x == -r then [] else AttackCells(grid, p, r, x - 1) + AttackColumn(grid, p, r, x - 1, r + 1)
}

/** A column holds exactly the kept offsets below `y` in column `x`. */
lemma {:induction false} AttackColumnMembers(grid: GridMap, p: Pos, r: int, x: int, y: int, q: Pos)
  requires -r <= y
  ensures q in AttackColumn(grid, p, r, x, y) <==> q.x == p.x + x && -r <= q.y - p.y < y && AttackKept(grid, p, r, x, q.y - p.y)
  decreases y + r
{
  if y > -r {
    AttackColumnMembers(grid, p, r, x, y - 1, q);
    var before := AttackColumn(grid, p, r, x, y - 1);
    if AttackKept(grid, p, r, x, y - 1) {
      assert AttackColumn(grid, p, r, x, y) == before + [Pos(p.x + x, p.y + y - 1)];
    } else {
      assert AttackColumn(grid, p, r, x, y) == before;
    }
  }
}

/** A column lies in column `x`, by increasing y. */
lemma {:induction false} AttackColumnOrdered(grid: GridMap, p: Pos, r: int, x: int, y: int)
  requires -r <= y
  ensures RisingColumn(AttackColumn(grid, p, r, x, y), p.x + x, p.y + y)
  decreases y + r
{
  if y > -r {
    AttackColumnOrdered(grid, p, r, x, y - 1);
    var before := AttackColumn(grid, p, r, x, y - 1);
    if AttackKept(grid, p, r, x, y - 1) {
      assert AttackColumn(grid, p, r, x, y) == before + [Pos(p.x + x, p.y + y - 1)];
    } else {
      assert AttackColumn(grid, p, r, x, y) == before;
    }
  }
}

lemma {:induction false} AttackCellsMembers(grid: GridMap, p: Pos, r: int, x: int, q: Pos)
  requires -r <= x && -r <= r + 1
  ensures q in AttackCells(grid, p, r, x) <==>
            -r <= q.x - p.x < x && -r <= q.y - p.y <= r && AttackKept(grid, p, r, q.x - p.x, q.y - p.y)
  decreases x + r
{
  if x > -r {
    var before, column := AttackCells(grid, p, r, x - 1), AttackColumn(grid, p, r, x - 1, r + 1);
    AttackCellsMembers(grid, p, r, x - 1, q);
    AttackColumnMembers(grid, p, r, x - 1, r + 1, q);
    assert AttackCells(grid, p, r, x) == before + column;
    assert (q in before + column) == (q in before || q in column);
  }
}

/** The columns done so far are in scan order, all left of column `x`. */
lemma {:induction false} AttackCellsOrdered(grid: GridMap, p: Pos, r: int, x: int)
  requires -r <= x && -r <= r + 1
  ensures var cells := AttackCells(grid, p, r, x);
          ScanOrdered(cells) && forall i | 0 <= i < |cells| :: cells[i].x < p.x + x
  decreases x + r
{
  if x > -r {
    var before := AttackCells(grid, p, r, x - 1);
    var column := AttackColumn(grid, p, r, x - 1, r + 1);
    AttackCellsOrdered(grid, p, r, x - 1);
    AttackColumnOrdered(grid, p, r, x - 1, r + 1);
    var cells := before + column;
    assert AttackCells(grid, p, r, x) == cells;
    forall i, j | 0 <= i < j < |cells|
      ensures cells[i].x < cells[j].x || (cells[i].x == cells[j].x && cells[i].y < cells[j].y)
    {
      if j < |before| {
        assert cells[i] == before[i] && cells[j] == before[j];
      } else if i < |before| {
        assert cells[i] == before[i] && cells[j] == column[j - |before|];
      } else {
        assert cells[i] == column[i - |before|] && cells[j] == column[j - |before|];
      }
    }
  }
}

/** The list CalculateAttackArea(p, r) builds; empty for a negative range. */
function AttackArea(grid: GridMap, p: Pos, r: int): (cells: seq<Pos>)
{
  if r < 0 then [] else AttackCells(grid, p, r, r + 1)
}

/**
 * The attack area holds exactly the cells on the grid at Manhattan distance 1 to `r` from `p`,
 * in scan order and without repeats: neither walkability nor occupants are consulted.
 */
lemma AttackAreaExactly(grid: GridMap, p: Pos, r: int, q: Pos)
  ensures q in AttackArea(grid, p, r) <==> grid.CheckBoundry(q) && 1 <= Manhattan(q, p) <= r
  ensures ScanOrdered(AttackArea(grid, p, r))
{
  if r >= 0 {
    AttackCellsMembers(grid, p, r, r + 1, q);
    AttackCellsOrdered(grid, p, r, r + 1);
    var dx, dy := q.x - p.x, q.y - p.y;
    assert Manhattan(q, p) == Abs(dx) + Abs(dy);
    if Abs(dx) + Abs(dy) <= r {
      assert -r <= dx <= r && -r <= dy <= r;
    }
  }
}

class CharacterAttack
{
  const targetGrid: GridMap
  const highlight: GridRenderer
  /** The cells of the last computed attack area; null until the first computation. */
  var attackPosition: Option<seq<Pos>>

  constructor(targetGrid: GridMap, highlight: GridRenderer)
    ensures this.targetGrid == targetGrid && this.highlight == highlight && attackPosition == Null
  {
    this.targetGrid, this.highlight := targetGrid, highlight;
    attackPosition := Null;
  }

  /** Check: whether a cell is in the last computed area. */
  predicate Check(q: Pos)
    reads this
    requires attackPosition.Some?
  {
    q in attackPosition.value
  }

  /**
   * While the stored list is the area computed around `p` with range `r`, Check holds exactly
   * on the grid cells at Manhattan distance 1 to r from `p`.
   */
  lemma CheckInArea(p: Pos, r: int, q: Pos)
    requires attackPosition == Some(AttackArea(targetGrid, p, r))
    ensures Check(q) <==> targetGrid.CheckBoundry(q) && 1 <= Manhattan(q, p) <= r
  {
    AttackAreaExactly(targetGrid, p, r, q);
  }

  /**
   * Creates or clears the list, scans the square of offsets around the unit column by column,
   * keeps the in-range cells on the grid other than its own, and highlights them.
   */
  method CalculateAttackArea(characterPositionOnGrid: Pos, attackRange: int)
    modifies this`attackPosition, highlight
    ensures attackPosition == Some(AttackArea(targetGrid, characterPositionOnGrid, attackRange))
    ensures forall q :: Check(q) <==>
              targetGrid.CheckBoundry(q) && 1 <= Manhattan(q, characterPositionOnGrid) <= attackRange
    ensures ScanOrdered(attackPosition.value)
    ensures highlight.points == Highlighted(old(highlight.points), attackPosition.value)
  {
    var p, r := characterPositionOnGrid, attackRange;
    if attackPosition.Null? {
      attackPosition := Some([]);
    } else {
      attackPosition := Some([]);
    }
    if r >= 0 {
      var x := -r;
      while x <= r
        modifies this`attackPosition
        invariant -r <= x <= r + 1
        invariant attackPosition == Some(AttackCells(targetGrid, p, r, x))
      {
        var y := -r;
        assert AttackCells(targetGrid, p, r, x) + AttackColumn(targetGrid, p, r, x, y) == AttackCells(targetGrid, p, r, x);
        while y <= r
          modifies this`attackPosition
          invariant -r <= y <= r + 1
          invariant attackPosition == Some(AttackCells(targetGrid, p, r, x) + AttackColumn(targetGrid, p, r, x, y))
        {
          ghost var done, column := AttackCells(targetGrid, p, r, x), AttackColumn(targetGrid, p, r, x, y);
          assert AttackColumn(targetGrid, p, r, x, y + 1) ==
                 column + if AttackKept(targetGrid, p, r, x, y) then [Pos(p.x + x, p.y + y)] else [];
          if Abs(x) + Abs(y) <= r && !(x == 0 && y == 0) && targetGrid.CheckBoundryXY(p.x + x, p.y + y) {
            attackPosition := Some(attackPosition.value + [Pos(p.x + x, p.y + y)]);
            ConcatAssoc(done, column, [Pos(p.x + x, p.y + y)]);
          } else {
            assert column + [] == column;
          }
          y := y + 1;
        }
        x := x + 1;
      }
    }
    forall q
      ensures Check(q) <==> targetGrid.CheckBoundry(q) && 1 <= Manhattan(q, p) <= r
    {
      AttackAreaExactly(targetGrid, p, r, q);
    }
    AttackAreaExactly(targetGrid, p, r, p);
    highlight.FieldHighlight(attackPosition.value);
  }

  /** GetAttackTarget: the occupant of a cell, null off the grid. */
  function GetAttackTarget(q: Pos): (target: Option<Character>)
    reads targetGrid.grid
    requires targetGrid.Shape()
    ensures !targetGrid.CheckBoundry(q) ==> target == Null
    ensures targetGrid.CheckBoundry(q) ==> target == targetGrid.grid[q.x, q.y].gridObject
  {
    targetGrid.GetPlacedObject(q)
  }
}
