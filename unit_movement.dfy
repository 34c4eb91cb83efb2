// Moving a unit along a path: the grid occupancy moves at once, the model walks the waypoints.

/** A path given as the cells of the grid it visits. */
predicate PathOnGrid(grid: GridMap, path: seq<Pos>)
{
  forall i | 0 <= i < |path| :: grid.CheckBoundryXY(path[i].x, path[i].y)
}

class UnitMovement
{
  /** The world positions still to be walked through, nearest first. */
  var pathWorldPosition: seq<WorldPoint>
  var isMoving: bool

  constructor()
    ensures pathWorldPosition == [] && !isMoving
  {
    pathWorldPosition := [];
    isMoving := false;
  }

  /**
   * Takes the unit off its cell (only if it is that cell's occupant), moves it to the last cell
   * of the path and places it there over whatever else stands there, and starts walking.
   */
  method Move(path: seq<Pos>, unit: Character) returns (moved: bool)
    requires unit.movement == this && unit.targetGrid.Valid()
    requires |path| > 0 && PathOnGrid(unit.targetGrid, path)
    modifies this, unit`positionOnGrid, unit`animMoving, unit.targetGrid.grid
    ensures moved && isMoving && unit.animMoving && unit.targetGrid.Valid()
    ensures |pathWorldPosition| == |path| &&
            forall i | 0 <= i < |path| ::
              pathWorldPosition[i] == unit.targetGrid.GetWorldPosition(path[i].x, path[i].y, true)
    ensures unit.positionOnGrid == path[|path| - 1]
    ensures unit.targetGrid.GetPlacedObject(path[|path| - 1]) == Some(unit)
    ensures var from := old(unit.positionOnGrid);
            from != path[|path| - 1] ==>
              unit.targetGrid.GetPlacedObject(from) ==
                (if old(unit.targetGrid.GetPlacedObject(from)) == Some(unit) then Null
                 else old(unit.targetGrid.GetPlacedObject(from)))
    ensures forall x, y | 0 <= x < unit.targetGrid.length && 0 <= y < unit.targetGrid.width &&
                          Pos(x, y) != old(unit.positionOnGrid) && Pos(x, y) != path[|path| - 1] ::
              unit.targetGrid.grid[x, y] == old(unit.targetGrid.grid[x, y])
  {
    var grid := unit.targetGrid;
    pathWorldPosition := grid.ConvertPathToWorldPosition(Some(path));
    grid.RemoveObject(unit.positionOnGrid, unit);
    unit.positionOnGrid := path[|path| - 1];
    grid.PlaceObject(unit.positionOnGrid, unit);
    unit.animMoving := true;
    isMoving := true;
    moved := true;
  }

  /** The frame on which the unit reaches the first waypoint: it is dropped, and at the last one the walk stops. */
  method WaypointReached(unit: Character)
    requires unit.movement == this
    modifies this`pathWorldPosition, this`isMoving, unit`animMoving
    ensures old(pathWorldPosition) == [] ==> unchanged(this, unit)
    ensures old(pathWorldPosition) != [] ==> pathWorldPosition == old(pathWorldPosition)[1..]
    ensures old(pathWorldPosition) != [] && pathWorldPosition == [] ==> !isMoving && !unit.animMoving
    ensures pathWorldPosition != [] ==> isMoving == old(isMoving) && unit.animMoving == old(unit.animMoving)
  {
    if |pathWorldPosition| == 0 {
      return;
    }
    pathWorldPosition := pathWorldPosition[1..];
    if |pathWorldPosition| == 0 {
      unit.animMoving := false;
      isMoving := false;
    }
  }

  /** A path can be started only while the unit stands still, and only if it has a tile. */
  method PathIsValid(path: Option<seq<Pos>>, grid: GridMap) returns (valid: bool)
    requires grid.Shape()
    requires path.Some? ==> PathOnGrid(grid, path.value)
    ensures valid <==> !isMoving && path.Some? && |path.value| > 0
  {
    if isMoving {
      return false;
    }
    var positions := grid.ConvertPathToWorldPosition(path);
    valid := |positions| != 0;
  }
}
