// The battle grid: a `length` x `width` array of nodes joined by shared edges,
// the objects placed on it, and the cover props that mark its edges.

/** The four unit offsets, in the order used by both path searches: up, right, down, left. */
const CardinalDirections: seq<Pos> := [Pos(0, 1), Pos(1, 0), Pos(0, -1), Pos(-1, 0)]

/** A cover prop placed in the scene between cells `nodeA` and `nodeB`. */
datatype CoverProp = CoverProp(nodeA: Pos, nodeB: Pos, coverType: CoverType)

function Lookup(m: map<Pos, EdgeId>, p: Pos): Option<EdgeId>
{
  if p in m then Some(m[p]) else Null
}

/** A world-space point (float Vector3 in the source) for a cell centre: x, height, z. */
datatype WorldPoint = WorldPoint(x: int, height: int, z: int)

/** The edge GenerateGrid creates from a cell to its north or west neighbour. */
function FreshEdge(from: Pos, to: Pos): NodeEdge
{
  NodeEdge(CoverType.None, false, false, from, to)
}

/** The slot index of a unit offset: up 0, right 1, down 2, left 3, anything else -1. */
function DirectionToIndex(offset: Pos): (r: int)
  ensures r == -1 <==> offset !in CardinalDirections
  ensures r != -1 ==> 0 <= r < 4 && CardinalDirections[r] == offset
{
  if offset == Pos(0, 1) then North
  else if offset == Pos(1, 0) then East
  else if offset == Pos(0, -1) then South
  else if offset == Pos(-1, 0) then West
  else -1
}

/** Cell (x', y') comes before the scan point (cx, cy) of a row-by-row scan (y outer, x inner). */
predicate Scanned(cx: int, cy: int, x: int, y: int)
{
  y < cy || (y == cy && x < cx)
}

/** One step of GenerateGrid's scan, as proof data: the cell, the edge maps before and after, the new indices. */
datatype ScanStep = ScanStep(x: int, y: int, north: map<Pos, EdgeId>, west: map<Pos, EdgeId>,
                             north': map<Pos, EdgeId>, west': map<Pos, EdgeId>, k1: EdgeId, k2: EdgeId)

/**
 * The outcome of applying cover props in order: the edge table, and whether every
 * prop was processed (false when a prop made the source throw).
 */
datatype CoverOutcome = CoverOutcome(edges: seq<NodeEdge>, completed: bool)

class GridMap
{
  const length: int
  const width: int
  const cellSize: int
  const grid: array2<Node>
  /** Every edge GenerateGrid created; a node's slot holds an index into this table. */
  var edgeTable: seq<NodeEdge>

  predicate CheckBoundry(p: Pos)
  {
    if p.x < 0 || p.x >= length then false
    else if p.y < 0 || p.y >= width then false
    else true
  }

  /** The (int, int) overload. */
  predicate CheckBoundryXY(x: int, y: int)
  {
    if x < 0 || x >= length then false
    else if y < 0 || y >= width then false
    else true
  }

  ghost predicate Shape()
  {
    grid.Length0 == length && grid.Length1 == width
  }

  /** Edge `k` runs from cell `a` to cell `b`. */
  ghost predicate EdgeJoins(k: EdgeId, a: Pos, b: Pos)
    reads this
  {
    k < |edgeTable| && edgeTable[k].from == a && edgeTable[k].to == b
  }

  /**
   * Cell (x, y) is linked to its neighbours: its north slot and the south slot of (x, y-1)
   * hold one shared edge running from (x, y) to (x, y-1); its west slot and the east slot
   * of (x-1, y) hold one shared edge running from (x, y) to (x-1, y); and a slot is empty
   * exactly when it faces the border.
   */
  ghost predicate CellMeshed(x: int, y: int)
    reads this, grid
    requires Shape() && 0 <= x < length && 0 <= y < width
  {
    var n := grid[x, y];
    (n.edges[North].Some? <==> y > 0) &&
    (n.edges[East].Some? <==> x < length - 1) &&
    (n.edges[South].Some? <==> y < width - 1) &&
    (n.edges[West].Some? <==> x > 0) &&
    (y > 0 ==> n.edges[North] == grid[x, y - 1].edges[South] &&
               EdgeJoins(n.edges[North].value, Pos(x, y), Pos(x, y - 1))) &&
    (x > 0 ==> n.edges[West] == grid[x - 1, y].edges[East] &&
               EdgeJoins(n.edges[West].value, Pos(x, y), Pos(x - 1, y)))
  }

  /** The class invariant: the array has the grid's dimensions and every cell is linked. */
  ghost predicate Valid()
    reads this, grid
  {
    Shape() && forall x, y | 0 <= x < length && 0 <= y < width :: CellMeshed(x, y)
  }

  /** Every edge is still as GenerateGrid creates it: no cover, blocks nothing. */
  ghost predicate EdgesFresh()
    reads this
  {
    forall k | 0 <= k < |edgeTable| :: edgeTable[k].coverType == CoverType.None &&
                                       !edgeTable[k].blocksMovement && !edgeTable[k].blocksLineOfSight
  }

  /**
   * Awake's first half, GenerateGrid: creates every node and the shared edges, then
   * samples each cell's elevation and passability. `terrainHeight` is the downward
   * raycast at a cell (Null when it hits nothing) and `obstacle` the box overlap test.
   */
  constructor (length: nat, width: nat, terrainHeight: (int, int) -> Option<int>, obstacle: (int, int) -> bool)
    ensures this.length == length && this.width == width && cellSize == 1
    ensures Valid() && EdgesFresh()
    ensures forall x, y | 0 <= x < length && 0 <= y < width ::
              grid[x, y].gridObject == Null &&
              grid[x, y].passable == !obstacle(x, y) &&
              grid[x, y].elevation == (match terrainHeight(x, y) case Some(h) => h case Null => 0)
    ensures fresh(grid)
  {
    this.length := length;
    this.width := width;
    cellSize := 1;
    grid := new Node[length, width]((x, y) => FreshNode);
    edgeTable := [];
    new;
    LinkNodes();
    CalculateElevation(terrainHeight);
    CheckPassableGrid(obstacle);
  }

  // ---- GenerateGrid's scan, with the edges created so far recorded in two ghost maps ----

  /**
   * The four slots of cell (x, y) once the scan has reached (cx, cy): `north[p]` and
   * `west[p]` are the edges created at cell p towards its y-1 and x-1 neighbours.
   */
  ghost function ScannedSlots(cx: int, cy: int, x: int, y: int,
                              north: map<Pos, EdgeId>, west: map<Pos, EdgeId>): EdgeSlots
  {
    [if y > 0 then Lookup(north, Pos(x, y)) else Null,
     if x < length - 1 && Scanned(cx, cy, x + 1, y) then Lookup(west, Pos(x + 1, y)) else Null,
     if y < width - 1 && Scanned(cx, cy, x, y + 1) then Lookup(north, Pos(x, y + 1)) else Null,
     if x > 0 then Lookup(west, Pos(x, y)) else Null]
  }

  /** Cell (x, y) at scan point (cx, cy): linked if scanned, otherwise still a fresh node. */
  ghost predicate CellScanned(cx: int, cy: int, x: int, y: int,
                              north: map<Pos, EdgeId>, west: map<Pos, EdgeId>)
    reads this, grid
    requires Shape() && 0 <= x < length && 0 <= y < width
  {
    (Scanned(cx, cy, x, y) && y > 0 ==>
       Pos(x, y) in north && EdgeJoins(north[Pos(x, y)], Pos(x, y), Pos(x, y - 1))) &&
    (Scanned(cx, cy, x, y) && x > 0 ==>
       Pos(x, y) in west && EdgeJoins(west[Pos(x, y)], Pos(x, y), Pos(x - 1, y))) &&
    grid[x, y] == if Scanned(cx, cy, x, y) then FreshNode.(edges := ScannedSlots(cx, cy, x, y, north, west))
                  else FreshNode
  }

  ghost predicate Generated(cx: int, cy: int, north: map<Pos, EdgeId>, west: map<Pos, EdgeId>)
    reads this, grid
  {
    Shape() && EdgesFresh() &&
    forall x, y | 0 <= x < length && 0 <= y < width :: CellScanned(cx, cy, x, y, north, west)
  }

  /** The nested loop of GenerateGrid that creates the nodes and their shared edges. */
  method LinkNodes()
    requires Shape() && edgeTable == []
    requires forall x, y | 0 <= x < length && 0 <= y < width :: grid[x, y] == FreshNode
    modifies this`edgeTable, grid
    ensures Valid() && EdgesFresh()
    ensures forall x, y | 0 <= x < length && 0 <= y < width :: grid[x, y] == FreshNode.(edges := grid[x, y].edges)
  {
    ghost var north: map<Pos, EdgeId> := map[];
    ghost var west: map<Pos, EdgeId> := map[];
    var y := 0;
    while y < width
      invariant 0 <= y <= width
      invariant Generated(0, y, north, west)
    {
      var x := 0;
      while x < length
        invariant 0 <= x <= length
        invariant Generated(x, y, north, west)
      {
        north, west := LinkCell(x, y, north, west);
        x := x + 1;
      }
      NextRow(y, north, west);
      y := y + 1;
    }
    AllScanned(north, west);
  }

  lemma NextRow(y: int, north: map<Pos, EdgeId>, west: map<Pos, EdgeId>)
    requires 0 <= y < width
    requires Generated(length, y, north, west)
    ensures Generated(0, y + 1, north, west)
  {
    var next := y + 1;
    forall x, y' | 0 <= x < length && 0 <= y' < width
      ensures CellScanned(0, next, x, y', north, west)
    {
      assert CellScanned(length, y, x, y', north, west);
      assert ScannedSlots(length, y, x, y', north, west) == ScannedSlots(0, next, x, y', north, west);
    }
  }

  lemma AllScanned(north: map<Pos, EdgeId>, west: map<Pos, EdgeId>)
    requires Generated(0, width, north, west)
    ensures Valid()
    ensures forall x, y | 0 <= x < length && 0 <= y < width :: grid[x, y] == FreshNode.(edges := grid[x, y].edges)
  {
    forall x, y | 0 <= x < length && 0 <= y < width
      ensures CellMeshed(x, y) && grid[x, y] == FreshNode.(edges := grid[x, y].edges)
    {
      assert CellScanned(0, width, x, y, north, west);
      if y > 0 { assert CellScanned(0, width, x, y - 1, north, west); }
      if x > 0 { assert CellScanned(0, width, x - 1, y, north, west); }
      if y < width - 1 { assert CellScanned(0, width, x, y + 1, north, west); }
      if x < length - 1 { assert CellScanned(0, width, x + 1, y, north, west); }
    }
  }

  /** One step of the scan: node (x, y) is created and receives its north and west edges. */
  method LinkCell(x: int, y: int, ghost north: map<Pos, EdgeId>, ghost west: map<Pos, EdgeId>)
    returns (ghost north': map<Pos, EdgeId>, ghost west': map<Pos, EdgeId>)
    requires 0 <= x < length && 0 <= y < width
    requires Generated(x, y, north, west)
    modifies this`edgeTable, grid
    ensures Generated(x + 1, y, north', west')
  {
    ghost var k1 := |edgeTable|;
    ghost var k2 := if y > 0 then k1 + 1 else k1;
    north', west' := north, west;
    if y > 0 { assert CellScanned(x, y, x, y - 1, north, west); }
    if x > 0 { assert CellScanned(x, y, x - 1, y, north, west); }
    grid[x, y] := FreshNode;
    if y > 0 {
      Link(x, y, x, y - 1, North, South);
      north' := north'[Pos(x, y) := k1];
    }
    if x > 0 {
      Link(x, y, x - 1, y, West, East);
      west' := west'[Pos(x, y) := k2];
    }
    StepScanned(ScanStep(x, y, north, west, north', west', k1, k2));
  }

  /**
   * A fresh edge from cell (x, y) to its neighbour (nx, ny) is appended to the edge table and
   * recorded in slot `here` of the cell and slot `there` of the neighbour.
   */
  method Link(x: int, y: int, nx: int, ny: int, here: nat, there: nat)
    requires Shape() && 0 <= x < length && 0 <= y < width && 0 <= nx < length && 0 <= ny < width
    requires !(x == nx && y == ny) && here < 4 && there < 4
    modifies this`edgeTable, grid
    ensures edgeTable == old(edgeTable) + [FreshEdge(Pos(x, y), Pos(nx, ny))]
    ensures grid[x, y] == old(grid[x, y]).(edges := old(grid[x, y].edges)[here := Some(|old(edgeTable)|)])
    ensures grid[nx, ny] == old(grid[nx, ny]).(edges := old(grid[nx, ny].edges)[there := Some(|old(edgeTable)|)])
    ensures forall a, b | 0 <= a < length && 0 <= b < width && !(a == x && b == y) && !(a == nx && b == ny) ::
              grid[a, b] == old(grid[a, b])
  {
    var neighbour := grid[nx, ny];
    var k := |edgeTable|;
    edgeTable := edgeTable + [FreshEdge(Pos(x, y), Pos(nx, ny))];
    grid[x, y] := grid[x, y].(edges := grid[x, y].edges[here := Some(k)]);
    grid[nx, ny] := neighbour.(edges := neighbour.edges[there := Some(k)]);
  }

  /**
   * The state after one step of the scan, described cell by cell, satisfies the next
   * invariant. (The step's data is passed as one value `s`.)
   */
  twostate lemma StepScanned(new s: ScanStep)
    requires 0 <= s.x < length && 0 <= s.y < width && Shape()
    requires old(Generated(s.x, s.y, s.north, s.west)) && s.k1 == |old(edgeTable)|
    requires s.y > 0 ==> s.k2 == s.k1 + 1 && s.north' == s.north[Pos(s.x, s.y) := s.k1]
    requires s.y == 0 ==> s.k2 == s.k1 && s.north' == s.north
    requires s.x > 0 ==> s.west' == s.west[Pos(s.x, s.y) := s.k2]
    requires s.x == 0 ==> s.west' == s.west
    requires |edgeTable| == s.k2 + (if s.x > 0 then 1 else 0)
    requires forall k | 0 <= k < s.k1 :: edgeTable[k] == old(edgeTable[k])
    requires s.y > 0 ==> edgeTable[s.k1] == FreshEdge(Pos(s.x, s.y), Pos(s.x, s.y - 1))
    requires s.x > 0 ==> edgeTable[s.k2] == FreshEdge(Pos(s.x, s.y), Pos(s.x - 1, s.y))
    requires grid[s.x, s.y] == Node(false, Null, 0, [if s.y > 0 then Some(s.k1) else Null, Null, Null,
                                                     if s.x > 0 then Some(s.k2) else Null])
    requires s.y > 0 ==> grid[s.x, s.y - 1] == Node(false, Null, 0, old(grid[s.x, s.y - 1].edges)[South := Some(s.k1)])
    requires s.x > 0 ==> grid[s.x - 1, s.y] == Node(false, Null, 0, old(grid[s.x - 1, s.y].edges)[East := Some(s.k2)])
    requires forall a, b | 0 <= a < length && 0 <= b < width &&
                           !(a == s.x && b == s.y) && !(a == s.x && b == s.y - 1) && !(a == s.x - 1 && b == s.y) ::
               grid[a, b] == old(grid[a, b])
    ensures Generated(s.x + 1, s.y, s.north', s.west')
  {
    var next := s.x + 1;
    forall a, b | 0 <= a < length && 0 <= b < width
      ensures CellScanned(next, s.y, a, b, s.north', s.west')
    {
      assert old(CellScanned(s.x, s.y, a, b, s.north, s.west));
      SlotsAfterStep(s.x, s.y, a, b, s.north, s.west, s.north', s.west', s.k1, s.k2);
    }
  }

  /** How one step of the scan changes the recorded slots of each cell. */
  lemma SlotsAfterStep(x: int, y: int, a: int, b: int, north: map<Pos, EdgeId>, west: map<Pos, EdgeId>,
                       north': map<Pos, EdgeId>, west': map<Pos, EdgeId>, k1: EdgeId, k2: EdgeId)
    requires 0 <= x < length && 0 <= y < width && 0 <= a < length && 0 <= b < width
    requires north' == if y > 0 then north[Pos(x, y) := k1] else north
    requires west' == if x > 0 then west[Pos(x, y) := k2] else west
    ensures a == x && b == y ==>
              ScannedSlots(x + 1, y, a, b, north', west') ==
              [if y > 0 then Some(k1) else Null, Null, Null, if x > 0 then Some(k2) else Null]
    ensures a == x && b == y - 1 ==>
              ScannedSlots(x + 1, y, a, b, north', west') ==
              ScannedSlots(x, y, a, b, north, west)[South := Some(k1)]
    ensures a == x - 1 && b == y ==>
              ScannedSlots(x + 1, y, a, b, north', west') ==
              ScannedSlots(x, y, a, b, north, west)[East := Some(k2)]
    ensures !(a == x && b == y) && !(a == x && b == y - 1) && !(a == x - 1 && b == y) ==>
              ScannedSlots(x + 1, y, a, b, north', west') == ScannedSlots(x, y, a, b, north, west)
  {
  }

  // ---- the two sampling passes of GenerateGrid ----

  /** Writes each cell's raycast height; everything else is kept. */
  method CalculateElevation(terrainHeight: (int, int) -> Option<int>)
    requires Valid()
    modifies grid
    ensures Valid()
    ensures forall x, y | 0 <= x < length && 0 <= y < width ::
              grid[x, y] == (match terrainHeight(x, y)
                             case Some(h) => old(grid[x, y]).(elevation := h)
                             case Null => old(grid[x, y]))
  {
    var y := 0;
    while y < width
      invariant 0 <= y <= width
      invariant forall x', y' | 0 <= x' < length && 0 <= y' < width ::
                  grid[x', y'] == (if y' < y then
                                     match terrainHeight(x', y')
                                     case Some(h) => old(grid[x', y']).(elevation := h)
                                     case Null => old(grid[x', y'])
                                   else old(grid[x', y']))
    {
      var x := 0;
      while x < length
        invariant 0 <= x <= length
        invariant forall x', y' | 0 <= x' < length && 0 <= y' < width ::
                    grid[x', y'] == (if Scanned(x, y, x', y') then
                                       match terrainHeight(x', y')
                                       case Some(h) => old(grid[x', y']).(elevation := h)
                                       case Null => old(grid[x', y'])
                                     else old(grid[x', y']))
      {
        match terrainHeight(x, y) {
          case Some(h) => grid[x, y] := grid[x, y].(elevation := h);
          case Null =>
        }
        x := x + 1;
      }
      y := y + 1;
    }
    SlotsKept();
  }

  /** Writes each cell's passability (no obstacle in the cell); everything else is kept. */
  method CheckPassableGrid(obstacle: (int, int) -> bool)
    requires Valid()
    modifies grid
    ensures Valid()
    ensures forall x, y | 0 <= x < length && 0 <= y < width ::
              grid[x, y] == old(grid[x, y]).(passable := !obstacle(x, y))
  {
    var y := 0;
    while y < width
      invariant 0 <= y <= width
      invariant forall x', y' | 0 <= x' < length && 0 <= y' < width ::
                  grid[x', y'] == (if y' < y then old(grid[x', y']).(passable := !obstacle(x', y'))
                                   else old(grid[x', y']))
    {
      var x := 0;
      while x < length
        invariant 0 <= x <= length
        invariant forall x', y' | 0 <= x' < length && 0 <= y' < width ::
                    grid[x', y'] == (if Scanned(x, y, x', y') then old(grid[x', y']).(passable := !obstacle(x', y'))
                                     else old(grid[x', y']))
      {
        grid[x, y] := grid[x, y].(passable := !obstacle(x, y));
        x := x + 1;
      }
      y := y + 1;
    }
    SlotsKept();
  }

  /** The invariant depends only on the edge slots and on the endpoints of the edges. */
  twostate lemma SlotsKept()
    requires old(Valid()) && Shape()
    requires forall x, y | 0 <= x < length && 0 <= y < width :: grid[x, y].edges == old(grid[x, y].edges)
    requires |edgeTable| == |old(edgeTable)|
    requires forall k | 0 <= k < |edgeTable| ::
               edgeTable[k].from == old(edgeTable[k].from) && edgeTable[k].to == old(edgeTable[k].to)
    ensures Valid()
  {
    forall x, y | 0 <= x < length && 0 <= y < width
      ensures CellMeshed(x, y)
    {
      assert old(CellMeshed(x, y));
      if y > 0 { assert grid[x, y - 1].edges == old(grid[x, y - 1].edges); }
      if x > 0 { assert grid[x - 1, y].edges == old(grid[x - 1, y].edges); }
    }
  }

  // ---- queries and placement ----

  /** Whether a cell is passable; the source indexes the array without a bounds check. */
  predicate CheckWalkable(p: Pos)
    reads grid
    requires Shape() && CheckBoundry(p)
  {
    grid[p.x, p.y].passable
  }

  /** The object placed on a cell; Null outside the grid. */
  function GetPlacedObject(p: Pos): (r: Option<Character>)
    reads grid
    requires Shape()
    ensures !CheckBoundry(p) ==> r == Null
  {
    if CheckBoundry(p) then grid[p.x, p.y].gridObject else Null
  }

  /** Places `o` on cell `p`, replacing any occupant; a cell outside the grid is ignored. */
  method PlaceObject(p: Pos, o: Character)
    requires Valid()
    modifies grid
    ensures Valid()
    ensures GetPlacedObject(p) == if CheckBoundry(p) then Some(o) else Null
    ensures CheckBoundry(p) ==> grid[p.x, p.y] == old(grid[p.x, p.y]).(gridObject := Some(o))
    ensures forall x, y | 0 <= x < length && 0 <= y < width && !(x == p.x && y == p.y) ::
              grid[x, y] == old(grid[x, y])
  {
    if CheckBoundry(p) {
      grid[p.x, p.y] := grid[p.x, p.y].(gridObject := Some(o));
    }
    SlotsKept();
  }

  /** Clears cell `p` if `o` is what is placed there; anything else is left alone. */
  method RemoveObject(p: Pos, o: Character)
    requires Valid()
    modifies grid
    ensures Valid()
    ensures old(GetPlacedObject(p)) == Some(o) ==>
              GetPlacedObject(p) == Null && grid[p.x, p.y] == old(grid[p.x, p.y]).(gridObject := Null)
    ensures old(GetPlacedObject(p)) != Some(o) ==> GetPlacedObject(p) == old(GetPlacedObject(p))
    ensures forall x, y | 0 <= x < length && 0 <= y < width && !(x == p.x && y == p.y) ::
              grid[x, y] == old(grid[x, y])
    ensures old(GetPlacedObject(p)) != Some(o) ==> unchanged(grid)
  {
    if CheckBoundry(p) {
      if grid[p.x, p.y].gridObject != Some(o) {
        return;
      }
      grid[p.x, p.y] := grid[p.x, p.y].(gridObject := Null);
      SlotsKept();
    }
  }

  /** After the obstacle scan, exactly the cells without an obstacle are walkable. */
  lemma WalkableUnlessObstacle(obstacle: (int, int) -> bool)
    requires Shape()
    requires forall x, y | 0 <= x < length && 0 <= y < width :: grid[x, y].passable == !obstacle(x, y)
    ensures forall p | CheckBoundry(p) :: CheckWalkable(p) <==> !obstacle(p.x, p.y)
  {
  }

  /** The world position of a cell (cell centre, at ground level or at the cell's elevation). */
  function GetWorldPosition(x: int, y: int, elevation: bool): WorldPoint
    reads grid
    requires elevation ==> Shape() && CheckBoundryXY(x, y)
  {
    WorldPoint(x * cellSize, if elevation then grid[x, y].elevation else 0, y * cellSize)
  }

  /** With a non-zero cell size, different cells have different world positions. */
  lemma WorldPositionsDistinct(x: int, y: int, x': int, y': int, elevation: bool, elevation': bool)
    requires elevation ==> Shape() && CheckBoundryXY(x, y)
    requires elevation' ==> Shape() && CheckBoundryXY(x', y')
    requires cellSize != 0 && (x != x' || y != y')
    ensures GetWorldPosition(x, y, elevation) != GetWorldPosition(x', y', elevation')
  {
    if x != x' {
      assert (x - x') * cellSize != 0;
      assert x * cellSize - x' * cellSize == (x - x') * cellSize;
    } else {
      assert (y - y') * cellSize != 0;
      assert y * cellSize - y' * cellSize == (y - y') * cellSize;
    }
  }

  /** One world point per tile of the path, at the tile's elevation; a null path gives none. */
  method ConvertPathToWorldPosition(path: Option<seq<Pos>>) returns (worldPositions: seq<WorldPoint>)
    requires Shape()
    requires path.Some? ==> forall i | 0 <= i < |path.value| :: CheckBoundryXY(path.value[i].x, path.value[i].y)
    ensures path.Null? ==> worldPositions == []
    ensures path.Some? ==> |worldPositions| == |path.value|
    ensures path.Some? ==> forall i | 0 <= i < |path.value| ::
              worldPositions[i] == GetWorldPosition(path.value[i].x, path.value[i].y, true)
  {
    worldPositions := [];
    if path.Null? {
      return;
    }
    var tiles := path.value;
    var i := 0;
    while i < |tiles|
      invariant 0 <= i <= |tiles|
      invariant |worldPositions| == i
      invariant forall j | 0 <= j < i :: worldPositions[j] == GetWorldPosition(tiles[j].x, tiles[j].y, true)
    {
      worldPositions := worldPositions + [GetWorldPosition(tiles[i].x, tiles[i].y, true)];
      i := i + 1;
    }
  }

  /** The cells of the grid, as a finite set. */
  ghost function Cells(): set<Pos>
  {
    set x, y | 0 <= x < length && 0 <= y < width :: Pos(x, y)
  }

  lemma CellsContain(p: Pos)
    requires CheckBoundry(p)
    ensures p in Cells()
  {
    assert p == Pos(p.x, p.y);
  }

  /** The two CheckBoundry overloads agree, and both mean "inside the grid". */
  lemma CheckBoundryOverloads(p: Pos)
    ensures CheckBoundry(p) == CheckBoundryXY(p.x, p.y)
    ensures CheckBoundry(p) <==> 0 <= p.x < length && 0 <= p.y < width
  {
  }

  // ---- cover ----

  /** Every filled slot of cell (x, y) is below `n`. */
  predicate SlotsBelow(x: int, y: int, n: nat)
    reads grid
    requires Shape() && 0 <= x < length && 0 <= y < width
  {
    forall d | 0 <= d < 4 :: grid[x, y].edges[d].Some? ==> grid[x, y].edges[d].value < n
  }

  /** Every filled slot of every cell indexes a table of `n` edges. */
  ghost predicate SlotsIndex(n: nat)
    reads grid
  {
    Shape() && forall x, y | 0 <= x < length && 0 <= y < width :: SlotsBelow(x, y, n)
  }

  /** Under the mesh invariant every filled slot indexes the edge table. */
  lemma ValidSlotsIndex()
    requires Valid()
    ensures SlotsIndex(|edgeTable|)
  {
    forall x, y | 0 <= x < length && 0 <= y < width
      ensures SlotsBelow(x, y, |edgeTable|)
    {
      assert CellMeshed(x, y);
      if x < length - 1 { var e := x + 1; assert CellMeshed(e, y); }
      if y < width - 1 { var s := y + 1; assert CellMeshed(x, s); }
    }
  }

  /** `table` with edge `k` marked as cover of the given type that blocks line of sight. */
  static function MarkCover(table: seq<NodeEdge>, k: EdgeId, coverType: CoverType): seq<NodeEdge>
    requires k < |table|
  {
    table[k := table[k].(coverType := coverType, blocksLineOfSight := true)]
  }

  /** The slot of node A that faces node B, when both are cells and B is a unit offset away. */
  function SlotFacing(prop: CoverProp): Option<EdgeId>
    reads grid
    requires Shape()
  {
    if !CheckBoundry(prop.nodeA) || !CheckBoundry(prop.nodeB) then Null
    else
      var d := DirectionToIndex(prop.nodeB.Minus(prop.nodeA));
      if d == -1 then Null else grid[prop.nodeA.x, prop.nodeA.y].edges[d]
  }

  /**
   * The effect of one cover prop on the edge table: Null where the source throws
   * (both cells in bounds but not adjacent, so the slot index is -1).
   */
  function CoverStep(table: seq<NodeEdge>, prop: CoverProp): (r: Option<seq<NodeEdge>>)
    reads grid
    requires SlotsIndex(|table|)
    ensures r.Null? <==> CheckBoundry(prop.nodeA) && CheckBoundry(prop.nodeB) &&
                         prop.nodeB.Minus(prop.nodeA) !in CardinalDirections
    ensures r.Some? ==> |r.value| == |table|
    ensures r.Some? ==> forall k | 0 <= k < |table| ::
                r.value[k].from == table[k].from && r.value[k].to == table[k].to &&
                r.value[k].blocksMovement == table[k].blocksMovement &&
                (r.value[k] != table[k] ==>
                   r.value[k].coverType == prop.coverType && r.value[k].blocksLineOfSight &&
                   SlotFacing(prop) == Some(k))
    ensures r.Some? ==> forall k | 0 <= k < |table| && SlotFacing(prop) == Some(k) ::
              r.value[k].coverType == prop.coverType && r.value[k].blocksLineOfSight
  {
    if !CheckBoundry(prop.nodeA) || !CheckBoundry(prop.nodeB) then Some(table)
    else
      var dirFromA := DirectionToIndex(prop.nodeB.Minus(prop.nodeA));
      if dirFromA == -1 then Null
      else
        match grid[prop.nodeA.x, prop.nodeA.y].edges[dirFromA]
        case Null => Some(table)
        case Some(k) =>
          assert SlotsBelow(prop.nodeA.x, prop.nodeA.y, |table|);
          Some(MarkCover(table, k, prop.coverType))
  }

  /** Applies cover props in order, stopping at the first one that makes the source throw. */
  function CoverAll(table: seq<NodeEdge>, props: seq<CoverProp>): (r: CoverOutcome)
    reads grid
    requires SlotsIndex(|table|)
    ensures |r.edges| == |table|
    decreases |props|
  {
    if |props| == 0 then CoverOutcome(table, true)
    else
      match CoverStep(table, props[0])
      case Null => CoverOutcome(table, false)
      case Some(next) => CoverAll(next, props[1..])
  }

  /**
   * Awake's second half, PopulateCover: each prop marks the edge in node A's slot for
   * the direction of B with the prop's cover type and as blocking line of sight. Props
   * with a cell outside the grid or with an empty slot are skipped. `completed` is false
   * when a prop's cells are not adjacent: the source indexes slot -1 and throws, and the
   * remaining props are not processed.
   */
  method PopulateCover(props: seq<CoverProp>) returns (completed: bool)
    requires Valid()
    modifies this`edgeTable
    ensures Valid() && |edgeTable| == |old(edgeTable)| && SlotsIndex(|edgeTable|)
    ensures CoverOutcome(edgeTable, completed) == CoverAll(old(edgeTable), props)
  {
    ValidSlotsIndex();
    completed := true;
    var i := 0;
    while i < |props|
      invariant 0 <= i <= |props|
      invariant Valid() && |edgeTable| == |old(edgeTable)|
      invariant forall k | 0 <= k < |edgeTable| ::
                  edgeTable[k].from == old(edgeTable[k].from) && edgeTable[k].to == old(edgeTable[k].to)
      invariant CoverAll(edgeTable, props[i..]) == CoverAll(old(edgeTable), props)
    {
      var prop := props[i];
      assert props[i..][1..] == props[i + 1..];
      if !CheckBoundry(prop.nodeA) || !CheckBoundry(prop.nodeB) {
        i := i + 1;
        continue;
      }
      var a := grid[prop.nodeA.x, prop.nodeA.y];
      var delta := prop.nodeB.Minus(prop.nodeA);
      var dirFromA := DirectionToIndex(delta);
      if dirFromA == -1 {
        completed := false;
        return;
      }
      var edge := a.edges[dirFromA];
      if edge.Null? {
        i := i + 1;
        continue;
      }
      assert SlotsBelow(prop.nodeA.x, prop.nodeA.y, |edgeTable|);
      edgeTable := MarkCover(edgeTable, edge.value, prop.coverType);
      SlotsKept();
      i := i + 1;
    }
  }

  /**
   * A prop between horizontal neighbours marks the one edge those two cells share:
   * A's slot facing B and B's slot facing A are the same edge, and it joins A and B.
   */
  lemma CoverHorizontalPropMarksSharedEdge(prop: CoverProp, coverType: CoverType)
    requires Valid()
    requires CheckBoundry(prop.nodeA) && CheckBoundry(prop.nodeB)
    requires prop.nodeB == prop.nodeA.Plus(Pos(1, 0)) || prop.nodeB == prop.nodeA.Plus(Pos(-1, 0))
    ensures SlotFacing(prop).Some?
    ensures SlotFacing(prop) == SlotFacing(CoverProp(prop.nodeB, prop.nodeA, coverType))
    ensures EdgeJoins(SlotFacing(prop).value, prop.nodeA, prop.nodeB) ||
            EdgeJoins(SlotFacing(prop).value, prop.nodeB, prop.nodeA)
  {
    var a, b := prop.nodeA, prop.nodeB;
    if b.x > a.x {
      assert CellMeshed(b.x, b.y);
      assert b.Minus(a) == CardinalDirections[East];
      assert a.Minus(b) == CardinalDirections[West];
    } else {
      assert CellMeshed(a.x, a.y);
      assert b.Minus(a) == CardinalDirections[West];
      assert a.Minus(b) == CardinalDirections[East];
    }
  }

  /**
   * A prop between vertical neighbours never marks the edge between them. For B one cell
   * above A (B = A + (0, 1)) the offset maps to slot 0, which GenerateGrid links to the
   * cell at y - 1; on the y = 0 row that slot is empty and the prop has no effect.
   */
  lemma CoverUpwardPropMarksEdgeBelow(prop: CoverProp)
    requires Valid()
    requires CheckBoundry(prop.nodeA) && CheckBoundry(prop.nodeB)
    requires prop.nodeB == prop.nodeA.Plus(Pos(0, 1))
    ensures prop.nodeA.y == 0 ==> SlotFacing(prop) == Null
    ensures prop.nodeA.y > 0 ==>
              SlotFacing(prop).Some? && EdgeJoins(SlotFacing(prop).value, prop.nodeA, Pos(prop.nodeA.x, prop.nodeA.y - 1))
    ensures SlotFacing(prop).Some? ==>
              !EdgeJoins(SlotFacing(prop).value, prop.nodeA, prop.nodeB) &&
              !EdgeJoins(SlotFacing(prop).value, prop.nodeB, prop.nodeA)
  {
    assert CellMeshed(prop.nodeA.x, prop.nodeA.y);
    assert prop.nodeB.Minus(prop.nodeA) == CardinalDirections[North];
  }

  /**
   * The mirror case: for B one cell below A the offset maps to slot 2, which links A to
   * the cell at y + 1; on the top row that slot is empty and the prop has no effect.
   */
  lemma CoverDownwardPropMarksEdgeAbove(prop: CoverProp)
    requires Valid()
    requires CheckBoundry(prop.nodeA) && CheckBoundry(prop.nodeB)
    requires prop.nodeB == prop.nodeA.Plus(Pos(0, -1))
    ensures prop.nodeA.y == width - 1 ==> SlotFacing(prop) == Null
    ensures prop.nodeA.y < width - 1 ==>
              SlotFacing(prop).Some? && EdgeJoins(SlotFacing(prop).value, Pos(prop.nodeA.x, prop.nodeA.y + 1), prop.nodeA)
    ensures SlotFacing(prop).Some? ==>
              !EdgeJoins(SlotFacing(prop).value, prop.nodeA, prop.nodeB) &&
              !EdgeJoins(SlotFacing(prop).value, prop.nodeB, prop.nodeA)
  {
    var a := prop.nodeA;
    assert CellMeshed(a.x, a.y);
    assert prop.nodeB.Minus(a) == CardinalDirections[South];
    if a.y < width - 1 { var above := a.y + 1; assert CellMeshed(a.x, above); }
  }

  /** Under the mesh invariant, a prop whose A slot facing B is empty leaves the table alone. */
  lemma CoverSkipsEmptySlot(table: seq<NodeEdge>, prop: CoverProp)
    requires SlotsIndex(|table|)
    requires SlotFacing(prop).Null? && CheckBoundry(prop.nodeA) && CheckBoundry(prop.nodeB)
    requires prop.nodeB.Minus(prop.nodeA) in CardinalDirections
    ensures CoverStep(table, prop) == Some(table)
  {
  }
}
