// Grid cells, their four edge slots, and the edges shared between neighbouring cells.

/** A grid coordinate (Unity's Vector2Int). */
datatype Pos = Pos(x: int, y: int)
{
  function Plus(d: Pos): Pos { Pos(x + d.x, y + d.y) }
  function Minus(o: Pos): Pos { Pos(x - o.x, y - o.y) }
}

function Abs(n: int): (r: nat)
  ensures r == n || r == -n
{
  if n < 0 then -n else n
}

/** Manhattan (grid) distance between two cells. */
function Manhattan(a: Pos, b: Pos): nat
{
  Abs(a.x - b.x) + Abs(a.y - b.y)
}

datatype CoverType = None | Half | Full

/**
 * A boundary between two adjacent cells. `from` and `to` are the cells at its ends
 * (a cell is identified by its grid coordinate).
 */
datatype NodeEdge = NodeEdge(coverType: CoverType, blocksMovement: bool, blocksLineOfSight: bool,
                             from: Pos, to: Pos)

/** Index of an edge in the grid's edge table; a shared edge has one index in both of its slots. */
type EdgeId = nat

/** A node's edge array always has exactly four slots, in the order N, E, S, W. */
type EdgeSlots = s: seq<Option<EdgeId>> | |s| == 4 witness [Null, Null, Null, Null]

const North := 0
const East := 1
const South := 2
const West := 3

/**
 * One grid cell. The occupant is the GameObject placed on the cell, identified here
 * by its Character.
 */
datatype Node = Node(passable: bool, gridObject: Option<Character>, elevation: int, edges: EdgeSlots)

/** `new Node()`: not passable, nothing placed, elevation 0, four empty edge slots. */
const FreshNode: Node := Node(false, Null, 0, [Null, Null, Null, Null])
