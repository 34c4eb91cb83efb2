// Movement range and path queries for a unit: the cost-bounded flood fill that lights
// the reachable tiles, and path lookup through the pathfinder.

/** The step cost of entering `n`: the override when one is given, else 1. */
function StepCost(settings: Option<PathfindingSettings>, n: Pos): int
{
  if settings.Some? && settings.value.movementCostOverride.Some? then settings.value.movementCostOverride.value(n)
  else 1
}

/** The flood fill's cost bound: `settings?.MaxSearchCost ?? float.MaxValue`. */
function MaxCost(settings: Option<PathfindingSettings>): int
{
  if settings.Some? then settings.value.maxSearchCost else FloatMaxValue
}

/** A cost override, if any, never gives a negative step cost. */
ghost predicate CostsNonNegative(settings: Option<PathfindingSettings>)
{
  settings.Some? && settings.value.movementCostOverride.Some? ==>
    forall p :: settings.value.movementCostOverride.value(p) >= 0
}

/** The cost of a walk: the step costs of entering each of its cells after the first. */
ghost function WalkCost(settings: Option<PathfindingSettings>, w: seq<Pos>): int
  decreases |w|
{
  if |w| <= 1 then 0 else WalkCost(settings, w[..|w| - 1]) + StepCost(settings, w[|w| - 1])
}

/** Extending a walk by one cell adds that cell's step cost. */
lemma WalkCostSnoc(settings: Option<PathfindingSettings>, w: seq<Pos>, x: Pos)
  requires |w| > 0
  ensures WalkCost(settings, w + [x]) == WalkCost(settings, w) + StepCost(settings, x)
{
  assert (w + [x])[..|w|] == w;
}

/** With no negative step costs a walk costs at least as much as any non-empty prefix of it. */
lemma {:induction false} WalkCostPrefix(settings: Option<PathfindingSettings>, w: seq<Pos>, m: int)
  requires CostsNonNegative(settings) && 1 <= m <= |w|
  ensures WalkCost(settings, w[..m]) <= WalkCost(settings, w)
  decreases |w|
{
  if m < |w| {
    var front := w[..|w| - 1];
    assert front[..m] == w[..m];
    WalkCostPrefix(settings, front, m);
  } else {
    assert w[..m] == w;
  }
}

/** The 32-bit two's-complement pattern of an int, as an unchecked C# cast keeps it. */
function ToBits(v: int): bv32
{
  (v % 0x1_0000_0000) as bv32
}

/** The int a 32-bit two's-complement pattern stands for. */
function FromBits(b: bv32): int
{
  if b as int < 0x8000_0000 then b as int else b as int - 0x1_0000_0000
}

/** The engine's hash code of a Vector2Int: `x ^ (y << 2)` on 32-bit ints. */
function Vector2IntHash(p: Pos): int
{
  FromBits(ToBits(p.x) ^ (ToBits(p.y) << 2))
}

/**
 * The engine's hash does not tell cells apart: (4, 2) and (12, 0) both hash to 12. Seen from
 * a unit at (8, 1) both are 5 steps away, so at that cost their open records have the same
 * key and SortedSet.Add keeps whichever came first.
 */
lemma Vector2IntHashCollides()
  ensures Vector2IntHash(Pos(4, 2)) == 12 && Vector2IntHash(Pos(12, 0)) == 12
  ensures Manhattan(Pos(8, 1), Pos(4, 2)) == 5 && Manhattan(Pos(8, 1), Pos(12, 0)) == 5
  ensures SortedAdd(map[Key(5, 12) := Pos(4, 2)], Key(5, 12), Pos(12, 0)) == map[Key(5, 12) := Pos(4, 2)]
  ensures !Injective(Vector2IntHash)
{
  SmallBits(4);
  SmallBits(2);
  SmallBits(12);
  SmallBits(0);
  assert (4 as bv32) ^ ((2 as bv32) << 2) == 12;
  assert (12 as bv32) ^ ((0 as bv32) << 2) == 12;
  assert Pos(4, 2) != Pos(12, 0);
}

/** A small non-negative int is its own 32-bit pattern. */
lemma SmallBits(v: int)
  requires 0 <= v < 16
  ensures ToBits(v) == v as bv32
{
  assert v % 0x1_0000_0000 == v;
}

/** The zigzag code of an int: 0, -1, 1, -2, 2, ... become 0, 1, 2, 3, 4, ... */
function Zigzag(v: int): (r: nat)
  ensures r % 2 == 0 <==> v >= 0
{
  if v >= 0 then 2 * v else -2 * v - 1
}

/** 0 + 1 + ... + n. */
function Triangle(n: nat): nat
{
  if n == 0 then 0 else Triangle(n - 1) + n
}

/** Triangle numbers leave a gap wider than their index before the next one. */
lemma {:induction false} TriangleGap(m: nat, n: nat)
  requires m < n
  ensures Triangle(m) + m < Triangle(n)
  decreases n
{
  if m < n - 1 {
    TriangleGap(m, n - 1);
  }
}

/** A tie-break that tells cells apart: the Cantor pairing of the coordinates' zigzag codes. */
function CellTie(p: Pos): int
{
  var a, b := Zigzag(p.x), Zigzag(p.y);
  Triangle(a + b) + b
}

/** No two cells share a CellTie. */
lemma CellTieInjective()
  ensures Injective(CellTie)
{
  forall p, q | CellTie(p) == CellTie(q)
    ensures p == q
  {
    var s, t := Zigzag(p.x) + Zigzag(p.y), Zigzag(q.x) + Zigzag(q.y);
    if s < t {
      TriangleGap(s, t);
    } else if t < s {
      TriangleGap(t, s);
    }
  }
}

/**
 * The settings CheckWalkableTerrain hands the flood fill: the unit's movement allowance as
 * the cost bound, no heuristic, and nothing else set.
 */
function MoveSettings(speed: int): Option<PathfindingSettings>
{
  Some(DefaultSettings.(maxSearchCost := speed, useHeuristic := false))
}

/** Under the movement settings every step costs 1, so a walk costs its number of steps. */
lemma {:induction false} MoveWalkCost(speed: int, w: seq<Pos>)
  requires |w| > 0
  ensures WalkCost(MoveSettings(speed), w) == |w| - 1
  decreases |w|
{
  if |w| > 1 {
    MoveWalkCost(speed, w[..|w| - 1]);
  }
}

/** The four cells next to `pos`, in the order of CardinalDirections (unfiltered). */
function CardinalNeighborsOf(pos: Pos): (r: seq<Pos>)
{
  [pos.Plus(CardinalDirections[0]), pos.Plus(CardinalDirections[1]),
   pos.Plus(CardinalDirections[2]), pos.Plus(CardinalDirections[3])]
}

/** Recording something new leaves fewer recordable pairs unrecorded. */
lemma FewerLeft<T>(universe: set<T>, before: set<T>, after: set<T>)
  requires before <= after <= universe && before != after
  ensures |universe - after| < |universe - before|
{
  var x :| x in after && x !in before;
  var left, gained := universe - after, (universe - before) - (universe - after);
  assert x in gained;
  assert universe - before == left + gained;
  assert left * gained == {};
}

/** The flood fill's neighbours of a cell are exactly the cells one step away. */
lemma CardinalNeighborsAreAdjacent(pos: Pos, n: Pos)
  ensures n in CardinalNeighborsOf(pos) <==> Manhattan(pos, n) == 1
{
}

class MoveUnit
{
  const grid: GridMap
  const targetRenderer: GridRenderer
  const pathfinder: Pathfinder

  /** Awake: a pathfinder over this unit mover's grid. */
  constructor(grid: GridMap, targetRenderer: GridRenderer)
    ensures this.grid == grid && this.targetRenderer == targetRenderer
    ensures pathfinder.gridMap == grid && fresh(pathfinder)
  {
    this.grid := grid;
    this.targetRenderer := targetRenderer;
    pathfinder := new Pathfinder(grid);
  }

  /** A cell the flood fill may enter: in bounds, walkable, accepted by the extra check. */
  predicate Enterable(settings: Option<PathfindingSettings>, n: Pos)
    reads grid.grid
    requires grid.Shape()
  {
    grid.CheckBoundry(n) && grid.CheckWalkable(n) && PassesExtraCheck(settings, n)
  }

  /**
   * Result cell i > 0 was reached from an earlier result cell one step away, paying
   * that cell's step cost, within the cost bound, and may be entered.
   */
  ghost predicate ReachedFrom(settings: Option<PathfindingSettings>, result: seq<Pos>,
                              costs: seq<int>, parents: seq<int>, i: int)
    reads grid.grid
    requires grid.Shape() && |costs| == |result| && |parents| == |result|
  {
    1 <= i < |result| ==>
      0 <= parents[i] < i && Manhattan(result[parents[i]], result[i]) == 1 &&
      costs[i] == costs[parents[i]] + StepCost(settings, result[i]) &&
      costs[i] <= MaxCost(settings) && Enterable(settings, result[i])
  }

  /** A walk from `origin`: one cardinal step at a time, every cell after the first enterable. */
  ghost predicate Walk(settings: Option<PathfindingSettings>, origin: Pos, w: seq<Pos>)
    reads grid.grid
    requires grid.Shape()
  {
    |w| > 0 && w[0] == origin &&
    forall j | 1 <= j < |w| :: Manhattan(w[j - 1], w[j]) == 1 && Enterable(settings, w[j])
  }

  /** `q` ends a walk from `origin` that costs no more than the bound. */
  ghost predicate ReachableWithin(settings: Option<PathfindingSettings>, origin: Pos, q: Pos)
    reads grid.grid
    requires grid.Shape()
  {
    exists w :: Walk(settings, origin, w) && w[|w| - 1] == q && WalkCost(settings, w) <= MaxCost(settings)
  }

  /** A walk of n steps ends at most n cells (Manhattan) from where it starts. */
  lemma {:induction false} WalkManhattan(settings: Option<PathfindingSettings>, origin: Pos, w: seq<Pos>)
    requires grid.Shape() && Walk(settings, origin, w)
    ensures Manhattan(origin, w[|w| - 1]) <= |w| - 1
    decreases |w|
  {
    if |w| > 1 {
      var front := w[..|w| - 1];
      assert Walk(settings, origin, front) by {
        forall j | 1 <= j < |front|
          ensures Manhattan(front[j - 1], front[j]) == 1 && Enterable(settings, front[j])
        {
          assert front[j - 1] == w[j - 1] && front[j] == w[j];
        }
      }
      WalkManhattan(settings, origin, front);
      assert Manhattan(w[|w| - 2], w[|w| - 1]) == 1;
    }
  }

  /** A cell within a unit's movement range is at most its movement allowance away. */
  lemma MoveReachBound(origin: Pos, speed: int, q: Pos)
    requires grid.Shape() && ReachableWithin(MoveSettings(speed), origin, q)
    ensures Manhattan(origin, q) <= speed
  {
    var w :| Walk(MoveSettings(speed), origin, w) && w[|w| - 1] == q &&
             WalkCost(MoveSettings(speed), w) <= MaxCost(MoveSettings(speed));
    WalkManhattan(MoveSettings(speed), origin, w);
    MoveWalkCost(speed, w);
  }

  /**
   * The movement range of a unit at `origin` with allowance `speed`, in CheckWalkableTerrain's
   * order: the origin first, no cell twice, every other cell in bounds, walkable, at most `speed`
   * away and one step from an earlier cell; every cell but the origin ends a walk of at most
   * `speed` steps, and when the tie-break tells cells apart every such walk's end is included.
   */
  ghost predicate MoveRange(origin: Pos, speed: int, hash: Pos -> int, tiles: seq<Pos>)
    reads grid.grid
    requires grid.Shape()
  {
    |tiles| > 0 && tiles[0] == origin &&
    (forall i, j | 0 <= i < j < |tiles| :: tiles[i] != tiles[j]) &&
    (forall i | 1 <= i < |tiles| ::
       grid.CheckBoundry(tiles[i]) && grid.CheckWalkable(tiles[i]) && Manhattan(origin, tiles[i]) <= speed) &&
    (forall i | 1 <= i < |tiles| :: exists j | 0 <= j < i :: Manhattan(tiles[j], tiles[i]) == 1) &&
    (forall q | q in tiles :: q == origin || ReachableWithin(MoveSettings(speed), origin, q)) &&
    (Injective(hash) ==> forall q | ReachableWithin(MoveSettings(speed), origin, q) :: q in tiles)
  }

  /** With CellTie breaking ties, a movement range holds every cell within the unit's reach. */
  lemma CellTieRangeComplete(origin: Pos, speed: int, tiles: seq<Pos>, q: Pos)
    requires grid.Shape() && MoveRange(origin, speed, CellTie, tiles)
    requires ReachableWithin(MoveSettings(speed), origin, q)
    ensures q in tiles
  {
    CellTieInjective();
  }

  /** Every open record costs at least the best cost recorded for its cell. */
  ghost predicate OpenCosted(open: map<Key, Pos>, costSoFar: map<Pos, int>)
  {
    forall k | k in open :: open[k] in costSoFar && costSoFar[open[k]] <= k.fCost
  }

  /** Every neighbour of `p` that may be entered for `c` plus its step cost has a best cost no higher. */
  ghost predicate Relaxed(settings: Option<PathfindingSettings>, p: Pos, c: int, costSoFar: map<Pos, int>)
    reads grid.grid
    requires grid.Shape()
  {
    forall n | n in CardinalNeighborsOf(p) && Enterable(settings, n) && c + StepCost(settings, n) <= MaxCost(settings) ::
      n in costSoFar && costSoFar[n] <= c + StepCost(settings, n)
  }

  /**
   * Dijkstra's bookkeeping, which the flood fill keeps when no two cells share a hash: the
   * origin's best cost is 0; a cell with a best cost is visited or has an open record at
   * that cost; every open record costs at least the last visited cell, which costs at least
   * every earlier one; a visited cell's best cost is the cost it was visited at; and every
   * visited cell has offered all its neighbours.
   */
  ghost predicate Settled(origin: Pos, settings: Option<PathfindingSettings>, hash: Pos -> int,
                          open: map<Key, Pos>, visited: set<Pos>, result: seq<Pos>, costs: seq<int>,
                          costSoFar: map<Pos, int>)
    reads grid.grid
    requires grid.Shape() && |costs| == |result|
  {
    origin in costSoFar && costSoFar[origin] <= 0 &&
    (forall p | p in costSoFar ::
       p in visited || (Key(costSoFar[p], hash(p)) in open && open[Key(costSoFar[p], hash(p))] == p)) &&
    (forall k | k in open && result != [] :: k.fCost >= costs[|result| - 1]) &&
    (forall i | 0 <= i < |result| :: costs[i] <= costs[|result| - 1]) &&
    (forall i | 0 <= i < |result| :: result[i] in costSoFar && costSoFar[result[i]] == costs[i]) &&
    (forall i | 0 <= i < |result| :: Relaxed(settings, result[i], costs[i], costSoFar))
  }

  /**
   * An open record: keyed by its cost and its cell's hash. The origin record has no
   * parent and exists only before anything is visited; any other record was made from
   * result cell `parentOf[k]`, one step away, at that cell's cost plus the step cost.
   */
  ghost predicate FloodEntry(origin: Pos, settings: Option<PathfindingSettings>, hash: Pos -> int,
                             open: map<Key, Pos>, parentOf: map<Key, int>,
                             result: seq<Pos>, costs: seq<int>, k: Key)
    reads grid.grid
    requires grid.Shape() && |costs| == |result|
  {
    k in open ==>
      k in parentOf && k.tie == hash(open[k]) && k.fCost >= 0 &&
      (parentOf[k] == -1 ==> open[k] == origin && k.fCost == 0 && result == []) &&
      (parentOf[k] != -1 ==>
         0 <= parentOf[k] < |result| && Manhattan(result[parentOf[k]], open[k]) == 1 &&
         k.fCost == costs[parentOf[k]] + StepCost(settings, open[k]) &&
         k.fCost <= MaxCost(settings) && Enterable(settings, open[k]))
  }

  /** Every (cell, cost) pair ever recorded costs at least the cell's current best. */
  ghost predicate Recorded(costSoFar: map<Pos, int>, added: set<(Pos, int)>)
  {
    forall pc | pc in added :: pc.0 in costSoFar && pc.1 >= costSoFar[pc.0]
  }

  /** The (cell, cost) pairs the flood fill can ever record: grid cells within the bound. */
  ghost function Recordable(settings: Option<PathfindingSettings>): set<(Pos, int)>
  {
    set p, c | p in grid.Cells() && 0 <= c <= MaxCost(settings) :: (p, c)
  }

  /**
   * The inner loop of FloodFillWalkable: offer the four neighbours of the just-visited
   * cell `current` (the last result cell, at cost `g`). A neighbour is recorded only
   * if it may be entered, its new cost is within the bound and below any earlier cost,
   * so a recorded cost only ever goes down. Its open record is added only when no record
   * with the same key is open (SortedSet.Add); when no two cells share a hash that is
   * always so, and every recorded cost then has its open record.
   */
  method ExpandFlood(origin: Pos, settings: Option<PathfindingSettings>, hash: Pos -> int,
                     result: seq<Pos>, ghost costs: seq<int>, current: Pos, g: int,
                     open: map<Key, Pos>, ghost parentOf: map<Key, int>,
                     costSoFar: map<Pos, int>, ghost added: set<(Pos, int)>)
    returns (open': map<Key, Pos>, ghost parentOf': map<Key, int>,
             costSoFar': map<Pos, int>, ghost added': set<(Pos, int)>)
    requires grid.Shape() && CostsNonNegative(settings)
    requires |costs| == |result| && |result| > 0
    requires current == result[|result| - 1] && g == costs[|result| - 1] && g >= 0
    requires forall k :: FloodEntry(origin, settings, hash, open, parentOf, result, costs, k)
    requires Recorded(costSoFar, added) && added <= Recordable(settings)
    requires OpenCosted(open, costSoFar)
    ensures forall k :: FloodEntry(origin, settings, hash, open', parentOf', result, costs, k)
    ensures Recorded(costSoFar', added') && added <= added' <= Recordable(settings)
    ensures added' == added ==> open' == open
    ensures forall p | p in costSoFar :: p in costSoFar' && costSoFar'[p] <= costSoFar[p]
    ensures OpenCosted(open', costSoFar') && Relaxed(settings, current, g, costSoFar')
    ensures forall k | k in open :: k in open' && open'[k] == open[k]
    ensures forall k | k in open' :: k in open || k.fCost >= g
    ensures forall p | p in costSoFar && costSoFar[p] <= g :: costSoFar'[p] == costSoFar[p]
    ensures Injective(hash) ==>
              forall p | p in costSoFar' ::
                (p in costSoFar && costSoFar'[p] == costSoFar[p]) ||
                (Key(costSoFar'[p], hash(p)) in open' && open'[Key(costSoFar'[p], hash(p))] == p)
  {
    open', parentOf', costSoFar', added' := open, parentOf, costSoFar, added;
    var neighbors := CardinalNeighborsOf(current);
    var i := 0;
    while i < 4
      invariant 0 <= i <= 4
      invariant forall k :: FloodEntry(origin, settings, hash, open', parentOf', result, costs, k)
      invariant Recorded(costSoFar', added') && added' <= Recordable(settings)
      invariant Grown(hash, g, open, costSoFar, added, open', costSoFar', added')
      invariant OpenCosted(open', costSoFar')
      invariant forall n | n in neighbors[..i] && Enterable(settings, n) && g + StepCost(settings, n) <= MaxCost(settings) ::
                  n in costSoFar' && costSoFar'[n] <= g + StepCost(settings, n)
    {
      var neighbor := neighbors[i];
      assert neighbors[..i + 1] == neighbors[..i] + [neighbor];
      assert Manhattan(current, neighbor) == 1;
      i := i + 1;
      ghost var open0, costSoFar0, added0 := open', costSoFar', added';
      open', parentOf', costSoFar', added' :=
        OfferNeighbor(origin, settings, hash, result, costs, g, neighbor, open', parentOf', costSoFar', added');
      GrownTrans(hash, g, open, costSoFar, added, open0, costSoFar0, added0, open', costSoFar', added');
    }
    assert neighbors[..4] == neighbors;
  }

  /**
   * Between two states of ExpandFlood at cost `g`: records are only added, recorded costs only
   * fall, open records are kept and new ones cost at least `g`, costs up to `g` are final, and
   * (with a telling hash) every changed cost has its open record.
   */
  ghost predicate Grown(hash: Pos -> int, g: int, open: map<Key, Pos>, costSoFar: map<Pos, int>, added: set<(Pos, int)>,
                        open': map<Key, Pos>, costSoFar': map<Pos, int>, added': set<(Pos, int)>)
  {
    added <= added' && (added' == added ==> open' == open) &&
    (forall p | p in costSoFar :: p in costSoFar' && costSoFar'[p] <= costSoFar[p]) &&
    (forall k | k in open :: k in open' && open'[k] == open[k]) &&
    (forall k | k in open' :: k in open || k.fCost >= g) &&
    (forall p | p in costSoFar && costSoFar[p] <= g :: costSoFar'[p] == costSoFar[p]) &&
    (Injective(hash) ==>
       forall p | p in costSoFar' ::
         (p in costSoFar && costSoFar'[p] == costSoFar[p]) ||
         (Key(costSoFar'[p], hash(p)) in open' && open'[Key(costSoFar'[p], hash(p))] == p))
  }

  /** Grown composes. */
  lemma GrownTrans(hash: Pos -> int, g: int, open: map<Key, Pos>, costSoFar: map<Pos, int>, added: set<(Pos, int)>,
                   open': map<Key, Pos>, costSoFar': map<Pos, int>, added': set<(Pos, int)>,
                   open'': map<Key, Pos>, costSoFar'': map<Pos, int>, added'': set<(Pos, int)>)
    requires Grown(hash, g, open, costSoFar, added, open', costSoFar', added')
    requires Grown(hash, g, open', costSoFar', added', open'', costSoFar'', added'')
    ensures Grown(hash, g, open, costSoFar, added, open'', costSoFar'', added'')
  {
  }

  /**
   * One neighbour's turn in ExpandFlood: `n`, one step from the last result cell (at cost
   * `g`), gets the new cost and, if its key is free, an open record. Only `n`'s recorded cost
   * can change, and only downwards.
   */
  method OfferNeighbor(origin: Pos, settings: Option<PathfindingSettings>, hash: Pos -> int,
                       result: seq<Pos>, ghost costs: seq<int>, g: int, neighbor: Pos,
                       open: map<Key, Pos>, ghost parentOf: map<Key, int>,
                       costSoFar: map<Pos, int>, ghost added: set<(Pos, int)>)
    returns (open': map<Key, Pos>, ghost parentOf': map<Key, int>,
             costSoFar': map<Pos, int>, ghost added': set<(Pos, int)>)
    requires grid.Shape() && CostsNonNegative(settings)
    requires |costs| == |result| && |result| > 0
    requires g == costs[|result| - 1] && g >= 0 && Manhattan(result[|result| - 1], neighbor) == 1
    requires forall k :: FloodEntry(origin, settings, hash, open, parentOf, result, costs, k)
    requires Recorded(costSoFar, added) && added <= Recordable(settings)
    requires OpenCosted(open, costSoFar)
    ensures forall k :: FloodEntry(origin, settings, hash, open', parentOf', result, costs, k)
    ensures Recorded(costSoFar', added') && added' <= Recordable(settings)
    ensures Grown(hash, g, open, costSoFar, added, open', costSoFar', added')
    ensures forall p | p in costSoFar' && p != neighbor :: p in costSoFar && costSoFar'[p] == costSoFar[p]
    ensures OpenCosted(open', costSoFar')
    ensures Enterable(settings, neighbor) && g + StepCost(settings, neighbor) <= MaxCost(settings) ==>
              neighbor in costSoFar' && costSoFar'[neighbor] <= g + StepCost(settings, neighbor)
    ensures (neighbor in costSoFar' && Key(costSoFar'[neighbor], hash(neighbor)) in open &&
             open[Key(costSoFar'[neighbor], hash(neighbor))] != neighbor) ==> open' == open
  {
    open', parentOf', costSoFar', added' := open, parentOf, costSoFar, added;
    if !grid.CheckBoundry(neighbor) || !grid.CheckWalkable(neighbor) {
      return;
    }
    if !PassesExtraCheck(settings, neighbor) {
      return;
    }
    var moveCost := StepCost(settings, neighbor);
    var newCost := g + moveCost;
    if newCost > MaxCost(settings) {
      return;
    }
    if neighbor in costSoFar && newCost >= costSoFar[neighbor] {
      return;
    }
    costSoFar' := costSoFar[neighbor := newCost];
    grid.CellsContain(neighbor);
    assert (neighbor, newCost) !in added;
    added' := added + {(neighbor, newCost)};
    var key := Key(newCost, hash(neighbor));
    if key !in open {
      open' := open[key := neighbor];
      parentOf' := parentOf[key := |result| - 1];
      FloodEntryAfterAdd(origin, settings, hash, open, parentOf, result, costs, key, neighbor, open', parentOf');
    } else {
      assert FloodEntry(origin, settings, hash, open, parentOf, result, costs, key);
    }
  }

  /** Adding a record for a neighbour of the last result cell keeps every entry sound. */
  lemma FloodEntryAfterAdd(origin: Pos, settings: Option<PathfindingSettings>, hash: Pos -> int,
                           open: map<Key, Pos>, parentOf: map<Key, int>,
                           result: seq<Pos>, costs: seq<int>, key: Key, n: Pos,
                           open': map<Key, Pos>, parentOf': map<Key, int>)
    requires grid.Shape() && |costs| == |result| && |result| > 0
    requires open' == open[key := n] && parentOf' == parentOf[key := |result| - 1]
    requires forall k :: FloodEntry(origin, settings, hash, open, parentOf, result, costs, k)
    requires key !in open && key.tie == hash(n) && key.fCost >= 0
    requires Manhattan(result[|result| - 1], n) == 1
    requires key.fCost == costs[|result| - 1] + StepCost(settings, n)
    requires key.fCost <= MaxCost(settings) && Enterable(settings, n)
    ensures forall k :: FloodEntry(origin, settings, hash, open', parentOf', result, costs, k)
  {
    forall k
      ensures FloodEntry(origin, settings, hash, open', parentOf', result, costs, k)
    {
      assert FloodEntry(origin, settings, hash, open, parentOf, result, costs, k);
    }
  }

  /**
   * The cells reachable from `origin` within the cost bound, in visiting order. The
   * origin comes first and no cell twice. Every later cell may be entered and was
   * reached from an earlier one a step away; the ghost `costs` are the accumulated
   * costs (0 at the origin) and `parents` the index of the cell each was reached from.
   * `hash` stands for Vector2Int's hash code, which orders records of equal cost.
   */
  method FloodFillWalkable(origin: Pos, settings: Option<PathfindingSettings>, hash: Pos -> int)
    returns (result: seq<Pos>, ghost costs: seq<int>, ghost parents: seq<int>)
    requires grid.Shape() && CostsNonNegative(settings)
    ensures |result| > 0 && result[0] == origin
    ensures forall i, j | 0 <= i < j < |result| :: result[i] != result[j]
    ensures forall i | 1 <= i < |result| :: Enterable(settings, result[i])
    ensures |costs| == |result| && |parents| == |result| && costs[0] == 0
    ensures forall i :: ReachedFrom(settings, result, costs, parents, i)
    ensures forall q | q in result :: q == origin || ReachableWithin(settings, origin, q)
    ensures Injective(hash) ==> forall q | ReachableWithin(settings, origin, q) :: q in result
  {
    var startKey := Key(0, hash(origin));
    var open := map[startKey := origin];
    ghost var parentOf := map[startKey := -1];
    var visited: set<Pos> := {};
    var costSoFar := map[origin := 0];
    result, costs, parents := [], [], [];
    ghost var added: set<(Pos, int)> := {};
    FloodStart(origin, settings, hash);

    while open != map[]
      invariant FloodLoop(origin, settings, hash, open, parentOf, visited, result, costs, parents, costSoFar, added)
      decreases |Recordable(settings) - added|, |open|
    {
      open, parentOf, visited, result, costs, parents, costSoFar, added :=
        FloodStep(origin, settings, hash, open, parentOf, visited, result, costs, parents, costSoFar, added);
    }
    FloodDone(origin, settings, hash, parentOf, visited, result, costs, parents, costSoFar);
  }

  /** What an emptied open set leaves: every cell entered is reachable, and (with a telling hash) every reachable cell is entered. */
  lemma FloodDone(origin: Pos, settings: Option<PathfindingSettings>, hash: Pos -> int, parentOf: map<Key, int>,
                  visited: set<Pos>, result: seq<Pos>, costs: seq<int>, parents: seq<int>, costSoFar: map<Pos, int>)
    requires grid.Shape() && CostsNonNegative(settings)
    requires FloodInv(origin, settings, hash, map[], parentOf, visited, result, costs, parents)
    requires Injective(hash) ==> Settled(origin, settings, hash, map[], visited, result, costs, costSoFar)
    ensures |result| > 0 && result[0] == origin
    ensures forall i | 1 <= i < |result| :: Enterable(settings, result[i])
    ensures forall q | q in result :: q == origin || ReachableWithin(settings, origin, q)
    ensures Injective(hash) ==> forall q | ReachableWithin(settings, origin, q) :: q in result
  {
    forall i | 1 <= i < |result|
      ensures Enterable(settings, result[i])
    {
      assert ReachedFrom(settings, result, costs, parents, i);
    }
    forall q | q in result
      ensures q == origin || ReachableWithin(settings, origin, q)
    {
      var i :| 0 <= i < |result| && result[i] == q;
      if i > 0 {
        assert ReachedFrom(settings, result, costs, parents, i);
        var w := ChainWalk(origin, settings, result, costs, parents, i);
      }
    }
    if Injective(hash) {
      forall q | ReachableWithin(settings, origin, q)
        ensures q in result
      {
        var w :| Walk(settings, origin, w) && w[|w| - 1] == q && WalkCost(settings, w) <= MaxCost(settings);
        SettledReachesWalk(origin, settings, hash, visited, result, costs, costSoFar, w, |w| - 1);
      }
    }
  }

  /** The chain of parents from result cell i back to the origin, read forwards, is a walk costing costs[i]. */
  lemma {:induction false} ChainWalk(origin: Pos, settings: Option<PathfindingSettings>,
                                     result: seq<Pos>, costs: seq<int>, parents: seq<int>, i: int)
    returns (w: seq<Pos>)
    requires grid.Shape() && |costs| == |result| && |parents| == |result| && 0 <= i < |result|
    requires result[0] == origin && costs[0] == 0
    requires forall j :: ReachedFrom(settings, result, costs, parents, j)
    ensures Walk(settings, origin, w) && w[|w| - 1] == result[i] && WalkCost(settings, w) == costs[i]
    decreases i
  {
    if i == 0 {
      w := [origin];
    } else {
      assert ReachedFrom(settings, result, costs, parents, i);
      var w0 := ChainWalk(origin, settings, result, costs, parents, parents[i]);
      w := w0 + [result[i]];
      WalkCostSnoc(settings, w0, result[i]);
      forall j | 1 <= j < |w|
        ensures Manhattan(w[j - 1], w[j]) == 1 && Enterable(settings, w[j])
      {
        if j < |w0| {
          assert w[j - 1] == w0[j - 1] && w[j] == w0[j];
        }
      }
    }
  }

  /**
   * Once the open set is empty, every cell of a walk within the bound has a best cost no
   * higher than the walk's cost up to it (when no two cells share a hash).
   */
  lemma {:induction false} SettledReachesWalk(origin: Pos, settings: Option<PathfindingSettings>, hash: Pos -> int,
                                              visited: set<Pos>, result: seq<Pos>, costs: seq<int>,
                                              costSoFar: map<Pos, int>, w: seq<Pos>, j: int)
    requires grid.Shape() && |costs| == |result| && CostsNonNegative(settings)
    requires Settled(origin, settings, hash, map[], visited, result, costs, costSoFar)
    requires forall p :: p in visited <==> p in result
    requires Walk(settings, origin, w) && WalkCost(settings, w) <= MaxCost(settings) && 0 <= j < |w|
    ensures w[j] in costSoFar && costSoFar[w[j]] <= WalkCost(settings, w[..j + 1])
    ensures w[j] in result
    decreases j
  {
    if j > 0 {
      SettledReachesWalk(origin, settings, hash, visited, result, costs, costSoFar, w, j - 1);
      var a, n := w[j - 1], w[j];
      var i :| 0 <= i < |result| && result[i] == a;
      assert costSoFar[a] == costs[i] && Relaxed(settings, a, costs[i], costSoFar);
      WalkStep(origin, settings, w, j, costs[i], costSoFar);
      assert n in visited;
    } else {
      assert w[..1] == [origin];
    }
  }

  /** A cell relaxed at no more than a walk's cost to it gives the walk's next cell its cost or less. */
  lemma WalkStep(origin: Pos, settings: Option<PathfindingSettings>, w: seq<Pos>, j: int, c: int, costSoFar: map<Pos, int>)
    requires grid.Shape() && CostsNonNegative(settings)
    requires Walk(settings, origin, w) && WalkCost(settings, w) <= MaxCost(settings) && 0 < j < |w|
    requires c <= WalkCost(settings, w[..j]) && Relaxed(settings, w[j - 1], c, costSoFar)
    ensures w[j] in costSoFar && costSoFar[w[j]] <= WalkCost(settings, w[..j + 1])
  {
    var n := w[j];
    assert Manhattan(w[j - 1], n) == 1 && Enterable(settings, n);
    CardinalNeighborsAreAdjacent(w[j - 1], n);
    assert w[..j + 1] == w[..j] + [n];
    WalkCostSnoc(settings, w[..j], n);
    WalkCostPrefix(settings, w, j + 1);
  }

  /**
   * One round of the flood fill's loop: take the least open record; if its cell is
   * unvisited, append the cell and offer its neighbours. Either a new (cell, cost) pair
   * is recorded or the open set shrinks, which bounds the number of rounds.
   */
  method FloodStep(origin: Pos, settings: Option<PathfindingSettings>, hash: Pos -> int,
                   open: map<Key, Pos>, ghost parentOf: map<Key, int>, visited: set<Pos>,
                   result: seq<Pos>, ghost costs: seq<int>, ghost parents: seq<int>,
                   costSoFar: map<Pos, int>, ghost added: set<(Pos, int)>)
    returns (open': map<Key, Pos>, ghost parentOf': map<Key, int>, visited': set<Pos>,
             result': seq<Pos>, ghost costs': seq<int>, ghost parents': seq<int>,
             costSoFar': map<Pos, int>, ghost added': set<(Pos, int)>)
    requires grid.Shape() && CostsNonNegative(settings) && open != map[]
    requires FloodLoop(origin, settings, hash, open, parentOf, visited, result, costs, parents, costSoFar, added)
    ensures FloodLoop(origin, settings, hash, open', parentOf', visited', result', costs', parents', costSoFar', added')
    ensures |Recordable(settings) - added'| < |Recordable(settings) - added| ||
            (added' == added && |open'| < |open|)
  {
    var k := Pathfinder.PickMin(open);
    var current := open[k];
    open' := open - {k};
    if current in visited {
      PopVisited(origin, settings, hash, open, parentOf, visited, result, costs, parents, k);
      if Injective(hash) {
        SettledAfterPopVisited(origin, settings, hash, open, visited, result, costs, costSoFar, k);
      }
      parentOf', visited', result', costs', parents', costSoFar', added' :=
        parentOf, visited, result, costs, parents, costSoFar, added;
      return;
    }
    var g := k.fCost;
    PopUnvisited(origin, settings, hash, open, parentOf, visited, result, costs, parents, k);
    visited' := visited + {current};
    result', costs', parents' := result + [current], costs + [g], parents + [parentOf[k]];
    var open0 := open';
    open', parentOf', costSoFar', added' := ExpandFlood(origin, settings, hash, result', costs', current, g,
                                                        open0, parentOf, costSoFar, added);
    FloodInvNewOpen(origin, settings, hash, open0, parentOf, open', parentOf', visited', result', costs', parents');
    if Injective(hash) {
      SettledAfterVisit(origin, settings, hash, open, visited, result, costs, costSoFar, k, open', costSoFar');
    }
    if added' != added {
      FewerLeft(Recordable(settings), added, added');
    }
  }

  /** Popping a record of an already visited cell keeps Dijkstra's bookkeeping. */
  lemma SettledAfterPopVisited(origin: Pos, settings: Option<PathfindingSettings>, hash: Pos -> int,
                               open: map<Key, Pos>, visited: set<Pos>, result: seq<Pos>, costs: seq<int>,
                               costSoFar: map<Pos, int>, k: Key)
    requires grid.Shape() && |costs| == |result|
    requires Settled(origin, settings, hash, open, visited, result, costs, costSoFar)
    requires k in open && open[k] in visited
    ensures Settled(origin, settings, hash, open - {k}, visited, result, costs, costSoFar)
  {
  }

  /**
   * Popping the least record, of an unvisited cell, and offering that cell's neighbours
   * keeps Dijkstra's bookkeeping: the cell is visited at its best cost, which no later
   * offer can undercut.
   */
  lemma SettledAfterVisit(origin: Pos, settings: Option<PathfindingSettings>, hash: Pos -> int,
                          open: map<Key, Pos>, visited: set<Pos>, result: seq<Pos>, costs: seq<int>,
                          costSoFar: map<Pos, int>, k: Key, open': map<Key, Pos>, costSoFar': map<Pos, int>)
    requires grid.Shape() && |costs| == |result|
    requires Settled(origin, settings, hash, open, visited, result, costs, costSoFar)
    requires OpenCosted(open, costSoFar)
    requires k in open && open[k] !in visited && k.fCost >= 0
    requires forall j | j in open :: !KeyLess(j, k)
    requires forall p | p in costSoFar :: p in costSoFar' && costSoFar'[p] <= costSoFar[p]
    requires Relaxed(settings, open[k], k.fCost, costSoFar')
    requires forall j | j in open - {k} :: j in open' && open'[j] == (open - {k})[j]
    requires forall j | j in open' :: j in open - {k} || j.fCost >= k.fCost
    requires forall p | p in costSoFar && costSoFar[p] <= k.fCost :: costSoFar'[p] == costSoFar[p]
    requires forall p | p in costSoFar' ::
               (p in costSoFar && costSoFar'[p] == costSoFar[p]) ||
               (Key(costSoFar'[p], hash(p)) in open' && open'[Key(costSoFar'[p], hash(p))] == p)
    ensures Settled(origin, settings, hash, open', visited + {open[k]}, result + [open[k]], costs + [k.fCost], costSoFar')
  {
    var p, g := open[k], k.fCost;
    var result', costs', visited' := result + [p], costs + [g], visited + {p};
    assert costSoFar[p] == g by {
      assert !KeyLess(Key(costSoFar[p], hash(p)), k);
    }
    forall q | q in costSoFar'
      ensures q in visited' || (Key(costSoFar'[q], hash(q)) in open' && open'[Key(costSoFar'[q], hash(q))] == q)
    {
      if q in costSoFar && costSoFar'[q] == costSoFar[q] && q !in visited {
        var kq := Key(costSoFar[q], hash(q));
        if kq != k {
          assert kq in open - {k};
        }
      }
    }
    forall i | 0 <= i < |result'|
      ensures costs'[i] <= g
      ensures result'[i] in costSoFar' && costSoFar'[result'[i]] == costs'[i]
      ensures Relaxed(settings, result'[i], costs'[i], costSoFar')
    {
      if i < |result| {
        assert costs[i] <= costs[|result| - 1];
        assert Relaxed(settings, result[i], costs[i], costSoFar);
      }
    }
    forall j | j in open'
      ensures j.fCost >= g
    {
      if j in open - {k} {
        assert !KeyLess(j, k);
      }
    }
  }

  /** Before the first step only the origin is open, at cost 0, and nothing is visited. */
  lemma FloodStart(origin: Pos, settings: Option<PathfindingSettings>, hash: Pos -> int)
    requires grid.Shape()
    ensures FloodLoop(origin, settings, hash, map[Key(0, hash(origin)) := origin], map[Key(0, hash(origin)) := -1],
                      {}, [], [], [], map[origin := 0], {})
  {
    assert FloodEntry(origin, settings, hash, map[Key(0, hash(origin)) := origin], map[Key(0, hash(origin)) := -1],
                      [], [], Key(0, hash(origin)));
  }

  /** FloodInv, with the bookkeeping that makes the loop terminate and (with a telling hash) complete. */
  ghost predicate FloodLoop(origin: Pos, settings: Option<PathfindingSettings>, hash: Pos -> int,
                            open: map<Key, Pos>, parentOf: map<Key, int>, visited: set<Pos>,
                            result: seq<Pos>, costs: seq<int>, parents: seq<int>,
                            costSoFar: map<Pos, int>, added: set<(Pos, int)>)
    reads grid.grid
    requires grid.Shape()
  {
    FloodInv(origin, settings, hash, open, parentOf, visited, result, costs, parents) &&
    (result == [] ==> open == map[Key(0, hash(origin)) := origin]) &&
    Recorded(costSoFar, added) && added <= Recordable(settings) &&
    OpenCosted(open, costSoFar) &&
    (Injective(hash) ==> Settled(origin, settings, hash, open, visited, result, costs, costSoFar))
  }

  /** The flood fill's loop invariant, apart from its termination bookkeeping. */
  ghost predicate FloodInv(origin: Pos, settings: Option<PathfindingSettings>, hash: Pos -> int,
                           open: map<Key, Pos>, parentOf: map<Key, int>, visited: set<Pos>,
                           result: seq<Pos>, costs: seq<int>, parents: seq<int>)
    reads grid.grid
    requires grid.Shape()
  {
    |costs| == |result| && |parents| == |result| &&
    (result == [] ==> visited == {} && open != map[]) &&
    (result != [] ==> result[0] == origin && costs[0] == 0) &&
    (forall p :: p in visited <==> p in result) &&
    (forall i, j | 0 <= i < j < |result| :: result[i] != result[j]) &&
    (forall i | 0 <= i < |costs| :: costs[i] >= 0) &&
    (forall i :: ReachedFrom(settings, result, costs, parents, i)) &&
    (forall k :: FloodEntry(origin, settings, hash, open, parentOf, result, costs, k))
  }

  /** The invariant holds for any open set whose entries are sound, once something is visited. */
  lemma FloodInvNewOpen(origin: Pos, settings: Option<PathfindingSettings>, hash: Pos -> int,
                        open: map<Key, Pos>, parentOf: map<Key, int>,
                        open': map<Key, Pos>, parentOf': map<Key, int>, visited: set<Pos>,
                        result: seq<Pos>, costs: seq<int>, parents: seq<int>)
    requires grid.Shape() && result != []
    requires FloodInv(origin, settings, hash, open, parentOf, visited, result, costs, parents)
    requires forall k :: FloodEntry(origin, settings, hash, open', parentOf', result, costs, k)
    ensures FloodInv(origin, settings, hash, open', parentOf', visited, result, costs, parents)
  {
  }

  /** Popping a record of an already visited cell only shrinks the open set. */
  lemma PopVisited(origin: Pos, settings: Option<PathfindingSettings>, hash: Pos -> int,
                   open: map<Key, Pos>, parentOf: map<Key, int>, visited: set<Pos>,
                   result: seq<Pos>, costs: seq<int>, parents: seq<int>, k: Key)
    requires grid.Shape()
    requires FloodInv(origin, settings, hash, open, parentOf, visited, result, costs, parents)
    requires k in open && open[k] in visited
    ensures FloodInv(origin, settings, hash, open - {k}, parentOf, visited, result, costs, parents)
  {
    FloodEntryAfterPop(origin, settings, hash, open, parentOf, result, costs, k);
  }

  /** Popping the least record of an unvisited cell appends that cell, at the record's cost. */
  lemma PopUnvisited(origin: Pos, settings: Option<PathfindingSettings>, hash: Pos -> int,
                     open: map<Key, Pos>, parentOf: map<Key, int>, visited: set<Pos>,
                     result: seq<Pos>, costs: seq<int>, parents: seq<int>, k: Key)
    requires grid.Shape()
    requires FloodInv(origin, settings, hash, open, parentOf, visited, result, costs, parents)
    requires result == [] ==> open == map[k := origin]
    requires k in open && open[k] !in visited
    ensures k in parentOf
    ensures FloodInv(origin, settings, hash, open - {k}, parentOf, visited + {open[k]},
                     result + [open[k]], costs + [k.fCost], parents + [parentOf[k]])
    ensures |result + [open[k]]| > 0
  {
    assert FloodEntry(origin, settings, hash, open, parentOf, result, costs, k);
    var current, g := open[k], k.fCost;
    var result', costs', parents' := result + [current], costs + [g], parents + [parentOf[k]];
    FloodEntryAfterPop(origin, settings, hash, open, parentOf, result, costs, k);
    FloodEntryAfterVisit(origin, settings, hash, open - {k}, parentOf, result, costs, current, g);
    forall i
      ensures ReachedFrom(settings, result', costs', parents', i)
    {
      if i < |result| {
        assert ReachedFrom(settings, result, costs, parents, i);
      }
    }
    forall i, j | 0 <= i < j < |result'|
      ensures result'[i] != result'[j]
    {
      if j == |result| {
        assert result[i] in visited;
      }
    }
  }

  /** Taking the least record out of the open set keeps the other entries sound. */
  lemma FloodEntryAfterPop(origin: Pos, settings: Option<PathfindingSettings>, hash: Pos -> int,
                           open: map<Key, Pos>, parentOf: map<Key, int>,
                           result: seq<Pos>, costs: seq<int>, key: Key)
    requires grid.Shape() && |costs| == |result|
    requires forall k :: FloodEntry(origin, settings, hash, open, parentOf, result, costs, k)
    ensures forall k :: FloodEntry(origin, settings, hash, open - {key}, parentOf, result, costs, k)
  {
    forall k
      ensures FloodEntry(origin, settings, hash, open - {key}, parentOf, result, costs, k)
    {
      assert FloodEntry(origin, settings, hash, open, parentOf, result, costs, k);
    }
  }

  /** Appending a visited cell keeps every entry sound (origin entries exist only before the first visit). */
  lemma FloodEntryAfterVisit(origin: Pos, settings: Option<PathfindingSettings>, hash: Pos -> int,
                             open: map<Key, Pos>, parentOf: map<Key, int>,
                             result: seq<Pos>, costs: seq<int>, current: Pos, g: int)
    requires grid.Shape() && |costs| == |result|
    requires forall k :: FloodEntry(origin, settings, hash, open, parentOf, result, costs, k)
    requires result == [] ==> open == map[]
    ensures forall k :: FloodEntry(origin, settings, hash, open, parentOf, result + [current], costs + [g], k)
  {
    forall k
      ensures FloodEntry(origin, settings, hash, open, parentOf, result + [current], costs + [g], k)
    {
      assert FloodEntry(origin, settings, hash, open, parentOf, result, costs, k);
      if k in open && parentOf[k] != -1 {
        assert (result + [current])[parentOf[k]] == result[parentOf[k]];
        assert (costs + [g])[parentOf[k]] == costs[parentOf[k]];
      }
    }
  }

  /**
   * GetPath: the pathfinder's path with no settings, or null when there is none (or it
   * is empty). A path starts at `from`, ends at `to`, moves one cardinal step at a time
   * onto in-bounds walkable cells, and visits no cell twice. A path comes back only when a
   * walk through neighbours leads to `to`; when no two cells share a hash, it comes back
   * whenever such a walk exists.
   */
  method GetPath(from: Pos, to: Pos, hash: Pos -> int) returns (path: Option<seq<Pos>>)
    requires grid.Shape() && pathfinder.gridMap == grid
    ensures path.Some? ==> |path.value| > 0 && path.value[0] == from && path.value[|path.value| - 1] == to
    ensures path.Some? ==> forall i | 1 <= i < |path.value| ::
              Manhattan(path.value[i - 1], path.value[i]) == 1 &&
              grid.CheckBoundry(path.value[i]) && grid.CheckWalkable(path.value[i])
    ensures path.Some? ==> forall i, j | 0 <= i < j < |path.value| :: path.value[i] != path.value[j]
    ensures from == to ==> path == Some([from])
    ensures path.Some? ==> pathfinder.Connected(from, to, Null)
    ensures Injective(hash) ==> (path.Some? <==> pathfinder.Connected(from, to, Null))
  {
    var found := pathfinder.FindPath(from, to, Null, hash);
    path := if found.Some? && |found.value| > 0 then found else Null;
    if path.Some? {
      forall i | 1 <= i < |path.value|
        ensures Manhattan(path.value[i - 1], path.value[i]) == 1
        ensures grid.CheckBoundry(path.value[i]) && grid.CheckWalkable(path.value[i])
      {
        assert path.value[i] in pathfinder.GetNeighbors(path.value[i - 1], Null);
        pathfinder.NullSettingsNeighborsAdjacent(path.value[i - 1], path.value[i]);
      }
    }
  }

  /**
   * CheckWalkableTerrain: flood-fill from the character's cell with the character's
   * movement allowance as the cost bound, then redraw the highlight with the result.
   */
  method CheckWalkableTerrain(targetCharacter: Character, hash: Pos -> int) returns (ghost reachable: seq<Pos>)
    requires grid.Shape()
    modifies targetRenderer
    ensures MoveRange(targetCharacter.positionOnGrid, targetCharacter.maxMoveSpeed, hash, reachable)
    ensures targetRenderer.points == Highlighted(Hidden(old(targetRenderer.points)), reachable)
    ensures targetRenderer.Lit() == set i | 0 <= i < |reachable| :: reachable[i]
  {
    var origin := targetCharacter.positionOnGrid;
    var maxCost := targetCharacter.maxMoveSpeed;
    var tiles, costs, parents := FloodFillWalkable(origin, MoveSettings(maxCost), hash);
    targetRenderer.Hide();
    targetRenderer.FieldHighlight(tiles);
    reachable := tiles;
    HideThenHighlightLightsExactly(old(targetRenderer.points), tiles);
    forall i | 1 <= i < |tiles|
      ensures Manhattan(origin, tiles[i]) <= maxCost
      ensures exists j | 0 <= j < i :: Manhattan(tiles[j], tiles[i]) == 1
    {
      assert ReachedFrom(MoveSettings(maxCost), tiles, costs, parents, i);
      assert tiles[i] in tiles;
      MoveReachBound(origin, maxCost, tiles[i]);
    }
  }
}
