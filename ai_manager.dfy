// AIManager: the enemy AI. A decision table picks a state, a tile score drives the choice of
// where to move, and a small state machine moves or attacks and then waits for the animation.

datatype AIState = Idle | Evaluate | Moving | Attacking | SeekingCover | Waiting | EndTurn

/** The AI personalities; no decision consults them. */
datatype AIType = Aggressive | Defensive | Cowardly | Opportunistic | Support

/** What the animation proxy calls back once the unit's animation has stopped. */
datatype Callback = NoCallback | AfterMove | AfterAttack

/** C#'s int.MinValue, the best score before any tile is scored. */
const IntMinValue: int := -0x8000_0000

/** The momentum an AI move or attack costs. */
const AIActionCost: int := 2

/**
 * Mathf.CeilToInt(maxRange / 2): the int division truncates toward zero before the ceiling
 * sees it, so the result is half the range rounded toward zero (5 gives 2).
 */
function HalfRange(maxRange: int): (r: int)
  ensures maxRange >= 0 ==> 0 <= r && 2 * r <= maxRange <= 2 * r + 1
  ensures maxRange < 0 ==> r <= 0 && 2 * r - 1 <= maxRange <= 2 * r
{
  if maxRange >= 0 then maxRange / 2 else -((-maxRange) / 2)
}

/**
 * The decision table of WellnessCheck, given the momentum, the hit points, the distance of the
 * nearest enemy (if any) and the range bounds. Low health is `HP < 0.2 * maxHP`, that is
 * `5 * HP < maxHP`.
 */
function Wellness(momentum: int, hp: int, maxHP: int, nearest: Option<int>, minRange: int, optimalRange: int): (s: AIState)
  ensures s == Idle <==> momentum < 1 || (momentum < 2 && nearest.Null?)
  ensures s == SeekingCover <==> momentum >= 2 && 5 * hp < maxHP
  ensures s == Attacking <==>
            momentum >= 2 && !(5 * hp < maxHP) && nearest.Some? && minRange < nearest.value <= optimalRange
  ensures s == Moving <==>
            momentum >= 1 && !(momentum >= 2 && 5 * hp < maxHP) &&
            (nearest.Some? ==> momentum < 2 || nearest.value <= minRange || nearest.value > optimalRange) &&
            (nearest.Null? ==> momentum >= 2)
{
  if momentum < 1 then Idle
  else if 5 * hp < maxHP && momentum >= 2 then SeekingCover
  else if nearest.Some? then
    if nearest.value <= minRange && momentum >= 2 then Moving
    else if nearest.value <= optimalRange && momentum >= 2 then Attacking
    else Moving
  else if momentum >= 2 then Moving
  else Idle
}

/** A Wellness verdict is one of the four it can reach: never Evaluate, so Evaluate re-dispatches once. */
lemma WellnessSettles(momentum: int, hp: int, maxHP: int, nearest: Option<int>, minRange: int, optimalRange: int)
  ensures Wellness(momentum, hp, maxHP, nearest, minRange, optimalRange) in {Idle, SeekingCover, Attacking, Moving}
{
}

/**
 * ScoreTile: the score of a tile at distance d from the target, plus the jitter `randomMod`.
 * Pursuit scores -|d - optimal|, 5 less when too close; otherwise too close is -20, the
 * optimal distance +10 and anything else -|d - optimal|.
 */
function ScoreTile(tilePos: Pos, targetPos: Pos, optimalRange: int, minRange: int, pursuitMode: bool,
                   randomMod: int): (score: int)
  ensures score - randomMod <= 10
  ensures score - randomMod == 10 <==>
            !pursuitMode && Manhattan(tilePos, targetPos) == optimalRange && optimalRange >= minRange
  ensures Manhattan(tilePos, targetPos) < minRange ==> score - randomMod <= if pursuitMode then -5 else -20
  ensures pursuitMode ==> score - randomMod <= 0
{
  var distance := Abs(tilePos.x - targetPos.x) + Abs(tilePos.y - targetPos.y);
  var gap: int := Abs(distance - optimalRange);
  var score :=
    if pursuitMode then
      -gap - (if distance < minRange then 5 else 0)
    else if distance < minRange then -20
    else if distance == optimalRange then 10
    else -gap;
  score + randomMod
}

/** Every jitter is a draw of Random.Range(-5, 5), whose upper bound is exclusive. */
predicate Jitters(randomMods: seq<int>)
{
  forall i | 0 <= i < |randomMods| :: -5 <= randomMods[i] <= 4
}

/** Out of pursuit, a tile at the optimal distance outscores every other tile whatever the two jitters are. */
lemma OptimalTileOutscores(a: Pos, b: Pos, targetPos: Pos, optimalRange: int, minRange: int, ja: int, jb: int)
  requires optimalRange >= minRange && -5 <= ja <= 4 && -5 <= jb <= 4
  requires Manhattan(a, targetPos) == optimalRange && Manhattan(b, targetPos) != optimalRange
  ensures ScoreTile(a, targetPos, optimalRange, minRange, false, ja) > ScoreTile(b, targetPos, optimalRange, minRange, false, jb)
{
}

/** An enemy and its Manhattan distance from the AI's cell. */
datatype Sighting = Sighting(enemy: Character, distance: int)

/**
 * What the AI's actions change that others see: the callback it waits for, the unit's counters,
 * cell, walking flag and attack count, and the scheduler.
 */
datatype Status = Status(callback: Callback, ledger: Ledger, position: Pos, moving: bool, animations: nat,
                         snap: Schedule)

/**
 * What the AI's actions are stated against: the status and the scheduler's end-of-turn requests,
 * the AI's idea of its cell, the attack target it would pick (with that target's hit points)
 * and how many enemies it sees.
 */
datatype Before = Before(now: Status, endRequests: int, from: Pos, target: Option<Sighting>, targetHP: int,
                         enemies: nat)

/** A capture as the AI sees it once the wait it recorded is over: no callback is pending. */
function Resumed(b: Before): Before
{
  b.(now := b.now.(callback := NoCallback))
}

/**
 * The status after PerformAttack from `b`: with a target in range and 2 momentum, the momentum
 * is paid, the nearest target in range is struck with the dice given and the AI waits for the
 * attack animation; otherwise nothing changes.
 */
function AttackOutcome(u: Character, b: Before, toHitRoll: int, damageRoll: int): (s: Status)
  requires 1 <= toHitRoll <= 20 && DamageRoll(u.DMG, damageRoll)
{
  if b.target.Some? && CanSpend(b.now.ledger, AIActionCost) then
    b.now.(callback := AfterAttack, ledger := Spend(b.now.ledger, AIActionCost).ledger,
           animations := b.now.animations + 1,
           snap := Struck(AfterSpend(b.now.snap, b.now.ledger), u, b.target.value.enemy, u.RollToHit(toHitRoll),
                          HitDamage(u, damageRoll), b.targetHP))
  else b.now
}

/**
 * The status after MoveToPosition from `b` with the path it found to `destination`: when a move
 * command would be allowed, the momentum is paid, the unit is walking and stands on the
 * destination, and the AI waits for the walk; otherwise nothing changes.
 */
function MoveOutcome(b: Before, path: Option<seq<Pos>>, destination: Pos): (s: Status)
{
  if MoveAllowed(b.now.ledger, b.now.moving, path) then
    b.now.(callback := AfterMove, ledger := Spend(b.now.ledger, AIActionCost).ledger, position := destination,
           moving := true, snap := AfterSpend(b.now.snap, b.now.ledger))
  else b.now
}

/** The status after a pass of UpdateAI that settled on `decided`, from `b`. */
function Outcome(u: Character, b: Before, decided: AIState, path: Option<seq<Pos>>, destination: Pos,
                 toHitRoll: int, damageRoll: int): (s: Status)
  requires decided == Attacking ==> 1 <= toHitRoll <= 20 && DamageRoll(u.DMG, damageRoll)
{
  match decided
  case Attacking => AttackOutcome(u, b, toHitRoll, damageRoll)
  case Moving => MoveOutcome(b, path, destination)
  case EndTurn => b.now.(snap := b.now.snap.(isEndingTurn := true))
  case _ => b.now
}

/** How many times a pass that settled on `decided` (other than an attack) asks the scheduler to end the turn. */
function EndRequests(b: Before, decided: AIState, path: Option<seq<Pos>>): (n: nat)
{
  match decided
  case Moving => if MoveAllowed(b.now.ledger, b.now.moving, path) && Spend(b.now.ledger, AIActionCost).endsTurn then 1 else 0
  case EndTurn => 1
  case _ => 0
}

/** The units of another team than `me`, `me` excluded, in registry order. */
function Foes(units: seq<Character>, me: Character): (foes: seq<Character>)
  ensures forall i | 0 <= i < |foes| :: foes[i] in units
{
  if |units| == 0 then []
  else
    var u := units[|units| - 1];
    Foes(units[..|units| - 1], me) + if u.team != me.team && u != me then [u] else []
}

lemma {:induction false} FoesExactly(units: seq<Character>, me: Character, u: Character)
  ensures u in Foes(units, me) <==> u in units && u.team != me.team && u != me
{
  if |units| > 0 {
    FoesExactly(units[..|units| - 1], me, u);
    assert units == units[..|units| - 1] + [units[|units| - 1]];
  }
}

/** Each foe with its distance from `from`, in the same order. */
function Sightings(foes: seq<Character>, from: Pos): (ds: seq<Sighting>)
  reads foes
  ensures |ds| == |foes|
  ensures forall i | 0 <= i < |foes| :: ds[i] == Sighting(foes[i], Manhattan(from, foes[i].positionOnGrid))
{
  if |foes| == 0 then []
  else
    var e := foes[|foes| - 1];
    Sightings(foes[..|foes| - 1], from) + [Sighting(e, Manhattan(from, e.positionOnGrid))]
}

/** `Where(ed => ed.distance <= range)`: the sightings within range, in order. */
function WithinRange(ds: seq<Sighting>, range: int): (r: seq<Sighting>)
  ensures forall i | 0 <= i < |r| :: r[i].distance <= range
  ensures forall i | 0 <= i < |ds| && ds[i].distance <= range :: ds[i] in r
{
  if |ds| == 0 then []
  else
    var s := ds[|ds| - 1];
    WithinRange(ds[..|ds| - 1], range) + if s.distance <= range then [s] else []
}

/**
 * `OrderBy(ed => ed.distance).First()`: LINQ's OrderBy is stable, so this is the first
 * sighting of least distance.
 */
function Nearest(ds: seq<Sighting>): (i: nat)
  requires |ds| > 0
  ensures i < |ds|
  ensures forall j | 0 <= j < |ds| :: ds[i].distance <= ds[j].distance
  ensures forall j | 0 <= j < i :: ds[j].distance > ds[i].distance
{
  if |ds| == 1 then 0
  else
    var k := Nearest(ds[..|ds| - 1]);
    if ds[|ds| - 1].distance < ds[k].distance then |ds| - 1 else k
}

/**
 * The nearest enemy within range, when there is one, is the nearest enemy overall: the
 * in-range preference of CalculateBestMovePosition never changes its target.
 */
lemma {:induction false} NearestWithinRangeIsNearest(ds: seq<Sighting>, range: int)
  requires |WithinRange(ds, range)| > 0
  ensures |ds| > 0
  ensures var w := WithinRange(ds, range); w[Nearest(w)] == ds[Nearest(ds)]
{
  var n := |ds|;
  var p, x := ds[..n - 1], ds[n - 1];
  var w, wp := WithinRange(ds, range), WithinRange(p, range);
  assert ds == p + [x];
  assert w == wp + if x.distance <= range then [x] else [];
  if x.distance > range {
    NearestWithinRangeIsNearest(p, range);
    assert w == wp && wp[Nearest(wp)].distance <= range;
    NearestKeepsPrefix(ds);
  } else if |wp| == 0 {
    assert w == [x] && Nearest(w) == 0;
    if n > 1 {
      assert p[Nearest(p)] !in wp;
    }
    assert Nearest(ds) == n - 1;
  } else {
    NearestWithinRangeIsNearest(p, range);
    NearestSnoc(wp, x);
    NearestSnoc(p, x);
  }
}

/** The nearest of `ds` is that of its prefix, when the last sighting is no nearer. */
lemma NearestKeepsPrefix(ds: seq<Sighting>)
  requires |ds| > 1 && ds[|ds| - 1].distance >= ds[..|ds| - 1][Nearest(ds[..|ds| - 1])].distance
  ensures ds[Nearest(ds)] == ds[..|ds| - 1][Nearest(ds[..|ds| - 1])]
{
}

/** The nearest of a sequence extended by `x`: `x` wins only when strictly nearer. */
lemma NearestSnoc(ds: seq<Sighting>, x: Sighting)
  requires |ds| > 0
  ensures var e := ds + [x];
          e[Nearest(e)] == if x.distance < ds[Nearest(ds)].distance then x else ds[Nearest(ds)]
{
  var e := ds + [x];
  assert e[..|e| - 1] == ds;
}

/** The nearest enemy's distance, if there is an enemy. */
function NearestDistance(es: seq<Sighting>): (d: Option<int>)
  ensures d.Null? <==> |es| == 0
  ensures d.Some? ==> forall i | 0 <= i < |es| :: d.value <= es[i].distance
{
  if |es| == 0 then Null else Some(es[Nearest(es)].distance)
}

/**
 * The enemy PerformAttack picks: the nearest of those within `range`. It is none exactly when
 * every enemy is out of range, and otherwise it is also the nearest enemy of all.
 */
function AttackTarget(ds: seq<Sighting>, range: int): (t: Option<Sighting>)
  ensures t.Null? <==> forall i | 0 <= i < |ds| :: ds[i].distance > range
  ensures t.Some? ==> |ds| > 0 && t.value == ds[Nearest(ds)] && t.value.distance <= range
{
  var w := WithinRange(ds, range);
  if |w| == 0 then Null
  else
    NearestWithinRangeIsNearest(ds, range);
    Some(w[Nearest(w)])
}

/**
 * The enemy CalculateBestMovePosition moves against: the nearest within `range` if any is,
 * otherwise the nearest of all, which comes to the nearest of all either way.
 */
function ChaseTarget(ds: seq<Sighting>, range: int): (t: Sighting)
  requires |ds| > 0
  ensures t == ds[Nearest(ds)]
{
  var w := WithinRange(ds, range);
  if |w| > 0 then
    NearestWithinRangeIsNearest(ds, range);
    w[Nearest(w)]
  else ds[Nearest(ds)]
}

/** Whether CalculateBestMovePosition's scan keeps offset (x, y) from `p`: on the grid, walkable, in range. */
predicate WalkKept(grid: GridMap, p: Pos, r: int, x: int, y: int)
  reads grid.grid
  requires grid.Shape()
{
  grid.CheckBoundryXY(p.x + x, p.y + y) && grid.CheckWalkable(Pos(p.x + x, p.y + y)) && Abs(x) + Abs(y) <= r
}

/** The tiles the inner scan loop adds for offset column `x`, for offsets -r <= dy < y. */
function WalkColumn(grid: GridMap, p: Pos, r: int, x: int, y: int): seq<Pos>
  reads grid.grid
  requires grid.Shape() && -r <= y
  decreases y + r
{
  if y == -r then []
  else WalkColumn(grid, p, r, x, y - 1) + if WalkKept(grid, p, r, x, y - 1) then [Pos(p.x + x, p.y + y - 1)] else []
}

/** The tiles the outer scan loop has added once it has done the offset columns -r <= dx < x. */
function WalkCells(grid: GridMap, p: Pos, r: int, x: int): seq<Pos>
  reads grid.grid
  requires grid.Shape() && -r <= x && -r <= r + 1
  decreases x + r
{
  if x == -r then [] else WalkCells(grid, p, r, x - 1) + WalkColumn(grid, p, r, x - 1, r + 1)
}

/** The list GetWalkableTilesInRange(p, r) builds; empty for a negative range. */
function WalkableTiles(grid: GridMap, p: Pos, r: int): seq<Pos>
  reads grid.grid
  requires grid.Shape()
{
  if r < 0 then [] else WalkCells(grid, p, r, r + 1)
}

/** A column holds exactly the kept offsets below `y` in column `x`. */
lemma {:induction false} WalkColumnMembers(grid: GridMap, p: Pos, r: int, x: int, y: int, q: Pos)
  requires grid.Shape() && -r <= y
  ensures q in WalkColumn(grid, p, r, x, y) <==> q.x == p.x + x && -r <= q.y - p.y < y && WalkKept(grid, p, r, x, q.y - p.y)
  decreases y + r
{
  if y > -r {
    WalkColumnMembers(grid, p, r, x, y - 1, q);
    var before := WalkColumn(grid, p, r, x, y - 1);
    if WalkKept(grid, p, r, x, y - 1) {
      assert WalkColumn(grid, p, r, x, y) == before + [Pos(p.x + x, p.y + y - 1)];
    } else {
      assert WalkColumn(grid, p, r, x, y) == before;
    }
  }
}

/** A column lies in column `x`, by increasing y. */
lemma {:induction false} WalkColumnOrdered(grid: GridMap, p: Pos, r: int, x: int, y: int)
  requires grid.Shape() && -r <= y
  ensures RisingColumn(WalkColumn(grid, p, r, x, y), p.x + x, p.y + y)
  decreases y + r
{
  if y > -r {
    WalkColumnOrdered(grid, p, r, x, y - 1);
    var before := WalkColumn(grid, p, r, x, y - 1);
    if WalkKept(grid, p, r, x, y - 1) {
      assert WalkColumn(grid, p, r, x, y) == before + [Pos(p.x + x, p.y + y - 1)];
    } else {
      assert WalkColumn(grid, p, r, x, y) == before;
    }
  }
}

lemma {:induction false} WalkCellsMembers(grid: GridMap, p: Pos, r: int, x: int, q: Pos)
  requires grid.Shape() && -r <= x && -r <= r + 1
  ensures q in WalkCells(grid, p, r, x) <==>
            -r <= q.x - p.x < x && -r <= q.y - p.y <= r && WalkKept(grid, p, r, q.x - p.x, q.y - p.y)
  decreases x + r
{
  if x > -r {
    var before, column := WalkCells(grid, p, r, x - 1), WalkColumn(grid, p, r, x - 1, r + 1);
    WalkCellsMembers(grid, p, r, x - 1, q);
    WalkColumnMembers(grid, p, r, x - 1, r + 1, q);
    assert WalkCells(grid, p, r, x) == before + column;
    assert (q in before + column) == (q in before || q in column);
  }
}

lemma {:induction false} WalkCellsOrdered(grid: GridMap, p: Pos, r: int, x: int)
  requires grid.Shape() && -r <= x && -r <= r + 1
  ensures var cells := WalkCells(grid, p, r, x);
          ScanOrdered(cells) && forall i | 0 <= i < |cells| :: cells[i].x < p.x + x
  decreases x + r
{
  if x > -r {
    var before := WalkCells(grid, p, r, x - 1);
    var column := WalkColumn(grid, p, r, x - 1, r + 1);
    WalkCellsOrdered(grid, p, r, x - 1);
    WalkColumnOrdered(grid, p, r, x - 1, r + 1);
    var cells := before + column;
    assert WalkCells(grid, p, r, x) == cells;
    forall i, j | 0 <= i < j < |cells|
      ensures cells[i].x < cells[j].x || (cells[i].x == cells[j].x && cells[i].y < cells[j].y)
    {
      if j < |before| {
        assert cells[i] == before[i] && cells[j] == before[j];
      } else if i < |before| {
        assert cells[i] == before[i] && cells[j] == column[j - |before|];
      } else {
        assert cells[i] == column[i - |before|] && cells[j] == column[j - |before|];
      }
    }
  }
}

/**
 * The walkable tiles in range are exactly the walkable grid cells within Manhattan distance `r`
 * of `p`, the unit's own cell included, in scan order and without repeats.
 */
lemma WalkableTilesExactly(grid: GridMap, p: Pos, r: int, q: Pos)
  requires grid.Shape()
  ensures q in WalkableTiles(grid, p, r) <==> grid.CheckBoundry(q) && grid.CheckWalkable(q) && Manhattan(q, p) <= r
  ensures ScanOrdered(WalkableTiles(grid, p, r))
{
  if r >= 0 {
    WalkCellsMembers(grid, p, r, r + 1, q);
    WalkCellsOrdered(grid, p, r, r + 1);
    var dx, dy := q.x - p.x, q.y - p.y;
    assert Manhattan(q, p) == Abs(dx) + Abs(dy);
    assert q == Pos(p.x + dx, p.y + dy);
    if Abs(dx) + Abs(dy) <= r {
      assert -r <= dx <= r && -r <= dy <= r;
    }
  }
}

/**
 * The tile CalculateBestMovePosition settles on among the first `n` tiles: the first tile with
 * a path whose score beats every earlier one and `int.MinValue`; `fallback` if there is none.
 */
function BestTile(tiles: seq<Pos>, reachable: seq<bool>, scores: seq<int>, fallback: Pos, n: nat): (best: (Pos, int))
  requires n <= |tiles| == |reachable| == |scores|
{
  if n == 0 then (fallback, IntMinValue)
  else
    var before := BestTile(tiles, reachable, scores, fallback, n - 1);
    if reachable[n - 1] && scores[n - 1] > before.1 then (tiles[n - 1], scores[n - 1]) else before
}

/** No tile among the first `n` with a path scores above `bound`. */
ghost predicate NoneAbove(reachable: seq<bool>, scores: seq<int>, n: nat, bound: int)
  requires n <= |reachable| == |scores|
{
  forall j | 0 <= j < n && reachable[j] :: scores[j] <= bound
}

/**
 * Tile k has a path, scores above int.MinValue, and its score is maximal among the first `n`
 * tiles with a path and strictly above every earlier one's.
 */
ghost predicate FirstMaximum(reachable: seq<bool>, scores: seq<int>, n: nat, k: int)
  requires n <= |reachable| == |scores|
{
  0 <= k < n && reachable[k] && scores[k] > IntMinValue &&
  NoneAbove(reachable, scores, n, scores[k]) &&
  (forall j | 0 <= j < k && reachable[j] :: scores[j] < scores[k])
}

/**
 * The chosen tile is the first tile with a path whose score is maximal among tiles with a path,
 * provided that maximum exceeds int.MinValue; otherwise it is the fallback.
 */
lemma {:induction false} BestTileIsFirstMaximum(tiles: seq<Pos>, reachable: seq<bool>, scores: seq<int>, fallback: Pos, n: nat)
  requires n <= |tiles| == |reachable| == |scores|
  ensures var best := BestTile(tiles, reachable, scores, fallback, n);
          (best == (fallback, IntMinValue) && NoneAbove(reachable, scores, n, IntMinValue)) ||
          (exists k :: FirstMaximum(reachable, scores, n, k) && best == (tiles[k], scores[k]))
{
  if n > 0 {
    BestTileIsFirstMaximum(tiles, reachable, scores, fallback, n - 1);
    var before := BestTile(tiles, reachable, scores, fallback, n - 1);
    var m := n - 1;
    assert BestTile(tiles, reachable, scores, fallback, n) ==
           if reachable[m] && scores[m] > before.1 then (tiles[m], scores[m]) else before;
    if before == (fallback, IntMinValue) && NoneAbove(reachable, scores, m, IntMinValue) {
      if reachable[m] && scores[m] > IntMinValue {
        assert FirstMaximum(reachable, scores, n, m);
      } else {
        assert NoneAbove(reachable, scores, n, IntMinValue);
      }
    } else {
      var k :| FirstMaximum(reachable, scores, m, k) && before == (tiles[k], scores[k]);
      if reachable[m] && scores[m] > scores[k] {
        assert FirstMaximum(reachable, scores, n, m);
      } else {
        assert FirstMaximum(reachable, scores, n, k);
      }
    }
  }
}

class AIManager
{
  const targetGrid: GridMap
  const pathfinder: Pathfinder
  /** The scheduler (TurnManager.Instance), whose registry is UnitRegistry. */
  const turnManager: TurnManager
  var thisUnit: Option<Character>
  var currentPos: Pos
  var currentType: AIType
  var currentState: AIState
  var optimalRange: int
  var maxRange: int
  var minRange: int
  /** What the animation proxy has been asked to call back. */
  var callback: Callback

  /** Awake: a pathfinder over the AI's grid. The fields start at C#'s defaults. */
  constructor(targetGrid: GridMap, turnManager: TurnManager)
    ensures this.targetGrid == targetGrid && this.turnManager == turnManager
    ensures pathfinder.gridMap == targetGrid && fresh(pathfinder)
    ensures thisUnit == Null && currentState == Idle && callback == NoCallback
  {
    this.targetGrid, this.turnManager := targetGrid, turnManager;
    pathfinder := new Pathfinder(targetGrid);
    thisUnit, currentPos, currentType, currentState := Null, Pos(0, 0), Aggressive, Idle;
    optimalRange, maxRange, minRange := 0, 0, 0;
    callback := NoCallback;
  }

  /**
   * What the AI takes for granted about a unit it is given: it stands on this AI's grid, it and
   * every registered unit answer to this AI's scheduler, and the scheduler's log is in step.
   */
  ghost predicate Serves(unit: Character)
    reads unit, targetGrid, targetGrid.grid, unit.turn, turnManager, turnManager.registry,
          turnManager.combatLog, turnManager.registry.allUnits
  {
    unit.targetGrid == targetGrid && unit.turnManager == turnManager && unit.turn.turnManager == turnManager &&
    pathfinder.gridMap == targetGrid && targetGrid.Valid() && turnManager.combatLog.Valid() &&
    targetGrid.CheckBoundry(unit.positionOnGrid) &&
    forall u | u in turnManager.registry.allUnits :: u.turnManager == turnManager
  }

  /** The AI controls `unit`, which it serves, and its idea of the unit's cell is on the grid. */
  ghost predicate Wired(unit: Character)
    reads this`thisUnit, this`currentPos, unit, targetGrid, targetGrid.grid, unit.turn, turnManager, turnManager.registry,
          turnManager.combatLog, turnManager.registry.allUnits
  {
    thisUnit == Some(unit) && Serves(unit) && targetGrid.CheckBoundry(currentPos)
  }

  /** CanIAct: the unit can act exactly when its SpendMomentum would take `momentumCost`. */
  function CanIAct(unit: Character, momentumCost: int): (r: bool)
    reads unit.turn
    ensures r <==> Spend(unit.turn.Counters(), momentumCost).spent
  {
    CanSpend(unit.turn.Counters(), momentumCost)
  }

  /** IsInRange: the cells are at most `range` apart, whichever is named first. */
  function IsInRange(unitPos: Pos, targetPos: Pos, range: int): (r: bool)
    ensures r <==> Manhattan(unitPos, targetPos) <= range
    ensures r <==> Manhattan(targetPos, unitPos) <= range
  {
    Abs(unitPos.x - targetPos.x) + Abs(unitPos.y - targetPos.y) <= range
  }

  /** A cell in range stays in range of any larger range. */
  lemma InRangeWidens(unitPos: Pos, targetPos: Pos, range: int, wider: int)
    requires IsInRange(unitPos, targetPos, range) && range <= wider
    ensures IsInRange(unitPos, targetPos, wider)
  {
  }

  /** The enemies of the unit in control, with their distances from `currentPos`. */
  function Enemies(unit: Character): seq<Sighting>
    reads this`currentPos, turnManager.registry, turnManager.registry.allUnits
  {
    Sightings(Foes(turnManager.registry.allUnits, unit), currentPos)
  }

  /** GetAllEnemiesOnMap: the registered units of another team, in registry order. */
  method GetAllEnemiesOnMap() returns (enemies: seq<Character>)
    requires thisUnit.Some?
    ensures enemies == Foes(turnManager.registry.allUnits, thisUnit.value)
    ensures forall u :: u in enemies <==>
              u in turnManager.registry.allUnits && u.team != thisUnit.value.team && u != thisUnit.value
  {
    var units := turnManager.registry.allUnits;
    enemies := [];
    var i := 0;
    while i < |units|
      invariant 0 <= i <= |units|
      invariant enemies == Foes(units[..i], thisUnit.value)
    {
      var otherUnit := units[i];
      assert units[..i + 1][..i] == units[..i];
      if otherUnit.team != thisUnit.value.team && otherUnit != thisUnit.value {
        enemies := enemies + [otherUnit];
      }
      i := i + 1;
    }
    assert units[..i] == units;
    forall u
      ensures u in enemies <==> u in units && u.team != thisUnit.value.team && u != thisUnit.value
    {
      FoesExactly(units, thisUnit.value, u);
    }
  }

  /** GetEnemiesWithDistance: each enemy with its Manhattan distance from `currentPos`. */
  method GetEnemiesWithDistance() returns (enemies: seq<Sighting>)
    requires thisUnit.Some?
    ensures enemies == Enemies(thisUnit.value)
  {
    var foes := GetAllEnemiesOnMap();
    enemies := [];
    var i := 0;
    while i < |foes|
      invariant 0 <= i <= |foes|
      invariant enemies == Sightings(foes[..i], currentPos)
    {
      var e := foes[i];
      assert foes[..i + 1][..i] == foes[..i];
      enemies := enemies + [Sighting(e, Manhattan(currentPos, e.positionOnGrid))];
      i := i + 1;
    }
    assert foes[..i] == foes;
  }

  /** GetWalkableTilesInRange: scans the square of offsets around the unit, column by column. */
  method GetWalkableTilesInRange(unit: Character, moveRange: int) returns (walkableTiles: seq<Pos>)
    requires targetGrid.Shape()
    ensures walkableTiles == WalkableTiles(targetGrid, unit.positionOnGrid, moveRange)
  {
    var startPos, r := unit.positionOnGrid, moveRange;
    walkableTiles := [];
    if r >= 0 {
      var x := -r;
      while x <= r
        invariant -r <= x <= r + 1
        invariant walkableTiles == WalkCells(targetGrid, startPos, r, x)
      {
        var y := -r;
        assert walkableTiles + WalkColumn(targetGrid, startPos, r, x, y) == walkableTiles;
        while y <= r
          invariant -r <= y <= r + 1
          invariant walkableTiles == WalkCells(targetGrid, startPos, r, x) + WalkColumn(targetGrid, startPos, r, x, y)
        {
          ghost var done, column := WalkCells(targetGrid, startPos, r, x), WalkColumn(targetGrid, startPos, r, x, y);
          assert WalkColumn(targetGrid, startPos, r, x, y + 1) ==
                 column + if WalkKept(targetGrid, startPos, r, x, y) then [Pos(startPos.x + x, startPos.y + y)] else [];
          var tilePos := Pos(startPos.x + x, startPos.y + y);
          if targetGrid.CheckBoundry(tilePos) && targetGrid.CheckWalkable(tilePos) && Abs(x) + Abs(y) <= r {
            walkableTiles := walkableTiles + [tilePos];
            ConcatAssoc(done, column, [tilePos]);
          } else {
            assert column + [] == column;
          }
          y := y + 1;
        }
        x := x + 1;
      }
    }
  }

  /**
   * CalculateBestMovePosition: with no enemies, the current cell. Otherwise every walkable tile
   * in the unit's move range is scored against the nearest enemy (pursuing it when it is
   * beyond attack range) and the first best-scoring tile with a path wins. `randomMods` are
   * the jitters drawn for the tiles; the ghost `reachable` says which tiles had a path, and a
   * tile has one only when a walk leads to it (always, when the tie-break tells cells apart).
   */
  method CalculateBestMovePosition(hash: Pos -> int, randomMods: seq<int>)
    returns (bestPos: Pos, ghost tiles: seq<Pos>, ghost reachable: seq<bool>, ghost scores: seq<int>)
    requires thisUnit.Some? && targetGrid.Shape() && pathfinder.gridMap == targetGrid
    requires |randomMods| == |WalkableTiles(targetGrid, thisUnit.value.positionOnGrid, thisUnit.value.maxMoveSpeed)|
    requires Jitters(randomMods)
    ensures var unit := thisUnit.value;
            tiles == WalkableTiles(targetGrid, unit.positionOnGrid, unit.maxMoveSpeed) &&
            |reachable| == |tiles| && |scores| == |tiles|
    ensures |Enemies(thisUnit.value)| == 0 ==> bestPos == currentPos
    ensures var unit, es := thisUnit.value, Enemies(thisUnit.value);
            |es| > 0 ==>
              var target := es[Nearest(es)];
              (forall i | 0 <= i < |tiles| ::
                 scores[i] == ScoreTile(tiles[i], target.enemy.positionOnGrid, optimalRange, minRange,
                                        target.distance > unit.atkRange, randomMods[i])) &&
              bestPos == BestTile(tiles, reachable, scores, currentPos, |tiles|).0
    ensures |Enemies(thisUnit.value)| > 0 ==> forall i | 0 <= i < |tiles| && tiles[i] == currentPos :: reachable[i]
    ensures forall i | 0 <= i < |tiles| && reachable[i] :: pathfinder.Connected(currentPos, tiles[i], Null)
    ensures |Enemies(thisUnit.value)| > 0 && Injective(hash) ==>
              forall i | 0 <= i < |tiles| :: reachable[i] <==> pathfinder.Connected(currentPos, tiles[i], Null)
    ensures bestPos == currentPos ||
            bestPos in WalkableTiles(targetGrid, thisUnit.value.positionOnGrid, thisUnit.value.maxMoveSpeed)
  {
    var unit := thisUnit.value;
    bestPos := currentPos;
    var walkableTiles := WalkableTiles(targetGrid, unit.positionOnGrid, unit.maxMoveSpeed);
    tiles, reachable, scores := walkableTiles, [], [];
    var enemies := Enemies(unit);
    if |enemies| == 0 {
      reachable, scores := seq(|tiles|, _ => false), seq(|tiles|, _ => 0);
      return;
    }
    var target := ChaseTarget(enemies, unit.atkRange);
    var enemyPos := target.enemy.positionOnGrid;
    var distanceToEnemy := Manhattan(currentPos, enemyPos);
    var pursuitMode := distanceToEnemy > unit.atkRange;
    assert (target.distance > unit.atkRange) == pursuitMode;
    bestPos, reachable, scores := ChooseTile(walkableTiles, enemyPos, pursuitMode, hash, randomMods);
    assert Enemies(thisUnit.value) == enemies;
  }

  /** The scoring loop of CalculateBestMovePosition: every tile with a path competes for the best score. */
  method ChooseTile(tiles: seq<Pos>, enemyPos: Pos, pursuitMode: bool, hash: Pos -> int, randomMods: seq<int>)
    returns (bestPos: Pos, ghost reachable: seq<bool>, ghost scores: seq<int>)
    requires targetGrid.Shape() && pathfinder.gridMap == targetGrid && |randomMods| == |tiles|
    requires Jitters(randomMods)
    ensures |reachable| == |tiles| && |scores| == |tiles|
    ensures bestPos == BestTile(tiles, reachable, scores, currentPos, |tiles|).0
    ensures forall i | 0 <= i < |tiles| ::
              scores[i] == ScoreTile(tiles[i], enemyPos, optimalRange, minRange, pursuitMode, randomMods[i])
    ensures forall i | 0 <= i < |tiles| && tiles[i] == currentPos :: reachable[i]
    ensures forall i | 0 <= i < |tiles| && reachable[i] :: pathfinder.Connected(currentPos, tiles[i], Null)
    ensures Injective(hash) ==>
              forall i | 0 <= i < |tiles| :: reachable[i] <==> pathfinder.Connected(currentPos, tiles[i], Null)
    ensures bestPos == currentPos || bestPos in tiles
  {
    bestPos := currentPos;
    var bestScore := IntMinValue;
    reachable, scores := [], [];
    var i := 0;
    while i < |tiles|
      invariant 0 <= i <= |tiles|
      invariant |reachable| == i && |scores| == i
      invariant TilesScanned(tiles, enemyPos, pursuitMode, hash, randomMods, reachable, scores)
      invariant (bestPos, bestScore) == BestTile(tiles[..i], reachable, scores, currentPos, i)
      invariant bestPos == currentPos || bestPos in tiles
    {
      reachable, scores, bestPos, bestScore :=
        ScanTile(tiles, i, enemyPos, pursuitMode, hash, randomMods, reachable, scores, bestPos, bestScore);
      i := i + 1;
    }
    assert tiles[..i] == tiles;
  }

  /**
   * The path test of CalculateBestMovePosition's loop: FindPath from the AI's cell with no
   * settings gives a non-empty path.
   */
  method HasPath(tile: Pos, hash: Pos -> int) returns (found: bool)
    requires pathfinder.gridMap.Shape()
    ensures tile == currentPos ==> found
    ensures found ==> pathfinder.Connected(currentPos, tile, Null)
    ensures Injective(hash) ==> (found <==> pathfinder.Connected(currentPos, tile, Null))
  {
    var path := pathfinder.FindPath(currentPos, tile, Null, hash);
    found := path.Some? && |path.value| > 0;
  }

  /**
   * One pass of CalculateBestMovePosition's loop: tile i is tested for a path and scored,
   * and it becomes the best tile when it has a path and beats the best score so far.
   */
  method ScanTile(tiles: seq<Pos>, i: nat, enemyPos: Pos, pursuitMode: bool, hash: Pos -> int, randomMods: seq<int>,
                  ghost reachable: seq<bool>, ghost scores: seq<int>, bestPos: Pos, bestScore: int)
    returns (ghost reachable': seq<bool>, ghost scores': seq<int>, bestPos': Pos, bestScore': int)
    requires pathfinder.gridMap.Shape() && |reachable| == |scores| == i < |tiles| == |randomMods|
    requires TilesScanned(tiles, enemyPos, pursuitMode, hash, randomMods, reachable, scores)
    requires (bestPos, bestScore) == BestTile(tiles[..|scores|], reachable, scores, currentPos, |scores|)
    requires bestPos == currentPos || bestPos in tiles
    ensures |reachable'| == |scores'| == |scores| + 1
    ensures TilesScanned(tiles, enemyPos, pursuitMode, hash, randomMods, reachable', scores')
    ensures (bestPos', bestScore') == BestTile(tiles[..|scores'|], reachable', scores', currentPos, |scores'|)
    ensures bestPos' == currentPos || bestPos' in tiles
  {
    var tile := tiles[i];
    var found := HasPath(tile, hash);
    var score := ScoreTile(tile, enemyPos, optimalRange, minRange, pursuitMode, randomMods[i]);
    TilesScannedSnoc(tiles, enemyPos, pursuitMode, hash, randomMods, reachable, scores, found, score);
    BestTileExtend(tiles[..i + 1], reachable, scores, currentPos, found, score);
    assert tiles[..i + 1][..i] == tiles[..i] && tiles[..i + 1][i] == tile;
    reachable', scores' := reachable + [found], scores + [score];
    bestPos', bestScore' := bestPos, bestScore;
    if found && score > bestScore {
      bestPos', bestScore' := tile, score;
    }
  }

  /**
   * The first |scores| tiles of CalculateBestMovePosition's loop are scanned: each has its
   * score, the AI's own cell has a path, a tile with a path is connected to the AI's cell,
   * and under an injective tie-break every connected tile has a path.
   */
  ghost predicate TilesScanned(tiles: seq<Pos>, enemyPos: Pos, pursuitMode: bool, hash: Pos -> int,
                               randomMods: seq<int>, reachable: seq<bool>, scores: seq<int>)
    reads this, pathfinder.gridMap.grid
    requires pathfinder.gridMap.Shape() && |reachable| == |scores| <= |tiles| == |randomMods|
  {
    (forall j | 0 <= j < |scores| ::
       scores[j] == ScoreTile(tiles[j], enemyPos, optimalRange, minRange, pursuitMode, randomMods[j])) &&
    (forall j | 0 <= j < |reachable| && tiles[j] == currentPos :: reachable[j]) &&
    (forall j | 0 <= j < |reachable| && reachable[j] :: pathfinder.Connected(currentPos, tiles[j], Null)) &&
    (Injective(hash) ==>
       forall j | 0 <= j < |reachable| :: reachable[j] <==> pathfinder.Connected(currentPos, tiles[j], Null))
  }

  /** Scanning one more tile: its path verdict and its score extend the scanned prefix. */
  lemma TilesScannedSnoc(tiles: seq<Pos>, enemyPos: Pos, pursuitMode: bool, hash: Pos -> int,
                         randomMods: seq<int>, reachable: seq<bool>, scores: seq<int>, found: bool, score: int)
    requires pathfinder.gridMap.Shape() && |reachable| == |scores| < |tiles| == |randomMods|
    requires TilesScanned(tiles, enemyPos, pursuitMode, hash, randomMods, reachable, scores)
    requires var tile := tiles[|scores|];
             score == ScoreTile(tile, enemyPos, optimalRange, minRange, pursuitMode, randomMods[|scores|]) &&
             (tile == currentPos ==> found) &&
             (found ==> pathfinder.Connected(currentPos, tile, Null)) &&
             (Injective(hash) ==> (found <==> pathfinder.Connected(currentPos, tile, Null)))
    ensures TilesScanned(tiles, enemyPos, pursuitMode, hash, randomMods, reachable + [found], scores + [score])
  {
  }

  /**
   * WellnessCheck: the decision table read off the unit's momentum and health and the nearest
   * enemy. It only inspects the state, so it is a function here.
   */
  function WellnessCheck(): (next: AIState)
    reads this, turnManager.registry, turnManager.registry.allUnits,
          if thisUnit.Some? then {thisUnit.value, thisUnit.value.turn} else {}
    requires thisUnit.Some?
    ensures var unit := thisUnit.value;
            next == Wellness(unit.turn.momentum, unit.HP, unit.maxHP, NearestDistance(Enemies(unit)), minRange, optimalRange)
  {
    var unit := thisUnit.value;
    if !CanIAct(unit, 1) then Idle
    else if 5 * unit.HP < unit.maxHP && CanIAct(unit, 2) then SeekingCover
    else
      var enemies := Enemies(unit);
      if |enemies| > 0 then
        var nearest := enemies[Nearest(enemies)].enemy.positionOnGrid;
        if IsInRange(currentPos, nearest, minRange) && CanIAct(unit, 2) then Moving
        else if IsInRange(currentPos, nearest, optimalRange) && CanIAct(unit, 2) then Attacking
        else Moving
      else if CanIAct(unit, 2) then Moving
      else Idle
  }

  /** The status of the AI and its unit `u` as it stands. */
  ghost function StatusOf(u: Character): (now: Status)
    reads this`callback, u, u.turn, u.movement, turnManager, turnManager.combatLog
  {
    Status(callback, u.turn.Counters(), u.positionOnGrid, u.movement.isMoving, u.attackAnimations, turnManager.Snap())
  }

  /**
   * What the AI's actions are judged against, with the AI taking its unit to stand on `from`:
   * the status, and what PerformAttack and MoveToPosition would pick, as they stand before the
   * actions run.
   */
  ghost function Capture(u: Character, from: Pos): (b: Before)
    reads this`callback, u, u.turn, u.movement, turnManager, turnManager.combatLog,
          turnManager.registry, turnManager.registry.allUnits
  {
    var enemies := Sightings(Foes(turnManager.registry.allUnits, u), from);
    var t := AttackTarget(enemies, u.atkRange);
    Before(StatusOf(u), turnManager.turnEndRequests, from, t, if t.Some? then t.value.enemy.HP else 0, |enemies|)
  }

  /** Capture and Wired depend only on what they read. */
  twostate lemma CaptureFramed(u: Character)
    requires unchanged(this`thisUnit, this`callback, this`currentPos, u, u.turn, u.movement, targetGrid,
                       targetGrid.grid, turnManager, turnManager.combatLog, turnManager.registry)
    requires unchanged(turnManager.registry.allUnits)
    ensures Capture(u, currentPos) == old(Capture(u, currentPos))
    ensures old(Wired(u)) ==> Wired(u)
  {
  }

  /** Capture from a given cell, and the enemies seen from it, do not depend on the AI's own fields but its callback. */
  twostate lemma CaptureMoved(u: Character, new from: Pos)
    requires unchanged(u, u.turn, u.movement, targetGrid, targetGrid.grid, turnManager, turnManager.combatLog,
                       turnManager.registry)
    requires unchanged(turnManager.registry.allUnits)
    ensures old(Serves(u)) ==> Serves(u)
    ensures callback == old(callback) ==> Capture(u, from) == old(Capture(u, from))
    ensures StatusOf(u) == old(StatusOf(u)).(callback := callback)
    ensures Capture(u, from) == old(Capture(u, from)).(now := StatusOf(u))
    ensures Sightings(Foes(turnManager.registry.allUnits, u), from) == old(Sightings(Foes(turnManager.registry.allUnits, u), from))
  {
  }

  /** While the AI's callback and its unit are left alone, only the scheduler's part of the status can change. */
  twostate lemma StatusFramed(u: Character)
    requires unchanged(this`callback, u, u.turn, u.movement)
    ensures StatusOf(u) == old(StatusOf(u)).(snap := turnManager.Snap())
  {
  }

  /**
   * Where MoveToPosition is headed from `b`: the path found runs from the AI's cell to
   * `destination`; with no enemy in sight the destination is the AI's own cell; and once the move
   * goes ahead, the grid is intact with the unit placed on the destination.
   */
  ghost predicate Headed(u: Character, b: Before, path: Option<seq<Pos>>, destination: Pos)
    reads targetGrid, targetGrid.grid
  {
    Route(path, b.from, destination, b.enemies) && (MoveAllowed(b.now.ledger, b.now.moving, path) ==> Placed(u, destination))
  }

  /** The grid is intact and `u` stands on `destination`. */
  ghost predicate Placed(u: Character, destination: Pos)
    reads targetGrid, targetGrid.grid
  {
    targetGrid.Valid() && targetGrid.GetPlacedObject(destination) == Some(u)
  }

  /** The state UpdateAI acts on: an `Evaluate` is first replaced by WellnessCheck's verdict. */
  function Decision(u: Character): (s: AIState)
    reads this, u, u.turn, turnManager.registry, turnManager.registry.allUnits
    ensures s != Evaluate
  {
    if currentState == Evaluate then
      WellnessSettles(u.turn.momentum, u.HP, u.maxHP, NearestDistance(Enemies(u)), minRange, optimalRange);
      Wellness(u.turn.momentum, u.HP, u.maxHP, NearestDistance(Enemies(u)), minRange, optimalRange)
    else currentState
  }

  /**
   * UpdateAI: one pass of the state machine. `Evaluate` stores WellnessCheck's verdict and runs
   * again at once; `Attacking` and `Moving` start their action; `Idle` only moves to `EndTurn`,
   * without running again; only `EndTurn` asks the scheduler to end the turn; `SeekingCover` and
   * `Waiting` change nothing. The parameters are the dice and tie-breaks the actions draw.
   */
  method UpdateAI(hash: Pos -> int, randomMods: seq<int>, toHitRoll: int, damageRoll: int)
    returns (ghost decided: AIState, ghost path: Option<seq<Pos>>, ghost destination: Pos)
    requires thisUnit.Some? && Wired(thisUnit.value)
    requires |randomMods| == |WalkableTiles(targetGrid, thisUnit.value.positionOnGrid, thisUnit.value.maxMoveSpeed)|
    requires Jitters(randomMods)
    requires 1 <= toHitRoll <= 20 && DamageRoll(thisUnit.value.DMG, damageRoll)
    modifies this`currentState, this`callback, thisUnit.value.turn`momentum, thisUnit.value`attackAnimations,
             thisUnit.value.movement, thisUnit.value`positionOnGrid, thisUnit.value`animMoving, targetGrid.grid,
             turnManager.registry.allUnits`HP, turnManager.registry.allUnits`shownHP,
             turnManager`playerTeam, turnManager`enemyTeam, turnManager`isEndingTurn, turnManager`turnEndRequests,
             turnManager`state, turnManager.registry, turnManager.combatLog`history, turnManager.combatLog`entries
    ensures unchanged(this`thisUnit, this`currentPos, this`maxRange, this`minRange, this`optimalRange)
    ensures decided == old(Decision(thisUnit.value))
    ensures currentState == if decided == Idle then EndTurn else decided
    ensures turnManager.combatLog.Valid()
    ensures StatusOf(thisUnit.value) ==
              Outcome(thisUnit.value, old(Capture(thisUnit.value, currentPos)), decided, path, destination, toHitRoll, damageRoll)
    ensures decided != Attacking ==>
              turnManager.turnEndRequests == old(turnManager.turnEndRequests) + EndRequests(old(Capture(thisUnit.value, currentPos)), decided, path)
    ensures decided == Moving ==> Headed(thisUnit.value, old(Capture(thisUnit.value, currentPos)), path, destination)
  {
    ghost var b, d := Capture(thisUnit.value, currentPos), Decision(thisUnit.value);
    if currentState == Evaluate {
      var next := WellnessCheck();
      assert next == d;
      currentState := next;
      CaptureFramed(thisUnit.value);
      decided := next;
    } else {
      decided := currentState;
    }
    path, destination := Act(b, hash, randomMods, toHitRoll, damageRoll);
  }

  /**
   * HandleAITurn: outside the scheduler's `EnemyTurn` nothing happens. Otherwise the AI takes
   * control of `unit` where it stands, with `minRange` 1 and `optimalRange` half the attack range
   * rounded down, and runs UpdateAI from `Evaluate`.
   */
  method HandleAITurn(unit: Character, hash: Pos -> int, randomMods: seq<int>, toHitRoll: int, damageRoll: int)
    returns (started: bool, ghost decided: AIState, ghost path: Option<seq<Pos>>, ghost destination: Pos)
    requires Serves(unit)
    requires |randomMods| == |WalkableTiles(targetGrid, unit.positionOnGrid, unit.maxMoveSpeed)|
    requires Jitters(randomMods)
    requires 1 <= toHitRoll <= 20 && DamageRoll(unit.DMG, damageRoll)
    modifies this`thisUnit, this`currentPos, this`maxRange, this`minRange, this`optimalRange,
             this`currentState, this`callback, unit.turn`momentum, unit`attackAnimations,
             unit.movement, unit`positionOnGrid, unit`animMoving, targetGrid.grid,
             turnManager.registry.allUnits`HP, turnManager.registry.allUnits`shownHP,
             turnManager`playerTeam, turnManager`enemyTeam, turnManager`isEndingTurn, turnManager`turnEndRequests,
             turnManager`state, turnManager.registry, turnManager.combatLog`history, turnManager.combatLog`entries
    ensures started <==> old(turnManager.state) == EnemyTurn
    ensures !started ==> unchanged(this, unit, unit.turn, unit.movement, targetGrid.grid) &&
                         unchanged(turnManager, turnManager.registry, turnManager.combatLog)
    ensures started ==>
              thisUnit == Some(unit) && currentPos == old(unit.positionOnGrid) &&
              maxRange == unit.atkRange && minRange == 1 && optimalRange == HalfRange(unit.atkRange)
    ensures started ==>
              decided == old(Wellness(unit.turn.momentum, unit.HP, unit.maxHP,
                                      NearestDistance(Sightings(Foes(turnManager.registry.allUnits, unit), unit.positionOnGrid)),
                                      1, HalfRange(unit.atkRange))) &&
              currentState == (if decided == Idle then EndTurn else decided)
    ensures started ==>
              StatusOf(unit) == Outcome(unit, old(Capture(unit, unit.positionOnGrid)), decided, path, destination, toHitRoll, damageRoll)
    ensures started && decided != Attacking ==>
              turnManager.turnEndRequests ==
                old(turnManager.turnEndRequests) + EndRequests(old(Capture(unit, unit.positionOnGrid)), decided, path)
    ensures started && decided == Moving ==> Headed(unit, old(Capture(unit, unit.positionOnGrid)), path, destination)
  {
    decided, path, destination := Idle, Null, currentPos;
    started := turnManager.state == EnemyTurn;
    if !started {
      return;
    }
    TakeControl(unit);
    ghost var b := Capture(unit, currentPos);
    assert currentPos == old(unit.positionOnGrid) && b == old(Capture(unit, unit.positionOnGrid));
    decided, path, destination := UpdateAI(hash, randomMods, toHitRoll, damageRoll);
  }

  /** The set-up half of HandleAITurn: the AI takes `unit` where it stands and starts from `Evaluate`. */
  method TakeControl(unit: Character)
    requires Serves(unit)
    modifies this`thisUnit, this`currentPos, this`maxRange, this`minRange, this`optimalRange, this`currentState
    ensures Wired(unit) && currentState == Evaluate && currentPos == unit.positionOnGrid
    ensures maxRange == unit.atkRange && minRange == 1 && optimalRange == HalfRange(unit.atkRange)
    ensures Capture(unit, currentPos) == old(Capture(unit, unit.positionOnGrid))
    ensures Decision(unit) ==
              old(Wellness(unit.turn.momentum, unit.HP, unit.maxHP,
                           NearestDistance(Sightings(Foes(turnManager.registry.allUnits, unit), unit.positionOnGrid)),
                           1, HalfRange(unit.atkRange)))
  {
    thisUnit := Some(unit);
    currentState := Evaluate;
    currentPos := unit.positionOnGrid;
    maxRange := unit.atkRange;
    minRange := 1;
    optimalRange := HalfRange(maxRange);
    TakenOver(unit, currentPos);
  }

  /** What TakeControl's assignments leave: the AI serves `u` from where it stands, with the ranges set from its attack range. */
  twostate lemma TakenOver(u: Character, new from: Pos)
    requires thisUnit == Some(u) && old(Serves(u))
    requires unchanged(u, u.turn, u.movement, targetGrid, targetGrid.grid, turnManager, turnManager.combatLog,
                       turnManager.registry)
    requires unchanged(turnManager.registry.allUnits)
    requires from == u.positionOnGrid && currentPos == from && currentState == Evaluate && callback == old(callback)
    requires minRange == 1 && optimalRange == HalfRange(u.atkRange)
    ensures Wired(u)
    ensures Capture(u, from) == old(Capture(u, from))
    ensures Decision(u) ==
              old(Wellness(u.turn.momentum, u.HP, u.maxHP, NearestDistance(Sightings(Foes(turnManager.registry.allUnits, u), from)),
                           1, HalfRange(u.atkRange)))
  {
    Stationed(u, from);
  }

  /**
   * The resume of the animation wait that MoveToPosition or PerformAttack started: after a walk
   * the AI takes the unit's new cell as its own; then it goes back to `Evaluate` and runs
   * UpdateAI again (DelayedUpdateAI, without its delay).
   */
  method AnimationStopped(hash: Pos -> int, randomMods: seq<int>, toHitRoll: int, damageRoll: int)
    returns (ghost from: Pos, ghost decided: AIState, ghost path: Option<seq<Pos>>, ghost destination: Pos)
    requires thisUnit.Some? && Wired(thisUnit.value) && callback != NoCallback
    requires |randomMods| == |WalkableTiles(targetGrid, thisUnit.value.positionOnGrid, thisUnit.value.maxMoveSpeed)|
    requires Jitters(randomMods)
    requires 1 <= toHitRoll <= 20 && DamageRoll(thisUnit.value.DMG, damageRoll)
    modifies this`currentPos, this`currentState, this`callback, thisUnit.value.turn`momentum,
             thisUnit.value`attackAnimations, thisUnit.value.movement, thisUnit.value`positionOnGrid,
             thisUnit.value`animMoving, targetGrid.grid,
             turnManager.registry.allUnits`HP, turnManager.registry.allUnits`shownHP,
             turnManager`playerTeam, turnManager`enemyTeam, turnManager`isEndingTurn, turnManager`turnEndRequests,
             turnManager`state, turnManager.registry, turnManager.combatLog`history, turnManager.combatLog`entries
    ensures from == if old(callback) == AfterMove then old(thisUnit.value.positionOnGrid) else old(currentPos)
    ensures thisUnit == old(thisUnit) && currentPos == from
    ensures decided == old(Wellness(thisUnit.value.turn.momentum, thisUnit.value.HP, thisUnit.value.maxHP,
                                    NearestDistance(Sightings(Foes(turnManager.registry.allUnits, thisUnit.value), from)),
                                    minRange, optimalRange))
    ensures currentState == if decided == Idle then EndTurn else decided
    ensures StatusOf(thisUnit.value) == Outcome(thisUnit.value, Resumed(old(Capture(thisUnit.value, from))), decided, path, destination, toHitRoll, damageRoll)
    ensures decided != Attacking ==>
              turnManager.turnEndRequests == old(turnManager.turnEndRequests) + EndRequests(Resumed(old(Capture(thisUnit.value, from))), decided, path)
    ensures decided == Moving ==> Headed(thisUnit.value, Resumed(old(Capture(thisUnit.value, from))), path, destination)
  {
    from := if callback == AfterMove then thisUnit.value.positionOnGrid else currentPos;
    Resume(from);
    decided, path, destination := UpdateAI(hash, randomMods, toHitRoll, damageRoll);
  }

  /**
   * The AI controls `u`, which it serves, and stands it on `from` at `Evaluate`: what it would
   * pick from there is what it would have picked before, and its next decision is the
   * wellness check seen from `from`.
   */
  twostate lemma Stationed(u: Character, new from: Pos)
    requires thisUnit == Some(u) && old(Serves(u))
    requires unchanged(u, u.turn, u.movement, targetGrid, targetGrid.grid, turnManager, turnManager.combatLog,
                       turnManager.registry)
    requires unchanged(turnManager.registry.allUnits)
    requires targetGrid.CheckBoundry(from)
    requires currentPos == from && currentState == Evaluate
    ensures Wired(u)
    ensures Capture(u, from) == old(Capture(u, from)).(now := old(StatusOf(u)).(callback := callback))
    ensures Decision(u) ==
              Wellness(u.turn.momentum, u.HP, u.maxHP, NearestDistance(Sightings(Foes(turnManager.registry.allUnits, u), from)),
                       minRange, optimalRange)
  {
    CaptureMoved(u, from);
    assert Enemies(u) == Sightings(Foes(turnManager.registry.allUnits, u), from);
  }

  /** What Resume's three assignments leave: the status of a unit standing on `from`, with no wait pending. */
  twostate lemma Resumes(u: Character, new from: Pos)
    requires old(thisUnit) == thisUnit == Some(u) && old(Serves(u))
    requires unchanged(u, u.turn, u.movement, targetGrid, targetGrid.grid, turnManager, turnManager.combatLog,
                       turnManager.registry)
    requires unchanged(turnManager.registry.allUnits)
    requires targetGrid.CheckBoundry(from)
    requires unchanged(this`minRange, this`optimalRange)
    requires currentPos == from && currentState == Evaluate && callback == NoCallback
    ensures Wired(u)
    ensures Capture(u, currentPos) == Resumed(old(Capture(u, from)))
    ensures Decision(u) ==
              old(Wellness(u.turn.momentum, u.HP, u.maxHP, NearestDistance(Sightings(Foes(turnManager.registry.allUnits, u), from)),
                           minRange, optimalRange))
  {
    Stationed(u, from);
  }

  /** The set-up half of AnimationStopped: the AI stands on `from`, back at `Evaluate`, with no wait pending. */
  method Resume(ghost from: Pos)
    requires thisUnit.Some? && Wired(thisUnit.value)
    requires from == if callback == AfterMove then thisUnit.value.positionOnGrid else currentPos
    modifies this`currentPos, this`currentState, this`callback
    ensures Wired(thisUnit.value) && currentPos == from && currentState == Evaluate
    ensures Capture(thisUnit.value, currentPos) == Resumed(old(Capture(thisUnit.value, from)))
    ensures Decision(thisUnit.value) ==
              old(Wellness(thisUnit.value.turn.momentum, thisUnit.value.HP, thisUnit.value.maxHP,
                           NearestDistance(Sightings(Foes(turnManager.registry.allUnits, thisUnit.value), from)),
                           minRange, optimalRange))
  {
    if callback == AfterMove {
      currentPos := thisUnit.value.positionOnGrid;
    }
    currentState := Evaluate;
    callback := NoCallback;
    Resumes(thisUnit.value, from);
  }

  /** The arms of UpdateAI's switch for every state but `Evaluate`. */
  method Act(ghost b: Before, hash: Pos -> int, randomMods: seq<int>, toHitRoll: int, damageRoll: int)
    returns (ghost path: Option<seq<Pos>>, ghost destination: Pos)
    requires thisUnit.Some? && Wired(thisUnit.value) && currentState != Evaluate && b == Capture(thisUnit.value, currentPos)
    requires |randomMods| == |WalkableTiles(targetGrid, thisUnit.value.positionOnGrid, thisUnit.value.maxMoveSpeed)|
    requires Jitters(randomMods)
    requires 1 <= toHitRoll <= 20 && DamageRoll(thisUnit.value.DMG, damageRoll)
    modifies this`currentState, this`callback, thisUnit.value.turn`momentum, thisUnit.value`attackAnimations,
             thisUnit.value.movement, thisUnit.value`positionOnGrid, thisUnit.value`animMoving, targetGrid.grid,
             turnManager.registry.allUnits`HP, turnManager.registry.allUnits`shownHP,
             turnManager`playerTeam, turnManager`enemyTeam, turnManager`isEndingTurn, turnManager`turnEndRequests,
             turnManager`state, turnManager.registry, turnManager.combatLog`history, turnManager.combatLog`entries
    ensures unchanged(this`thisUnit, this`currentPos, this`maxRange, this`minRange, this`optimalRange)
    ensures currentState == if old(currentState) == Idle then EndTurn else old(currentState)
    ensures turnManager.combatLog.Valid()
    ensures StatusOf(thisUnit.value) == Outcome(thisUnit.value, b, old(currentState), path, destination, toHitRoll, damageRoll)
    ensures old(currentState) != Attacking ==>
              turnManager.turnEndRequests == b.endRequests + EndRequests(b, old(currentState), path)
    ensures old(currentState) == Moving ==> Headed(thisUnit.value, b, path, destination)
  {
    path, destination := Null, currentPos;
    if currentState == Attacking {
      AttackArm(b, toHitRoll, damageRoll);
    } else {
      path, destination := Proceed(b, hash, randomMods);
      assert Outcome(thisUnit.value, b, old(currentState), path, destination, toHitRoll, damageRoll) ==
             Outcome(thisUnit.value, b, old(currentState), path, destination, 1, 1);
    }
  }

  /** The `Attacking` arm of UpdateAI's switch: PerformAttack, with no path taken. */
  method AttackArm(ghost b: Before, toHitRoll: int, damageRoll: int)
    requires thisUnit.Some? && Wired(thisUnit.value) && currentState == Attacking && b == Capture(thisUnit.value, currentPos)
    requires 1 <= toHitRoll <= 20 && DamageRoll(thisUnit.value.DMG, damageRoll)
    modifies this`callback, thisUnit.value.turn`momentum, thisUnit.value`attackAnimations,
             turnManager.registry.allUnits`HP, turnManager.registry.allUnits`shownHP,
             turnManager`playerTeam, turnManager`enemyTeam, turnManager`isEndingTurn, turnManager`turnEndRequests,
             turnManager`state, turnManager.registry, turnManager.combatLog`history, turnManager.combatLog`entries
    ensures unchanged(this`thisUnit, this`currentPos, this`maxRange, this`minRange, this`optimalRange, this`currentState)
    ensures turnManager.combatLog.Valid()
    ensures StatusOf(thisUnit.value) == Outcome(thisUnit.value, b, Attacking, Null, currentPos, toHitRoll, damageRoll)
  {
    PerformAttack(b, toHitRoll, damageRoll);
    assert Outcome(thisUnit.value, b, Attacking, Null, currentPos, toHitRoll, damageRoll) ==
           AttackOutcome(thisUnit.value, b, toHitRoll, damageRoll);
  }

  /** The arms of UpdateAI's switch for every state but `Evaluate` and `Attacking`; no dice are rolled in them. */
  method Proceed(ghost b: Before, hash: Pos -> int, randomMods: seq<int>)
    returns (ghost path: Option<seq<Pos>>, ghost destination: Pos)
    requires thisUnit.Some? && Wired(thisUnit.value) && currentState !in {Evaluate, Attacking} && b == Capture(thisUnit.value, currentPos)
    requires |randomMods| == |WalkableTiles(targetGrid, thisUnit.value.positionOnGrid, thisUnit.value.maxMoveSpeed)|
    requires Jitters(randomMods)
    modifies this`currentState, this`callback, thisUnit.value.turn`momentum, turnManager`isEndingTurn, turnManager`turnEndRequests,
             thisUnit.value.movement, thisUnit.value`positionOnGrid, thisUnit.value`animMoving, targetGrid.grid
    ensures unchanged(this`thisUnit, this`currentPos, this`maxRange, this`minRange, this`optimalRange)
    ensures currentState == if old(currentState) == Idle then EndTurn else old(currentState)
    ensures StatusOf(thisUnit.value) == Outcome(thisUnit.value, b, old(currentState), path, destination, 1, 1)
    ensures turnManager.turnEndRequests == b.endRequests + EndRequests(b, old(currentState), path)
    ensures old(currentState) == Moving ==> Headed(thisUnit.value, b, path, destination)
  {
    path, destination := Null, currentPos;
    if currentState == Moving {
      path, destination := MoveToPosition(b, hash, randomMods);
    } else {
      assert b.now == StatusOf(thisUnit.value) && b.endRequests == turnManager.turnEndRequests;
      Settle(b);
    }
  }

  /** The arms of UpdateAI's switch that start no action: only `Idle` and `EndTurn` do anything. */
  method Settle(ghost b: Before)
    requires thisUnit.Some? && b.now == StatusOf(thisUnit.value) && b.endRequests == turnManager.turnEndRequests
    requires currentState in {SeekingCover, Waiting, Idle, EndTurn}
    modifies this`currentState, turnManager`isEndingTurn, turnManager`turnEndRequests
    ensures currentState == if old(currentState) == Idle then EndTurn else old(currentState)
    ensures StatusOf(thisUnit.value) ==
              if old(currentState) == EndTurn then b.now.(snap := b.now.snap.(isEndingTurn := true)) else b.now
    ensures turnManager.turnEndRequests == b.endRequests + if old(currentState) == EndTurn then 1 else 0
  {
    match currentState
    case SeekingCover =>
    case Waiting =>
    case Idle =>
      currentState := EndTurn;
      StatusFramed(thisUnit.value);
    case EndTurn =>
      turnManager.EndCurrentUnitTurn();
      StatusFramed(thisUnit.value);
  }

  /**
   * PerformAttack. `toHitRoll` is the d20 and `damageRoll` the damage die; the target is the
   * nearest enemy within attack range.
   */
  method PerformAttack(ghost b: Before, toHitRoll: int, damageRoll: int)
    requires thisUnit.Some? && Wired(thisUnit.value) && b == Capture(thisUnit.value, currentPos)
    requires 1 <= toHitRoll <= 20 && DamageRoll(thisUnit.value.DMG, damageRoll)
    modifies this`callback, thisUnit.value.turn`momentum, thisUnit.value`attackAnimations,
             turnManager.registry.allUnits`HP, turnManager.registry.allUnits`shownHP,
             turnManager`playerTeam, turnManager`enemyTeam, turnManager`isEndingTurn, turnManager`turnEndRequests,
             turnManager`state, turnManager.registry, turnManager.combatLog`history, turnManager.combatLog`entries
    ensures unchanged(this`thisUnit, this`currentPos, this`maxRange, this`minRange, this`optimalRange)
    ensures turnManager.combatLog.Valid()
    ensures StatusOf(thisUnit.value) == AttackOutcome(thisUnit.value, b, toHitRoll, damageRoll)
  {
    var unit := thisUnit.value;
    var found := AttackTarget(Enemies(unit), unit.atkRange);
    assert b.target == found;
    if found.Some? && CanIAct(unit, 2) {
      var target := found.value.enemy;
      Strike(b, unit, target, toHitRoll, damageRoll);
    }
    assert thisUnit == Some(unit);
  }

  /**
   * MoveToPosition: a path from the AI's cell to the best tile is searched for; with 2 momentum
   * and a path the unit can start, it pays them, walks the path and waits for the walk to end;
   * otherwise nothing changes. `hash` breaks the pathfinder's ties and `randomMods` are the
   * scoring rolls, one per walkable tile.
   */
  method MoveToPosition(ghost b: Before, hash: Pos -> int, randomMods: seq<int>) returns (ghost path: Option<seq<Pos>>, ghost destination: Pos)
    requires thisUnit.Some? && Wired(thisUnit.value) && b == Capture(thisUnit.value, currentPos)
    requires |randomMods| == |WalkableTiles(targetGrid, thisUnit.value.positionOnGrid, thisUnit.value.maxMoveSpeed)|
    requires Jitters(randomMods)
    modifies this`callback, thisUnit.value.turn`momentum, turnManager`isEndingTurn, turnManager`turnEndRequests,
             thisUnit.value.movement, thisUnit.value`positionOnGrid, thisUnit.value`animMoving, targetGrid.grid
    ensures unchanged(this`thisUnit, this`currentPos, this`maxRange, this`minRange, this`optimalRange)
    ensures StatusOf(thisUnit.value) == MoveOutcome(b, path, destination)
    ensures turnManager.turnEndRequests == b.endRequests + EndRequests(b, Moving, path)
    ensures Headed(thisUnit.value, b, path, destination)
  {
    var unit := thisUnit.value;
    var best, found, go := PlanMove(b, unit, hash, randomMods);
    path, destination := found, best;
    StatusFramed(unit);
    Walk(b, unit, found, best, go);
  }

  /**
   * The searching half of MoveToPosition, which changes nothing: the best tile, the path to it,
   * and whether the unit may take that path now.
   */
  method PlanMove(ghost b: Before, unit: Character, hash: Pos -> int, randomMods: seq<int>)
    returns (best: Pos, found: Option<seq<Pos>>, go: bool)
    requires thisUnit == Some(unit) && Wired(unit) && b == Capture(unit, currentPos)
    requires |randomMods| == |WalkableTiles(targetGrid, unit.positionOnGrid, unit.maxMoveSpeed)|
    requires Jitters(randomMods)
    ensures found.Some? ==> PathOnGrid(targetGrid, found.value)
    ensures Route(found, b.from, best, b.enemies)
    ensures go <==> MoveAllowed(b.now.ledger, b.now.moving, found)
  {
    ghost var tiles, reachable, scores;
    best, tiles, reachable, scores := CalculateBestMovePosition(hash, randomMods);
    assert b.enemies == 0 ==> best == b.from;
    found := pathfinder.FindPath(currentPos, best, Null, hash);
    var canSpend := CanIAct(unit, 2);
    if found.Some? {
      forall i | 0 <= i < |found.value|
        ensures targetGrid.CheckBoundryXY(found.value[i].x, found.value[i].y)
      {
        if i > 0 {
          assert found.value[i] in pathfinder.GetNeighbors(found.value[i - 1], Null);
        }
      }
    }
    assert canSpend <==> CanSpend(b.now.ledger, AIActionCost);
    var pathIsValid := unit.movement.PathIsValid(found, unit.targetGrid);
    go := pathIsValid && canSpend;
    assert unit.movement.isMoving == b.now.moving;
  }

  /** The paying and walking half of MoveToPosition, once `b` has led to `found` and `go`. */
  method Walk(ghost b: Before, unit: Character, found: Option<seq<Pos>>, ghost destination: Pos, go: bool)
    requires unit.turn.turnManager == turnManager && unit.targetGrid == targetGrid && targetGrid.Valid()
    requires found.Some? ==> PathOnGrid(targetGrid, found.value)
    requires Route(found, b.from, destination, b.enemies)
    requires b.now == StatusOf(unit) && b.endRequests == turnManager.turnEndRequests
    requires go <==> MoveAllowed(b.now.ledger, b.now.moving, found)
    modifies this`callback, unit.turn`momentum, turnManager`isEndingTurn, turnManager`turnEndRequests,
             unit.movement, unit`positionOnGrid, unit`animMoving, targetGrid.grid
    ensures StatusOf(unit) == MoveOutcome(b, found, destination)
    ensures turnManager.turnEndRequests == b.endRequests + EndRequests(b, Moving, found)
    ensures Headed(unit, b, found, destination)
  {
    if !go {
      return;
    }
    Pay(unit);
    assert targetGrid.Valid() && PathOnGrid(targetGrid, found.value);
    var walked := unit.movement.Move(found.value, unit);
    callback := AfterMove;
  }

  /** SpendMomentum(2) as the AI's actions call it: the momentum is paid and the scheduler told of an empty tank. */
  method Pay(unit: Character)
    requires unit.turn.turnManager == turnManager
    modifies unit.turn`momentum, turnManager`isEndingTurn, turnManager`turnEndRequests
    ensures var now := old(StatusOf(unit));
            StatusOf(unit) == now.(ledger := Spend(now.ledger, AIActionCost).ledger, snap := AfterSpend(now.snap, now.ledger))
    ensures turnManager.turnEndRequests ==
              old(turnManager.turnEndRequests) + if Spend(old(unit.turn.Counters()), AIActionCost).endsTurn then 1 else 0
  {
    var spent := unit.turn.SpendMomentum(AIActionCost);
  }

  /** The paying and striking half of PerformAttack, once it has found `target` from `b`. */
  method Strike(ghost b: Before, unit: Character, target: Character, toHitRoll: int, damageRoll: int)
    requires unit.turn.turnManager == turnManager && unit.turnManager == turnManager && target.turnManager == turnManager
    requires turnManager.combatLog.Valid() && CanSpend(unit.turn.Counters(), AIActionCost)
    requires 1 <= toHitRoll <= 20 && DamageRoll(unit.DMG, damageRoll)
    requires b.now == StatusOf(unit) && b.target.Some? && b.target.value.enemy == target && b.targetHP == target.HP
    modifies this`callback, unit.turn`momentum, unit`attackAnimations, target`HP, target`shownHP,
             turnManager`playerTeam, turnManager`enemyTeam, turnManager`isEndingTurn, turnManager`turnEndRequests,
             turnManager`state, turnManager.registry, turnManager.combatLog`history, turnManager.combatLog`entries
    ensures unchanged(this`thisUnit, this`currentPos, this`maxRange, this`minRange, this`optimalRange)
    ensures turnManager.combatLog.Valid()
    ensures StatusOf(unit) == AttackOutcome(unit, b, toHitRoll, damageRoll)
  {
    Pay(unit);
    ghost var paid := StatusOf(unit);
    assert paid == b.now.(ledger := Spend(b.now.ledger, AIActionCost).ledger, snap := AfterSpend(b.now.snap, b.now.ledger));
    var total := unit.RollToHit(toHitRoll);
    assert target.HP == b.targetHP;
    StrikeAt(unit, target, total, damageRoll);
  }

  /** AttackPosition, then the wait for the attack animation. */
  method StrikeAt(unit: Character, target: Character, total: int, damageRoll: int)
    requires unit.turnManager == turnManager && target.turnManager == turnManager && turnManager.combatLog.Valid()
    requires DamageRoll(unit.DMG, damageRoll)
    modifies this`callback, unit`attackAnimations, target`HP, target`shownHP,
             turnManager`playerTeam, turnManager`enemyTeam, turnManager`isEndingTurn, turnManager`turnEndRequests,
             turnManager`state, turnManager.registry, turnManager.combatLog`history, turnManager.combatLog`entries
    ensures turnManager.combatLog.Valid()
    ensures var before := old(StatusOf(unit));
            StatusOf(unit) == before.(callback := AfterAttack, animations := before.animations + 1,
                                      snap := Struck(before.snap, unit, target, total, HitDamage(unit, damageRoll), old(target.HP)))
  {
    AttackPosition(unit, target, total, damageRoll);
    callback := AfterAttack;
  }
}

/**
 * A path, if any, runs from `from` to `destination`; with no enemy in sight the destination is
 * `from` itself.
 */
predicate Route(path: Option<seq<Pos>>, from: Pos, destination: Pos, enemies: nat)
{
  (path.Some? ==> |path.value| > 0 && path.value[0] == from && path.value[|path.value| - 1] == destination) &&
  (enemies == 0 ==> destination == from)
}

/** Adding a tile to the scan extends the argmax by one step. */
lemma BestTileExtend(tiles: seq<Pos>, reachable: seq<bool>, scores: seq<int>, fallback: Pos, found: bool, score: int)
  requires |tiles| == |reachable| + 1 && |reachable| == |scores|
  ensures var n := |reachable|;
          BestTile(tiles, reachable + [found], scores + [score], fallback, n + 1) ==
            var before := BestTile(tiles[..n], reachable, scores, fallback, n);
            if found && score > before.1 then (tiles[n], score) else before
{
  var n := |reachable|;
  BestTilePrefix(tiles, reachable + [found], scores + [score], fallback, n, tiles[..n], reachable, scores);
}

/** The argmax of the first `n` tiles reads only the first `n` entries of each list. */
lemma {:induction false} BestTilePrefix(tiles: seq<Pos>, reachable: seq<bool>, scores: seq<int>, fallback: Pos, n: nat,
                                        tiles': seq<Pos>, reachable': seq<bool>, scores': seq<int>)
  requires n <= |tiles| == |reachable| == |scores| && n <= |tiles'| == |reachable'| == |scores'|
  requires tiles[..n] == tiles'[..n] && reachable[..n] == reachable'[..n] && scores[..n] == scores'[..n]
  ensures BestTile(tiles, reachable, scores, fallback, n) == BestTile(tiles', reachable', scores', fallback, n)
{
  if n > 0 {
    assert tiles[..n - 1] == tiles'[..n - 1] && reachable[..n - 1] == reachable'[..n - 1] && scores[..n - 1] == scores'[..n - 1] by {
      assert tiles[..n - 1] == tiles[..n][..n - 1];
      assert tiles'[..n - 1] == tiles'[..n][..n - 1];
      assert reachable[..n - 1] == reachable[..n][..n - 1];
      assert reachable'[..n - 1] == reachable'[..n][..n - 1];
      assert scores[..n - 1] == scores[..n][..n - 1];
      assert scores'[..n - 1] == scores'[..n][..n - 1];
    }
    BestTilePrefix(tiles, reachable, scores, fallback, n - 1, tiles', reachable', scores');
    assert tiles[n - 1] == tiles[..n][n - 1] && tiles'[n - 1] == tiles'[..n][n - 1];
    assert reachable[n - 1] == reachable[..n][n - 1] && reachable'[n - 1] == reachable'[..n][n - 1];
    assert scores[n - 1] == scores[..n][n - 1] && scores'[n - 1] == scores'[..n][n - 1];
  }
}
