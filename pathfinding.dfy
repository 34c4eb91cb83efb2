// Grid pathfinding: the best-first search of Pathfinder.FindPath over a GridMap, its
// neighbour enumeration, its heuristic and its path reconstruction.

/** float.MaxValue, the default search-cost bound (an exact integer). */
const FloatMaxValue: int := 340282346638528859811704183484516925440

/** The four diagonal offsets, in the source's order. */
const Diagonal: seq<Pos> := [Pos(1, 1), Pos(-1, 1), Pos(1, -1), Pos(-1, -1)]

/**
 * Search options. The optional callbacks are C# delegates that may be null.
 * FindPath reads only the diagonal, corner-cutting and extra-walkability options;
 * the flood fill reads the search-cost bound, the extra check and the cost override.
 */
datatype PathfindingSettings = PathfindingSettings(
  allowDiagonalMovement: bool,
  preventCornerCutting: bool,
  useHeuristic: bool,
  maxSearchCost: int,
  additionalWalkabilityCheck: Option<Pos -> bool>,
  movementCostOverride: Option<Pos -> int>)

/** A fresh settings object: every property at its initialiser. */
const DefaultSettings: PathfindingSettings :=
  PathfindingSettings(true, true, true, FloatMaxValue, Null, Null)

/**
 * `settings?.AdditionalWalkabilityCheck?.Invoke(p) == false` does not hold: with no
 * settings or no callback the cell passes.
 */
predicate PassesExtraCheck(settings: Option<PathfindingSettings>, p: Pos)
{
  !(settings.Some? && settings.value.additionalWalkabilityCheck.Some? &&
    !settings.value.additionalWalkabilityCheck.value(p))
}

/** Octile-style distance estimate: 10 per diagonal step and 14 per straight step. */
function Heuristic(a: Pos, b: Pos): (r: int)
  ensures r >= 0
  ensures r == 0 <==> a == b
{
  var dx := Abs(a.x - b.x);
  var dy := Abs(a.y - b.y);
  10 * (if dx < dy then dx else dy) + 14 * Abs(dx - dy)
}

/** The estimate does not depend on the direction. */
lemma HeuristicSymmetric(a: Pos, b: Pos)
  ensures Heuristic(a, b) == Heuristic(b, a)
{
}

/**
 * A search record. Records live in a table keyed by position (the source's `allNodes`
 * dictionary holds exactly one record object per position), so the parent reference
 * is the parent's position.
 */
datatype NodeRecord = NodeRecord(gCost: nat, hCost: int, parent: Option<Pos>)

/** The open set's ordering key: f-cost, then the position's hash code. */
datatype Key = Key(fCost: int, tie: int)

/** NodeRecordComparer: compare f-costs, break ties by hash code. */
predicate KeyLess(a: Key, b: Key)
{
  a.fCost < b.fCost || (a.fCost == b.fCost && a.tie < b.tie)
}

function KeyOf(p: Pos, r: NodeRecord, hash: Pos -> int): Key
{
  Key(r.gCost + r.hCost, hash(p))
}

/** A tie-break that tells every two cells apart. */
ghost predicate Injective(hash: Pos -> int)
{
  forall p, q :: hash(p) == hash(q) ==> p == q
}

/**
 * SortedSet.Add: the set keeps at most one element per comparer key, so adding a
 * record whose key is already present leaves the set as it was.
 */
function SortedAdd(open: map<Key, Pos>, k: Key, p: Pos): (r: map<Key, Pos>)
  ensures k in r
  ensures k in open ==> r == open
  ensures k !in open ==> r == open[k := p]
{
  if k in open then open else open[k := p]
}

/** The sequence in reverse order (List.Reverse). */
function Reversed<T>(s: seq<T>): (r: seq<T>)
  ensures |r| == |s|
  ensures forall i | 0 <= i < |s| :: r[i] == s[|s| - 1 - i]
{
  if |s| == 0 then [] else Reversed(s[1..]) + [s[0]]
}

class Pathfinder
{
  const gridMap: GridMap

  constructor(gridMap: GridMap)
    ensures this.gridMap == gridMap
  {
    this.gridMap := gridMap;
  }

  /** In bounds, walkable and accepted by the optional extra check. */
  predicate Open(n: Pos, settings: Option<PathfindingSettings>)
    reads gridMap.grid
    requires gridMap.Shape()
  {
    gridMap.CheckBoundry(n) && gridMap.CheckWalkable(n) && PassesExtraCheck(settings, n)
  }

  /** Both orthogonal cells flanking the diagonal step from `pos` by `dir` are open. */
  predicate FlanksOpen(pos: Pos, dir: Pos, settings: PathfindingSettings)
    reads gridMap.grid
    requires gridMap.Shape()
  {
    var check1 := Pos(pos.x + dir.x, pos.y);
    var check2 := Pos(pos.x, pos.y + dir.y);
    Open(check1, Some(settings)) && Open(check2, Some(settings))
  }

  /** The open cardinal neighbours of `pos`, for the directions from index `i` on. */
  function CardinalNeighbors(pos: Pos, settings: Option<PathfindingSettings>, i: nat): (r: seq<Pos>)
    reads gridMap.grid
    requires gridMap.Shape() && i <= 4
    ensures forall n :: n in r <==> n.Minus(pos) in CardinalDirections[i..] && Open(n, settings)
    decreases 4 - i
  {
    if i == 4 then []
    else
      var n := pos.Plus(CardinalDirections[i]);
      assert CardinalDirections[i..] == [CardinalDirections[i]] + CardinalDirections[i + 1..];
      (if Open(n, settings) then [n] else []) + CardinalNeighbors(pos, settings, i + 1)
  }

  /** The diagonal neighbours of `pos` that are open and, if asked, do not cut a corner. */
  function DiagonalNeighbors(pos: Pos, settings: PathfindingSettings, i: nat): (r: seq<Pos>)
    reads gridMap.grid
    requires gridMap.Shape() && i <= 4
    ensures forall n :: n in r <==>
              n.Minus(pos) in Diagonal[i..] && Open(n, Some(settings)) &&
              (settings.preventCornerCutting ==> FlanksOpen(pos, n.Minus(pos), settings))
    decreases 4 - i
  {
    if i == 4 then []
    else
      var dir := Diagonal[i];
      var n := pos.Plus(dir);
      assert n.Minus(pos) == dir;
      assert Diagonal[i..] == [dir] + Diagonal[i + 1..];
      var keep := Open(n, Some(settings)) &&
                  (settings.preventCornerCutting ==> FlanksOpen(pos, dir, settings));
      (if keep then [n] else []) + DiagonalNeighbors(pos, settings, i + 1)
  }

  /**
   * The neighbours FindPath expands: open cardinal cells, then, only with settings that
   * allow diagonals, the open diagonal cells (not cutting corners when that is prevented).
   */
  function GetNeighbors(pos: Pos, settings: Option<PathfindingSettings>): (r: seq<Pos>)
    reads gridMap.grid
    requires gridMap.Shape()
    ensures forall n | n in r :: Open(n, settings)
  {
    CardinalNeighbors(pos, settings, 0) +
    if settings.Some? && settings.value.allowDiagonalMovement then DiagonalNeighbors(pos, settings.value, 0)
    else []
  }

  /** What it takes to be a neighbour, in both directions. */
  lemma NeighborsCharacterized(pos: Pos, settings: Option<PathfindingSettings>, n: Pos)
    requires gridMap.Shape()
    ensures n in GetNeighbors(pos, settings) <==>
              (n.Minus(pos) in CardinalDirections && Open(n, settings)) ||
              (settings.Some? && settings.value.allowDiagonalMovement &&
               n.Minus(pos) in Diagonal && Open(n, settings) &&
               (settings.value.preventCornerCutting ==> FlanksOpen(pos, n.Minus(pos), settings.value)))
  {
    assert CardinalDirections[0..] == CardinalDirections;
    assert Diagonal[0..] == Diagonal;
  }

  /** With no settings (as every caller passes) a neighbour is exactly one step away. */
  lemma NullSettingsNeighborsAdjacent(pos: Pos, n: Pos)
    requires gridMap.Shape()
    requires n in GetNeighbors(pos, Null)
    ensures Manhattan(pos, n) == 1
  {
    NeighborsCharacterized(pos, Null, n);
  }

  /** With corner cutting prevented, a diagonal neighbour has both flanking cells open. */
  lemma NoCornerCutting(pos: Pos, settings: PathfindingSettings, n: Pos)
    requires gridMap.Shape()
    requires settings.preventCornerCutting
    requires n in GetNeighbors(pos, Some(settings)) && n.Minus(pos) in Diagonal
    ensures FlanksOpen(pos, n.Minus(pos), settings)
  {
    NeighborsCharacterized(pos, Some(settings), n);
  }

  // ---- search state ----

  /** Record `p` is consistent: its estimate, and for non-start records a closed parent one step back. */
  ghost predicate RecordLinked(start: Pos, goal: Pos, settings: Option<PathfindingSettings>,
                         records: map<Pos, NodeRecord>, closed: set<Pos>, p: Pos)
    reads gridMap.grid
    requires gridMap.Shape()
  {
    p in records ==>
      records[p].hCost == Heuristic(p, goal) &&
      (p == start <==> records[p].parent.Null?) &&
      (p != start ==>
         var q := records[p].parent.value;
         q in closed && q in records && p in GetNeighbors(q, settings) &&
         records[p].gCost == records[q].gCost + 1)
  }

  /** Every record is linked, the start record has cost 0, and every closed cell has a record. */
  ghost predicate Linked(start: Pos, goal: Pos, settings: Option<PathfindingSettings>,
                   records: map<Pos, NodeRecord>, closed: set<Pos>)
    reads gridMap.grid
    requires gridMap.Shape()
  {
    start in records && records[start].gCost == 0 && closed <= records.Keys &&
    forall p :: RecordLinked(start, goal, settings, records, closed, p)
  }

  /** Each open entry is the current key of an unclosed record. */
  ghost predicate OpenEntry(hash: Pos -> int, records: map<Pos, NodeRecord>, open: map<Key, Pos>,
                      closed: set<Pos>, k: Key)
  {
    k in open ==> open[k] in records && open[k] !in closed && k == KeyOf(open[k], records[open[k]], hash)
  }

  ghost predicate OpenSound(hash: Pos -> int, records: map<Pos, NodeRecord>, open: map<Key, Pos>, closed: set<Pos>)
  {
    forall k :: OpenEntry(hash, records, open, closed, k)
  }

  /** Every unclosed record has its current key in the open set: no record was dropped. */
  ghost predicate OpenComplete(hash: Pos -> int, records: map<Pos, NodeRecord>, open: map<Key, Pos>, closed: set<Pos>)
  {
    forall p | p in records && p !in closed :: KeyOf(p, records[p], hash) in open
  }

  /** Every neighbour of a closed cell has a record. */
  ghost predicate Expanded(settings: Option<PathfindingSettings>, records: map<Pos, NodeRecord>, closed: set<Pos>)
    reads gridMap.grid
    requires gridMap.Shape()
  {
    forall c, n | c in closed && n in GetNeighbors(c, settings) :: n in records
  }

  /** A walk of one or more cells in which each cell is a neighbour of the one before. */
  ghost predicate NeighborWalk(w: seq<Pos>, settings: Option<PathfindingSettings>)
    reads gridMap.grid
    requires gridMap.Shape()
  {
    |w| > 0 && forall i | 1 <= i < |w| :: w[i] in GetNeighbors(w[i - 1], settings)
  }

  /** Some walk through neighbours leads from `start` to `goal`. */
  ghost predicate Connected(start: Pos, goal: Pos, settings: Option<PathfindingSettings>)
    reads gridMap.grid
    requires gridMap.Shape()
  {
    exists w {:trigger NeighborWalk(w, settings)} :: NeighborWalk(w, settings) && w[0] == start && w[|w| - 1] == goal
  }

  /** SortedSet.Min: the least key under NodeRecordComparer. */
  static method PickMin(open: map<Key, Pos>) returns (k: Key)
    requires open != map[]
    ensures k in open
    ensures forall j | j in open :: !KeyLess(j, k)
  {
    var rest := open.Keys;
    k :| k in rest;
    rest := rest - {k};
    while rest != {}
      invariant k in open && rest <= open.Keys
      invariant forall j | j in open && j !in rest :: !KeyLess(j, k)
      decreases |rest|
    {
      var j :| j in rest;
      if KeyLess(j, k) {
        k := j;
      }
      rest := rest - {j};
    }
  }

  /**
   * The inner loop of FindPath: relax every neighbour of the just-closed cell
   * `current`. A closed cell is skipped, so its record is never changed and it is
   * never put back in the open set.
   */
  method ExpandNeighbors(start: Pos, goal: Pos, settings: Option<PathfindingSettings>, hash: Pos -> int,
                         current: Pos, records: map<Pos, NodeRecord>, open: map<Key, Pos>, closed: set<Pos>)
    returns (records': map<Pos, NodeRecord>, open': map<Key, Pos>)
    requires gridMap.Shape()
    requires current in closed && start in closed
    requires Linked(start, goal, settings, records, closed)
    requires OpenSound(hash, records, open, closed)
    ensures Linked(start, goal, settings, records', closed)
    ensures OpenSound(hash, records', open', closed)
    ensures records.Keys <= records'.Keys
    ensures forall p | p in records' && p !in records :: gridMap.CheckBoundry(p) && p in gridMap.Cells()
    ensures forall p | p in closed :: records'[p] == records[p]
    ensures forall n | n in GetNeighbors(current, settings) :: n in records'
    ensures Injective(hash) && OpenComplete(hash, records, open, closed) ==> OpenComplete(hash, records', open', closed)
  {
    records', open' := records, open;
    ghost var complete := Injective(hash) && OpenComplete(hash, records, open, closed);
    var neighbors := GetNeighbors(current, settings);
    var j := 0;
    while j < |neighbors|
      invariant 0 <= j <= |neighbors|
      invariant Linked(start, goal, settings, records', closed)
      invariant OpenSound(hash, records', open', closed)
      invariant records.Keys <= records'.Keys
      invariant forall p | p in records' && p !in records :: gridMap.CheckBoundry(p) && p in gridMap.Cells()
      invariant forall p | p in closed :: records'[p] == records[p]
      invariant forall n | n in neighbors[..j] :: n in records'
      invariant complete ==> OpenComplete(hash, records', open', closed)
    {
      assert neighbors[..j + 1] == neighbors[..j] + [neighbors[j]];
      records', open' := Relax(start, goal, settings, hash, current, neighbors[j], records', open', closed);
      j := j + 1;
    }
  }

  /**
   * One step of the inner loop: a neighbour that is out of bounds, unwalkable or closed
   * is skipped; one without a record gets a record through `current`; one whose record
   * costs more than the step through `current` is re-keyed with the cheaper cost. After
   * the step an unclosed neighbour costs no more than one step past `current`.
   */
  method Relax(start: Pos, goal: Pos, settings: Option<PathfindingSettings>, hash: Pos -> int,
               current: Pos, neighbor: Pos, records: map<Pos, NodeRecord>, open: map<Key, Pos>, closed: set<Pos>)
    returns (records': map<Pos, NodeRecord>, open': map<Key, Pos>)
    requires gridMap.Shape()
    requires current in closed && start in closed && neighbor in GetNeighbors(current, settings)
    requires Linked(start, goal, settings, records, closed)
    requires OpenSound(hash, records, open, closed)
    ensures Linked(start, goal, settings, records', closed)
    ensures OpenSound(hash, records', open', closed)
    ensures records.Keys <= records'.Keys && neighbor in records'
    ensures forall p | p in records' && p !in records :: gridMap.CheckBoundry(p) && p in gridMap.Cells()
    ensures forall p | p in closed :: records'[p] == records[p]
    ensures neighbor !in closed ==> records'[neighbor].gCost <= records[current].gCost + 1
    ensures neighbor in records && records[neighbor].gCost <= records[current].gCost + 1 ==>
              records' == records && open' == open
    ensures Injective(hash) && OpenComplete(hash, records, open, closed) ==> OpenComplete(hash, records', open', closed)
  {
    records', open' := records, open;
    if !gridMap.CheckBoundry(neighbor) || !gridMap.CheckWalkable(neighbor) || neighbor in closed {
      return;
    }
    var tentativeG := records[current].gCost + 1;
    if neighbor !in records {
      gridMap.CellsContain(neighbor);
      var rec := NodeRecord(tentativeG, Heuristic(neighbor, goal), Some(current));
      LinkedAfterSet(start, goal, settings, records, closed, current, neighbor, rec);
      OpenAfterSet(hash, records, open, closed, neighbor, rec);
      if Injective(hash) && OpenComplete(hash, records, open, closed) {
        CompleteAfterSet(hash, records, open, closed, neighbor, rec);
      }
      records' := records[neighbor := rec];
      open' := SortedAdd(open, KeyOf(neighbor, rec, hash), neighbor);
    } else if tentativeG < records[neighbor].gCost {
      assert RecordLinked(start, goal, settings, records, closed, neighbor);
      var rec := records[neighbor].(gCost := tentativeG, parent := Some(current));
      var oldKey := KeyOf(neighbor, records[neighbor], hash);
      OpenAfterRemove(hash, records, open, closed, oldKey);
      LinkedAfterSet(start, goal, settings, records, closed, current, neighbor, rec);
      OpenAfterSet(hash, records, open - {oldKey}, closed, neighbor, rec);
      if Injective(hash) && OpenComplete(hash, records, open, closed) {
        CompleteAfterRemove(hash, records, open, closed, neighbor);
        CompleteAfterSet(hash, records, open - {oldKey}, closed, neighbor, rec);
      }
      records' := records[neighbor := rec];
      open' := SortedAdd(open - {oldKey}, KeyOf(neighbor, rec, hash), neighbor);
    }
  }

  /** Linking an unclosed neighbour of a closed record keeps every record linked. */
  lemma LinkedAfterSet(start: Pos, goal: Pos, settings: Option<PathfindingSettings>,
                       records: map<Pos, NodeRecord>, closed: set<Pos>, current: Pos, n: Pos, rec: NodeRecord)
    requires gridMap.Shape()
    requires Linked(start, goal, settings, records, closed)
    requires current in closed && start in closed && n !in closed
    requires n in GetNeighbors(current, settings)
    requires rec == NodeRecord(records[current].gCost + 1, Heuristic(n, goal), Some(current))
    ensures Linked(start, goal, settings, records[n := rec], closed)
  {
    var records' := records[n := rec];
    forall p
      ensures RecordLinked(start, goal, settings, records', closed, p)
    {
      if p != n {
        assert RecordLinked(start, goal, settings, records, closed, p);
      }
    }
  }

  /** Entries for other cells keep their keys when `n`'s record changes and `n` has no entry. */
  lemma OpenAfterSet(hash: Pos -> int, records: map<Pos, NodeRecord>, open: map<Key, Pos>,
                     closed: set<Pos>, n: Pos, rec: NodeRecord)
    requires OpenSound(hash, records, open, closed)
    requires n !in closed
    requires n in records ==> KeyOf(n, records[n], hash) !in open
    ensures OpenSound(hash, records[n := rec], SortedAdd(open, KeyOf(n, rec, hash), n), closed)
  {
    var records', open' := records[n := rec], SortedAdd(open, KeyOf(n, rec, hash), n);
    forall k
      ensures OpenEntry(hash, records', open', closed, k)
    {
      if k in open {
        assert OpenEntry(hash, records, open, closed, k);
      }
    }
  }

  /**
   * With an injective tie-break, a key for `n` collides with no entry of another cell, so
   * SortedSet.Add keeps the new entry and every unclosed record still has its key.
   */
  lemma CompleteAfterSet(hash: Pos -> int, records: map<Pos, NodeRecord>, open: map<Key, Pos>,
                         closed: set<Pos>, n: Pos, rec: NodeRecord)
    requires Injective(hash) && OpenSound(hash, records, open, closed)
    requires forall p | p in records && p !in closed && p != n :: KeyOf(p, records[p], hash) in open
    requires n in records ==> KeyOf(n, records[n], hash) !in open
    ensures OpenComplete(hash, records[n := rec], SortedAdd(open, KeyOf(n, rec, hash), n), closed)
  {
    var k := KeyOf(n, rec, hash);
    forall j | j in open
      ensures j != k
    {
      assert OpenEntry(hash, records, open, closed, j);
    }
  }

  /** With an injective tie-break, removing `n`'s key removes no other cell's key. */
  lemma CompleteAfterRemove(hash: Pos -> int, records: map<Pos, NodeRecord>, open: map<Key, Pos>,
                            closed: set<Pos>, n: Pos)
    requires Injective(hash) && OpenComplete(hash, records, open, closed)
    requires n in records
    ensures forall p | p in records && p !in closed && p != n ::
              KeyOf(p, records[p], hash) in open - {KeyOf(n, records[n], hash)}
  {
    forall p | p in records && p !in closed && p != n
      ensures KeyOf(p, records[p], hash) in open - {KeyOf(n, records[n], hash)}
    {
      assert hash(p) != hash(n);
    }
  }

  /** The record of the i-th cell of a parent chain has the next cell as its parent. */
  static predicate ParentLink(records: map<Pos, NodeRecord>, chain: seq<Pos>, i: int)
    requires 0 <= i < |chain| - 1
  {
    chain[i] in records && records[chain[i]].parent == Some(chain[i + 1])
  }

  /** SortedSet.Remove keeps the remaining entries sound. */
  lemma OpenAfterRemove(hash: Pos -> int, records: map<Pos, NodeRecord>, open: map<Key, Pos>,
                        closed: set<Pos>, k: Key)
    requires OpenSound(hash, records, open, closed)
    ensures OpenSound(hash, records, open - {k}, closed)
  {
    forall j
      ensures OpenEntry(hash, records, open - {k}, closed, j)
    {
      assert OpenEntry(hash, records, open, closed, j);
    }
  }

  /**
   * Walks parent links from `end` back to the start record, then reverses. Record
   * costs count the steps from the start, so the i-th cell of the path has cost i.
   */
  method RetracePath(start: Pos, goal: Pos, settings: Option<PathfindingSettings>,
                     records: map<Pos, NodeRecord>, closed: set<Pos>, end: Pos)
    returns (path: seq<Pos>)
    requires gridMap.Shape()
    requires Linked(start, goal, settings, records, closed) && end in records
    ensures |path| == records[end].gCost + 1
    ensures path[0] == start && path[|path| - 1] == end
    ensures forall i | 0 <= i < |path| :: path[i] in records && records[path[i]].gCost == i
    ensures forall i | 1 <= i < |path| :: path[i] in GetNeighbors(path[i - 1], settings)
    ensures forall i, j | 0 <= i < j < |path| :: path[i] != path[j]
  {
    var back: seq<Pos> := [];
    var current: Option<Pos> := Some(end);
    while current.Some?
      invariant forall i | 0 <= i < |back| :: back[i] in records && records[back[i]].gCost + i == records[end].gCost
      invariant forall i | 0 <= i < |back| - 1 :: ParentLink(records, back, i)
      invariant |back| == 0 ==> current == Some(end)
      invariant |back| > 0 ==> back[0] == end && records[back[|back| - 1]].parent == current
      invariant current.Some? ==> current.value in records &&
                                  records[current.value].gCost + |back| == records[end].gCost
      decreases if current.Some? then records[current.value].gCost + 1 else 0
    {
      var c := current.value;
      assert RecordLinked(start, goal, settings, records, closed, c);
      var extended := back + [c];
      forall i | 0 <= i < |extended| - 1
        ensures ParentLink(records, extended, i)
      {
        if i < |back| - 1 {
          assert ParentLink(records, back, i);
        }
      }
      back := extended;
      current := records[c].parent;
    }
    path := Reversed(back);
    RetracedChain(start, goal, settings, records, closed, end, back);
  }

  /**
   * A chain of parent links from `end` back to a record without a parent, reversed, runs from
   * the start to `end` through neighbours, one step of cost per cell and without repeats.
   */
  lemma RetracedChain(start: Pos, goal: Pos, settings: Option<PathfindingSettings>,
                      records: map<Pos, NodeRecord>, closed: set<Pos>, end: Pos, back: seq<Pos>)
    requires gridMap.Shape()
    requires Linked(start, goal, settings, records, closed) && end in records
    requires forall i | 0 <= i < |back| :: back[i] in records && records[back[i]].gCost + i == records[end].gCost
    requires |back| > 0 && back[0] == end && records[back[|back| - 1]].parent.Null?
    requires forall i | 0 <= i < |back| - 1 :: ParentLink(records, back, i)
    ensures var path := Reversed(back);
            |path| == records[end].gCost + 1 && path[0] == start && path[|path| - 1] == end &&
            (forall i | 0 <= i < |path| :: path[i] in records && records[path[i]].gCost == i) &&
            (forall i | 1 <= i < |path| :: path[i] in GetNeighbors(path[i - 1], settings)) &&
            (forall i, j | 0 <= i < j < |path| :: path[i] != path[j])
  {
    var last := back[|back| - 1];
    assert RecordLinked(start, goal, settings, records, closed, last);
    var path := Reversed(back);
    RetracedSteps(start, goal, settings, records, closed, back);
    forall i, j | 0 <= i < j < |path|
      ensures path[i] != path[j]
    {
      assert records[path[i]].gCost == i;
    }
  }

  /** Each parent link of a retraced chain joins two neighbours, so the reversed chain walks through neighbours. */
  lemma RetracedSteps(start: Pos, goal: Pos, settings: Option<PathfindingSettings>,
                      records: map<Pos, NodeRecord>, closed: set<Pos>, back: seq<Pos>)
    requires gridMap.Shape()
    requires Linked(start, goal, settings, records, closed)
    requires forall i | 0 <= i < |back| :: back[i] in records
    requires forall i | 0 <= i < |back| - 1 :: ParentLink(records, back, i)
    ensures var path := Reversed(back);
            forall i | 1 <= i < |path| :: path[i] in GetNeighbors(path[i - 1], settings)
  {
    var path := Reversed(back);
    forall i | 1 <= i < |path|
      ensures path[i] in GetNeighbors(path[i - 1], settings)
    {
      var b := |back| - 1 - i;
      assert ParentLink(records, back, b);
      assert path[i] == back[b] && path[i - 1] == back[b + 1];
      assert RecordLinked(start, goal, settings, records, closed, back[b]);
    }
  }

  /**
   * Best-first search from `start` to `goal`. A found path starts at `start`, ends at
   * `goal`, moves between neighbours (so every later cell is in bounds and walkable)
   * and visits no cell twice; a search from a cell to itself gives that one cell.
   * Null is returned when the open set runs dry. `hash` stands for Vector2Int's hash
   * code, which breaks ties between equal f-costs. A path is found only when a walk
   * through neighbours leads to the goal; when no two cells share a hash no record is
   * dropped, and a path is found whenever such a walk exists.
   */
  method FindPath(start: Pos, goal: Pos, settings: Option<PathfindingSettings>, hash: Pos -> int)
    returns (path: Option<seq<Pos>>)
    requires gridMap.Shape()
    ensures path.Some? ==> |path.value| > 0 && path.value[0] == start && path.value[|path.value| - 1] == goal
    ensures path.Some? ==> forall i | 1 <= i < |path.value| :: path.value[i] in GetNeighbors(path.value[i - 1], settings)
    ensures path.Some? ==> forall i, j | 0 <= i < j < |path.value| :: path.value[i] != path.value[j]
    ensures start == goal ==> path == Some([start])
    ensures path.Some? ==> Connected(start, goal, settings)
    ensures Injective(hash) ==> (path.Some? <==> Connected(start, goal, settings))
  {
    var startRecord := NodeRecord(0, Heuristic(start, goal), Null);
    var open: map<Key, Pos> := map[KeyOf(start, startRecord, hash) := start];
    var records: map<Pos, NodeRecord> := map[start := startRecord];
    var closed: set<Pos> := {};
    ghost var universe := gridMap.Cells() + {start};
    assert RecordLinked(start, goal, settings, records, closed, start);
    assert KeyOf(start, startRecord, hash) in open;

    while open != map[]
      invariant Searching(start, goal, settings, hash, records, open, closed, universe)
      invariant closed == {} ==> open == map[KeyOf(start, startRecord, hash) := start]
      invariant start == goal ==> closed == {} && open != map[]
      decreases |universe - closed|
    {
      var minKey := PickMin(open);
      assert OpenEntry(hash, records, open, closed, minKey);
      var current := open[minKey];
      if current == goal {
        LinkedAfterClose(start, goal, settings, records, closed, current);
        open := open - {minKey};
        closed := closed + {current};
        var p := RetracePath(start, goal, settings, records, closed, current);
        path := Some(p);
        assert NeighborWalk(p, settings);
        if start == goal {
          assert p == [start];
        }
        return;
      }
      records, open, closed := SearchRound(start, goal, settings, hash, minKey, records, open, closed, universe);
    }
    path := Null;
    if Injective(hash) {
      Exhausted(start, goal, settings, hash, records, closed);
    }
  }

  /**
   * FindPath's loop invariant: records are linked and the open set sound, the start is
   * closed once anything is, records stay on the grid or at the start, and the search
   * is covered.
   */
  ghost predicate Searching(start: Pos, goal: Pos, settings: Option<PathfindingSettings>, hash: Pos -> int,
                            records: map<Pos, NodeRecord>, open: map<Key, Pos>, closed: set<Pos>, universe: set<Pos>)
    reads gridMap.grid
    requires gridMap.Shape()
  {
    Linked(start, goal, settings, records, closed) && OpenSound(hash, records, open, closed) &&
    (closed == {} || start in closed) && records.Keys <= universe &&
    Covered(goal, settings, hash, records, open, closed)
  }

  /**
   * One round of FindPath that does not reach the goal: the least entry is removed, its
   * cell closed, and its neighbours relaxed. The search stays covered, and one more cell
   * of the universe is closed.
   */
  method SearchRound(start: Pos, goal: Pos, settings: Option<PathfindingSettings>, hash: Pos -> int, minKey: Key,
                     records: map<Pos, NodeRecord>, open: map<Key, Pos>, closed: set<Pos>, ghost universe: set<Pos>)
    returns (records': map<Pos, NodeRecord>, open': map<Key, Pos>, closed': set<Pos>)
    requires gridMap.Shape() && universe == gridMap.Cells() + {start}
    requires Searching(start, goal, settings, hash, records, open, closed, universe)
    requires minKey in open && open[minKey] != goal && (closed == {} ==> open[minKey] == start)
    ensures Searching(start, goal, settings, hash, records', open', closed', universe)
    ensures closed' == closed + {open[minKey]} && closed' != {}
    ensures |universe - closed'| < |universe - closed|
  {
    assert OpenEntry(hash, records, open, closed, minKey);
    var current := open[minKey];
    OpenAfterClose(hash, records, open, closed, minKey);
    LinkedAfterClose(start, goal, settings, records, closed, current);
    open' := open - {minKey};
    closed' := closed + {current};
    assert current in universe - closed;
    assert universe - closed' < universe - closed;
    records', open' := ExpandNeighbors(start, goal, settings, hash, current, records, open', closed');
    CoveredAfterStep(goal, settings, hash, records, open, closed, minKey, records', open');
  }

  /**
   * The goal is not closed, every closed cell is expanded and, under an injective
   * tie-break, no unclosed record has lost its open entry.
   */
  ghost predicate Covered(goal: Pos, settings: Option<PathfindingSettings>, hash: Pos -> int,
                          records: map<Pos, NodeRecord>, open: map<Key, Pos>, closed: set<Pos>)
    reads gridMap.grid
    requires gridMap.Shape()
  {
    goal !in closed && Expanded(settings, records, closed) &&
    (Injective(hash) ==> OpenComplete(hash, records, open, closed))
  }

  /** One round of FindPath that closes a cell other than the goal and expands it keeps the search covered. */
  lemma CoveredAfterStep(goal: Pos, settings: Option<PathfindingSettings>, hash: Pos -> int,
                         records: map<Pos, NodeRecord>, open: map<Key, Pos>, closed: set<Pos>, minKey: Key,
                         records': map<Pos, NodeRecord>, open': map<Key, Pos>)
    requires gridMap.Shape()
    requires Covered(goal, settings, hash, records, open, closed) && OpenSound(hash, records, open, closed)
    requires minKey in open && open[minKey] != goal && records.Keys <= records'.Keys
    requires forall n | n in GetNeighbors(open[minKey], settings) :: n in records'
    requires Injective(hash) && OpenComplete(hash, records, open - {minKey}, closed + {open[minKey]}) ==>
               OpenComplete(hash, records', open', closed + {open[minKey]})
    ensures Covered(goal, settings, hash, records', open', closed + {open[minKey]})
  {
    if Injective(hash) {
      CompleteAfterClose(hash, records, open, closed, minKey);
    }
  }

  /** Closing the least entry's cell keeps every other unclosed record's key, under an injective tie-break. */
  lemma CompleteAfterClose(hash: Pos -> int, records: map<Pos, NodeRecord>, open: map<Key, Pos>,
                           closed: set<Pos>, minKey: Key)
    requires Injective(hash) && OpenSound(hash, records, open, closed) && OpenComplete(hash, records, open, closed)
    requires minKey in open
    ensures OpenComplete(hash, records, open - {minKey}, closed + {open[minKey]})
  {
    var current := open[minKey];
    assert OpenEntry(hash, records, open, closed, minKey);
    forall p | p in records && p !in closed + {current}
      ensures KeyOf(p, records[p], hash) in open - {minKey}
    {
      assert hash(p) != hash(current);
    }
  }

  /**
   * When every record is closed and every closed cell is expanded, a walk from a
   * closed cell never leaves the closed set.
   */
  lemma {:induction false} WalkStaysClosed(settings: Option<PathfindingSettings>, records: map<Pos, NodeRecord>,
                                           closed: set<Pos>, w: seq<Pos>, i: nat)
    requires gridMap.Shape()
    requires Expanded(settings, records, closed) && records.Keys <= closed
    requires NeighborWalk(w, settings) && w[0] in closed && i < |w|
    ensures w[i] in closed
  {
    if i > 0 {
      WalkStaysClosed(settings, records, closed, w, i - 1);
      assert w[i] in GetNeighbors(w[i - 1], settings);
    }
  }

  /**
   * A covered search whose open set ran dry under an injective tie-break has closed
   * every record; with the start closed, no walk leads from it to the goal.
   */
  lemma Exhausted(start: Pos, goal: Pos, settings: Option<PathfindingSettings>, hash: Pos -> int,
                  records: map<Pos, NodeRecord>, closed: set<Pos>)
    requires gridMap.Shape()
    requires Injective(hash) && Covered(goal, settings, hash, records, map[], closed)
    requires start in closed
    ensures !Connected(start, goal, settings)
  {
    forall w | NeighborWalk(w, settings) && w[0] == start
      ensures w[|w| - 1] != goal
    {
      WalkStaysClosed(settings, records, closed, w, |w| - 1);
    }
  }

  /** Closing the cell of the least entry removes its only entry, so no entry points at a closed cell. */
  lemma OpenAfterClose(hash: Pos -> int, records: map<Pos, NodeRecord>, open: map<Key, Pos>,
                       closed: set<Pos>, minKey: Key)
    requires OpenSound(hash, records, open, closed) && minKey in open
    ensures OpenSound(hash, records, open - {minKey}, closed + {open[minKey]})
  {
    var current := open[minKey];
    assert OpenEntry(hash, records, open, closed, minKey);
    forall k
      ensures OpenEntry(hash, records, open - {minKey}, closed + {current}, k)
    {
      assert OpenEntry(hash, records, open, closed, k);
    }
  }

  /** Closing a cell with a record keeps every record linked. */
  lemma LinkedAfterClose(start: Pos, goal: Pos, settings: Option<PathfindingSettings>,
                         records: map<Pos, NodeRecord>, closed: set<Pos>, current: Pos)
    requires gridMap.Shape()
    requires Linked(start, goal, settings, records, closed) && current in records
    ensures Linked(start, goal, settings, records, closed + {current})
  {
    forall p
      ensures RecordLinked(start, goal, settings, records, closed + {current}, p)
    {
      assert RecordLinked(start, goal, settings, records, closed, p);
    }
  }
}
