// Tile highlighting: a pool of marker objects that is reused and grows on demand.

/** One pooled marker: whether it is active, and the cell it was last placed on. */
datatype HighlightPoint = HighlightPoint(active: bool, at: Pos)

/** The markers after highlighting `tiles`: the first |tiles| are active on those tiles, the rest as before. */
function Highlighted(points: seq<HighlightPoint>, tiles: seq<Pos>): (r: seq<HighlightPoint>)
  ensures |r| == if |points| > |tiles| then |points| else |tiles|
  ensures forall i | 0 <= i < |tiles| :: r[i] == HighlightPoint(true, tiles[i])
  ensures forall i | |tiles| <= i < |points| :: r[i] == points[i]
{
  if |tiles| == 0 then points
  else [HighlightPoint(true, tiles[0])] + Highlighted(if |points| > 0 then points[1..] else [], tiles[1..])
}

/** The markers after hiding: all inactive, where they were. */
function Hidden(points: seq<HighlightPoint>): (r: seq<HighlightPoint>)
  ensures |r| == |points|
  ensures forall i | 0 <= i < |points| :: r[i] == points[i].(active := false)
{
  if |points| == 0 then [] else [points[0].(active := false)] + Hidden(points[1..])
}

/** The cells with an active marker. */
function LitTiles(points: seq<HighlightPoint>): set<Pos>
{
  set i | 0 <= i < |points| && points[i].active :: points[i].at
}

/** Highlighting without hiding first leaves a lit marker past the new tiles lit. */
lemma StaleMarkerStaysLit(points: seq<HighlightPoint>, tiles: seq<Pos>, k: int)
  requires |tiles| <= k < |points| && points[k].active
  ensures points[k].at in LitTiles(Highlighted(points, tiles))
{
  assert Highlighted(points, tiles)[k] == points[k];
}

/** Hiding and then highlighting `tiles` lights exactly those tiles. */
lemma {:induction false} HideThenHighlightLightsExactly(points: seq<HighlightPoint>, tiles: seq<Pos>)
  ensures LitTiles(Highlighted(Hidden(points), tiles)) == set i | 0 <= i < |tiles| :: tiles[i]
{
  var r := Highlighted(Hidden(points), tiles);
  forall p | p in LitTiles(r)
    ensures p in set i | 0 <= i < |tiles| :: tiles[i]
  {
    var i :| 0 <= i < |r| && r[i].active && r[i].at == p;
  }
  forall i | 0 <= i < |tiles|
    ensures tiles[i] in LitTiles(r)
  {
    assert r[i] == HighlightPoint(true, tiles[i]);
  }
}

class GridRenderer
{
  /** The pooled markers (`highlightPointGO`), in creation order. */
  var points: seq<HighlightPoint>

  /** Awake: an empty pool. */
  constructor()
    ensures points == []
  {
    points := [];
  }

  function Lit(): set<Pos>
    reads this
  {
    LitTiles(points)
  }

  /**
   * fieldHighlight: marker i is activated on tile i, reusing pooled markers and
   * creating new ones when the pool is too small; later markers are untouched.
   */
  method FieldHighlight(tiles: seq<Pos>)
    modifies this
    ensures points == Highlighted(old(points), tiles)
  {
    var i := 0;
    while i < |tiles|
      invariant 0 <= i <= |tiles|
      invariant points == Highlighted(old(points), tiles[..i])
    {
      if |points| <= i {
        points := points + [HighlightPoint(false, tiles[i])];
      }
      points := points[i := HighlightPoint(true, tiles[i])];
      HighlightStep(old(points), tiles, i);
      i := i + 1;
    }
    assert tiles[..|tiles|] == tiles;
  }

  /** Hide: every pooled marker is deactivated. */
  method Hide()
    modifies this
    ensures points == Hidden(old(points))
    ensures Lit() == {}
  {
    var i := 0;
    while i < |points|
      invariant 0 <= i <= |points| && |points| == |old(points)|
      invariant forall j | 0 <= j < i :: points[j] == old(points)[j].(active := false)
      invariant forall j | i <= j < |points| :: points[j] == old(points)[j]
    {
      points := points[i := points[i].(active := false)];
      i := i + 1;
    }
  }
}

/** Highlighting one more tile extends the previous highlighting by one marker. */
lemma HighlightStep(points: seq<HighlightPoint>, tiles: seq<Pos>, i: nat)
  requires i < |tiles|
  ensures var before := Highlighted(points, tiles[..i]);
          var grown := if |before| <= i then before + [HighlightPoint(false, tiles[i])] else before;
          grown[i := HighlightPoint(true, tiles[i])] == Highlighted(points, tiles[..i + 1])
{
  var before := Highlighted(points, tiles[..i]);
  var grown := if |before| <= i then before + [HighlightPoint(false, tiles[i])] else before;
  var after := Highlighted(points, tiles[..i + 1]);
  assert |grown[i := HighlightPoint(true, tiles[i])]| == |after|;
  forall j | 0 <= j < |after|
    ensures grown[i := HighlightPoint(true, tiles[i])][j] == after[j]
  {
    if j < i {
      assert tiles[..i][j] == tiles[j] == tiles[..i + 1][j];
    } else if j > i {
      assert after[j] == points[j];
    }
  }
}

/** ClearUtility: the attack and the movement highlights. */
class ClearUtility
{
  const attackHighlight: GridRenderer
  const moveHighlight: GridRenderer

  constructor(attackHighlight: GridRenderer, moveHighlight: GridRenderer)
    ensures this.attackHighlight == attackHighlight && this.moveHighlight == moveHighlight
  {
    this.attackHighlight := attackHighlight;
    this.moveHighlight := moveHighlight;
  }

  method ClearGridHighlightAttack()
    modifies attackHighlight
    ensures attackHighlight.points == Hidden(old(attackHighlight.points)) && attackHighlight.Lit() == {}
  {
    attackHighlight.Hide();
  }

  method ClearGridHighlightMove()
    modifies moveHighlight
    ensures moveHighlight.points == Hidden(old(moveHighlight.points)) && moveHighlight.Lit() == {}
  {
    moveHighlight.Hide();
  }

  /** FullClear: hide the movement highlight, then the attack highlight. */
  method FullClear()
    modifies moveHighlight, attackHighlight
    ensures moveHighlight.Lit() == {} && attackHighlight.Lit() == {}
    ensures attackHighlight.points == Hidden(old(attackHighlight.points))
    ensures moveHighlight != attackHighlight ==> moveHighlight.points == Hidden(old(moveHighlight.points))
  {
    ClearGridHighlightMove();
    ClearGridHighlightAttack();
  }
}
