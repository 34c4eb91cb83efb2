// A combat unit: its stats, its cell on the grid, taking damage, and the registry of enabled units.

datatype Team = Player | Enemy

/** The index of the first occurrence of `x` in `s`. */
function IndexOf<T(==)>(s: seq<T>, x: T): (i: nat)
  requires x in s
  ensures i < |s| && s[i] == x && x !in s[..i]
{
  if s[0] == x then 0
  else
    var j := IndexOf(s[1..], x);
    assert s[..j + 1] == [s[0]] + s[1..][..j];
    1 + j
}

/** `List.Remove`: drops the first occurrence of `x`, if any. */
function RemoveFirst<T(==)>(s: seq<T>, x: T): seq<T>
{
  if |s| == 0 then [] else if s[0] == x then s[1..] else [s[0]] + RemoveFirst(s[1..], x)
}

lemma {:induction false} RemoveFirstAbsent<T>(s: seq<T>, x: T)
  requires x !in s
  ensures RemoveFirst(s, x) == s
{
  if |s| > 0 {
    assert s[0] != x && x !in s[1..];
    RemoveFirstAbsent(s[1..], x);
  }
}

lemma {:induction false} RemoveFirstPresent<T>(s: seq<T>, x: T)
  requires x in s
  ensures RemoveFirst(s, x) == s[..IndexOf(s, x)] + s[IndexOf(s, x) + 1..]
{
  if s[0] != x {
    var t := s[1..];
    var j := IndexOf(t, x);
    assert IndexOf(s, x) == j + 1;
    RemoveFirstPresent(t, x);
    calc {
      RemoveFirst(s, x);
      [s[0]] + RemoveFirst(t, x);
      [s[0]] + (t[..j] + t[j + 1..]);
      { ConcatAssoc([s[0]], t[..j], t[j + 1..]); }
      [s[0]] + t[..j] + t[j + 1..];
      { assert [s[0]] + t[..j] == s[..j + 1]; assert t[j + 1..] == s[j + 2..]; }
      s[..j + 1] + s[j + 2..];
    }
  }
}

/** Removing the first occurrence takes exactly one `x` out of the multiset, if there is one. */
lemma {:induction false} RemoveFirstMultiset<T>(s: seq<T>, x: T)
  ensures multiset(RemoveFirst(s, x)) == multiset(s) - multiset{x}
{
  if |s| > 0 {
    assert s == [s[0]] + s[1..];
    if s[0] != x {
      RemoveFirstMultiset(s[1..], x);
      assert multiset(RemoveFirst(s, x)) == multiset{s[0]} + multiset(RemoveFirst(s[1..], x));
    }
  }
}

/** Removing the first occurrence cuts the sequence at that index and nowhere else. */
lemma RemoveFirstCutsAtIndex<T>(s: seq<T>, x: T)
  ensures x !in s ==> RemoveFirst(s, x) == s
  ensures x in s ==> RemoveFirst(s, x) == s[..IndexOf(s, x)] + s[IndexOf(s, x) + 1..]
  ensures multiset(RemoveFirst(s, x)) == multiset(s) - multiset{x}
{
  if x in s {
    RemoveFirstPresent(s, x);
  } else {
    RemoveFirstAbsent(s, x);
  }
  RemoveFirstMultiset(s, x);
}

class Character
{
  const name: string
  /** The game object's name, which the turn-start log line shows. */
  const objectName: string
  const maxMoveSpeed: int
  const maxHP: int
  var HP: int
  const AC: int
  const atkRange: int
  const atkMod: int := 4
  const DMG: int
  const DMGMod: int
  const InitiativeMod: int
  var Initiative: int
  const team: Team
  /** The hit points the health bar last showed. */
  var shownHP: int

  // The unit's GridObject: the grid it stands on and its cell.
  const targetGrid: GridMap
  var positionOnGrid: Pos

  // The other components of the unit's game object.
  const turn: CharacterTurn
  const movement: UnitMovement
  const ai: Option<AIManager>
  /** The subscriber of OnCharacterDeath: the scheduler, whose log DeathSequence also writes to. */
  const turnManager: TurnManager

  // The animator's state as the animation controller drives it.
  var animMoving: bool
  var attackAnimations: nat

  /** Awake, after the inspector values are in place: full health, shown on the health bar. */
  constructor(name: string, objectName: string, maxMoveSpeed: int, maxHP: int, AC: int, atkRange: int,
              DMG: int, DMGMod: int, InitiativeMod: int, team: Team, targetGrid: GridMap,
              turn: CharacterTurn, movement: UnitMovement, ai: Option<AIManager>)
    ensures this.name == name && this.objectName == objectName && this.maxMoveSpeed == maxMoveSpeed
    ensures this.maxHP == maxHP && this.AC == AC && this.atkRange == atkRange && this.DMG == DMG
    ensures this.DMGMod == DMGMod && this.InitiativeMod == InitiativeMod && this.team == team
    ensures this.targetGrid == targetGrid && this.turn == turn && this.movement == movement && this.ai == ai
    ensures this.turnManager == turn.turnManager
    ensures HP == maxHP && shownHP == maxHP && Initiative == 0 && positionOnGrid == Pos(0, 0)
    ensures !animMoving && attackAnimations == 0
  {
    this.name, this.objectName, this.maxMoveSpeed := name, objectName, maxMoveSpeed;
    this.maxHP, this.AC, this.atkRange, this.DMG, this.DMGMod := maxHP, AC, atkRange, DMG, DMGMod;
    this.InitiativeMod, this.team, this.targetGrid := InitiativeMod, team, targetGrid;
    this.turn, this.movement, this.ai, this.turnManager := turn, movement, ai, turn.turnManager;
    HP := maxHP;
    shownHP := maxHP;
    Initiative := 0;
    positionOnGrid := Pos(0, 0);
    animMoving, attackAnimations := false, 0;
  }

  /** IsAlive: the unit is among the living, as the scheduler's filter decides. */
  function IsAlive(): (alive: bool)
    reads this
    ensures alive <==> Living([this]) == [this]
    ensures !alive <==> Living([this]) == []
  {
    HP > 0
  }

  /** The to-hit total for a d20 roll `roll` (1 to 20): always 5 to 24. */
  function RollToHit(roll: int): (total: int)
    requires 1 <= roll <= 20
    ensures 5 <= total <= 24
  {
    roll + atkMod
  }

  /** This unit's roll hits a target exactly when it is at least the target's AC less the attack modifier. */
  lemma RollToHitHits(roll: int, target: Character)
    requires 1 <= roll <= 20
    ensures Hits(RollToHit(roll), target) <==> roll >= target.AC - atkMod
  {
  }

  /** GridObject.Init: the unit takes its cell and is placed there. */
  method PlaceOnGrid(cell: Pos)
    requires targetGrid.Valid()
    modifies this`positionOnGrid, targetGrid.grid
    ensures positionOnGrid == cell && targetGrid.Valid()
    ensures targetGrid.GetPlacedObject(cell) == if targetGrid.CheckBoundry(cell) then Some(this) else Null
    ensures forall x, y | 0 <= x < targetGrid.length && 0 <= y < targetGrid.width && !(x == cell.x && y == cell.y) ::
              targetGrid.grid[x, y] == old(targetGrid.grid[x, y])
  {
    positionOnGrid := cell;
    targetGrid.PlaceObject(positionOnGrid, this);
  }

  /**
   * Lowers HP by exactly `damage`. At zero or below the death event goes to the scheduler and
   * the death line is logged; otherwise only the health bar is refreshed. Nothing stops a dead
   * unit from dying again.
   */
  method TakeDamage(damage: int) returns (died: bool)
    requires turnManager.combatLog.Valid()
    modifies this`HP, this`shownHP, turnManager`playerTeam, turnManager`enemyTeam, turnManager`isEndingTurn,
             turnManager`turnEndRequests, turnManager`state, turnManager.registry,
             turnManager.combatLog`history, turnManager.combatLog`entries
    ensures HP == old(HP) - damage
    ensures died <==> HP <= 0
    ensures turnManager.combatLog.Valid()
    ensures !died ==> shownHP == HP && unchanged(turnManager, turnManager.registry, turnManager.combatLog)
    ensures died ==> shownHP == old(shownHP) && Died(old(turnManager.Snap()), old(turnManager.registry.allUnits))
  {
    HP := HP - damage;
    if HP <= 0 {
      Die();
      return true;
    } else {
      shownHP := HP;
      return false;
    }
  }

  /** The scheduler has handled this unit's death after `before`, and the death line follows. */
  ghost predicate Died(before: Schedule, registered: seq<Character>)
    reads this, turnManager, turnManager.registry, turnManager.combatLog
  {
    turnManager.Snap() == Killed(before, this) && turnManager.registry.allUnits == RemoveFirst(registered, this)
  }

  /** Raises OnCharacterDeath, then starts DeathSequence, whose first step logs the death. */
  method Die()
    requires turnManager.combatLog.Valid()
    modifies turnManager`playerTeam, turnManager`enemyTeam, turnManager`isEndingTurn, turnManager`turnEndRequests,
             turnManager`state, turnManager.registry, turnManager.combatLog`history, turnManager.combatLog`entries
    ensures Died(old(turnManager.Snap()), old(turnManager.registry.allUnits)) && turnManager.combatLog.Valid()
  {
    turnManager.OnCharacterDied(this);
    turnManager.combatLog.LogUnitDeath(name);
  }
}

/**
 * What a death does to the scheduler: OnCharacterDied (the unit leaves its team, its turn
 * ends if it is the current unit, the battle end is checked), then the death line.
 */
function Killed(s: Schedule, unit: Character): (r: Schedule)
  ensures r.log == s.log + BattleEndLines(Bury(s, unit).playerTeam, Bury(s, unit).enemyTeam) + [UnitDeathMessage(unit.name)]
  ensures r.activeUnits == s.activeUnits && r.currentUnit == s.currentUnit
  ensures r.combatRound == s.combatRound && r.currentInitiativeIndex == s.currentInitiativeIndex
  ensures r.isEndingTurn == (s.isEndingTurn || s.currentUnit == Some(unit))
{
  var handled := BattleEnd(Bury(s, unit));
  handled.(log := handled.log + [UnitDeathMessage(unit.name)])
}

/** UnitRegistry.AllUnits: the enabled units, in the order they were enabled. */
class UnitRegistry
{
  var allUnits: seq<Character>

  constructor()
    ensures allUnits == []
  {
    allUnits := [];
  }

  /** OnEnable. */
  method Register(unit: Character)
    modifies this
    ensures allUnits == old(allUnits) + [unit]
  {
    allUnits := allUnits + [unit];
  }

  /** OnDisable: removes the first occurrence. */
  method Deregister(unit: Character)
    modifies this
    ensures allUnits == RemoveFirst(old(allUnits), unit)
  {
    allUnits := RemoveFirst(allUnits, unit);
  }
}
