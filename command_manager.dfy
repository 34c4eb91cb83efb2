// CommandManager: the one pending command, and its execution as a move or an attack.

datatype CommandType = Default | MoveTo | Attack

/** A command: who acts, on which cell, of which kind; a move carries its path, an attack its target. */
datatype Command = Command(character: Character, selectedGrid: Pos, kind: CommandType,
                           path: Option<seq<Pos>>, target: Option<Character>)

/** The momentum both a move and an attack cost. */
const ActionCost: int := 2

/** Whether a move command may go ahead: momentum for it, a unit standing still and a path with a tile. */
predicate MoveAllowed(l: Ledger, moving: bool, path: Option<seq<Pos>>)
{
  CanSpend(l, ActionCost) && !moving && path.Some? && |path.value| > 0
}

/** The scheduler once a spend of momentum has (or has not) asked for the turn to end. */
function AfterSpend(s: Schedule, l: Ledger): (r: Schedule)
  ensures r.isEndingTurn <==> s.isEndingTurn || Spend(l, ActionCost).endsTurn
  ensures r.(isEndingTurn := s.isEndingTurn) == s
{
  s.(isEndingTurn := s.isEndingTurn || Spend(l, ActionCost).endsTurn)
}

/** A failed spend leaves the scheduler as it was. */
lemma RefusedSpendKeepsSchedule(s: Schedule, l: Ledger)
  requires !CanSpend(l, ActionCost)
  ensures AfterSpend(s, l) == s
{
}

class CommandManager
{
  var currentCommand: Option<Command>
  const clearUtility: ClearUtility

  constructor(clearUtility: ClearUtility)
    ensures this.clearUtility == clearUtility && currentCommand == Null
  {
    this.clearUtility := clearUtility;
    currentCommand := Null;
  }

  /** AddMoveCommand: a fresh move command replaces whatever was pending. */
  method AddMoveCommand(character: Character, selectedGrid: Pos, path: Option<seq<Pos>>)
    modifies this`currentCommand
    ensures currentCommand == Some(Command(character, selectedGrid, MoveTo, path, Null))
  {
    currentCommand := Some(Command(character, selectedGrid, MoveTo, Null, Null));
    currentCommand := Some(currentCommand.value.(path := path));
  }

  /** AddAttackCommand: a fresh attack command; with no target its target stays null. */
  method AddAttackCommand(attacker: Character, selectGrid: Pos, target: Option<Character>)
    modifies this`currentCommand
    ensures currentCommand == Some(Command(attacker, selectGrid, Attack, Null, target))
  {
    currentCommand := Some(Command(attacker, selectGrid, Attack, Null, Null));
    if target.Null? {
      return;
    }
    currentCommand := Some(currentCommand.value.(target := target));
  }

  /**
   * ExecuteCommand: a move command is carried out as ExecuteMoveCommand does it and an attack
   * command as ExecuteAttackCommand does it; a `Default` command does nothing at all.
   */
  method ExecuteCommand(toHitRoll: int, damageRoll: int)
    requires currentCommand.Some?
    requires var c := currentCommand.value.character;
             currentCommand.value.kind == MoveTo ==>
               c.targetGrid.Valid() &&
               (currentCommand.value.path.Some? ==> PathOnGrid(c.targetGrid, currentCommand.value.path.value))
    requires var c := currentCommand.value.character;
             currentCommand.value.kind == Attack ==>
               c.turn.turnManager == c.turnManager && c.turnManager.combatLog.Valid() &&
               (CanSpend(c.turn.Counters(), ActionCost) ==>
                  currentCommand.value.target.Some? && currentCommand.value.target.value.turnManager == c.turnManager &&
                  1 <= toHitRoll <= 20 && DamageRoll(c.DMG, damageRoll))
    modifies this`currentCommand,
             clearUtility.moveHighlight,
             clearUtility.attackHighlight,
             (if currentCommand.value.kind != Default then {currentCommand.value.character.turn} else {})`momentum,
             (if currentCommand.value.kind == Attack && currentCommand.value.target.Some? then {currentCommand.value.target.value} else {})`HP,
             (if currentCommand.value.kind == Attack && currentCommand.value.target.Some? then {currentCommand.value.target.value} else {})`shownHP,
             (if currentCommand.value.kind == Attack then {currentCommand.value.character} else {})`attackAnimations,
             (if currentCommand.value.kind == Attack then {currentCommand.value.character.turnManager} else {})`playerTeam,
             (if currentCommand.value.kind == Attack then {currentCommand.value.character.turnManager} else {})`enemyTeam,
             (if currentCommand.value.kind == Attack then {currentCommand.value.character.turnManager} else {})`isEndingTurn,
             (if currentCommand.value.kind == Attack then {currentCommand.value.character.turnManager} else {})`turnEndRequests,
             (if currentCommand.value.kind == Attack then {currentCommand.value.character.turnManager} else {})`state,
             (if currentCommand.value.kind == Attack then {currentCommand.value.character.turnManager.registry} else {}),
             (if currentCommand.value.kind == Attack then {currentCommand.value.character.turnManager.combatLog} else {})`history,
             (if currentCommand.value.kind == Attack then {currentCommand.value.character.turnManager.combatLog} else {})`entries,
             (if currentCommand.value.kind == MoveTo then {currentCommand.value.character.turn.turnManager} else {})`isEndingTurn,
             (if currentCommand.value.kind == MoveTo then {currentCommand.value.character.turn.turnManager} else {})`turnEndRequests,
             (if currentCommand.value.kind == MoveTo then {currentCommand.value.character.movement} else {}),
             (if currentCommand.value.kind == MoveTo then {currentCommand.value.character} else {})`positionOnGrid,
             (if currentCommand.value.kind == MoveTo then {currentCommand.value.character} else {})`animMoving,
             (if currentCommand.value.kind == MoveTo then {currentCommand.value.character.targetGrid.grid} else {})
    ensures var c := old(currentCommand.value.character);
            old(currentCommand.value.kind) == Default ==>
              currentCommand == old(currentCommand) &&
              unchanged(clearUtility.moveHighlight, clearUtility.attackHighlight, c, c.turn, c.movement, c.targetGrid.grid) &&
              unchanged(c.turnManager, c.turnManager.registry, c.turnManager.combatLog, c.turn.turnManager) &&
              unchanged(if old(currentCommand.value.target).Some? then {old(currentCommand.value.target).value} else {})
    ensures var c, path := old(currentCommand.value.character), old(currentCommand.value.path);
            old(currentCommand.value.kind) == MoveTo ==>
              (currentCommand == Null <==> MoveAllowed(old(c.turn.Counters()), old(c.movement.isMoving), path)) &&
              (currentCommand != Null ==>
                 currentCommand == old(currentCommand) && c.positionOnGrid == old(c.positionOnGrid) &&
                 c.turn.Counters() == old(c.turn.Counters())) &&
              (currentCommand == Null ==>
                 c.turn.Counters() == Spend(old(c.turn.Counters()), ActionCost).ledger &&
                 c.positionOnGrid == path.value[|path.value| - 1] &&
                 c.targetGrid.GetPlacedObject(c.positionOnGrid) == Some(c))
    ensures var c, t := old(currentCommand.value.character), old(currentCommand.value.target);
            old(currentCommand.value.kind) == Attack ==>
              c.turn.Counters() == Spend(old(c.turn.Counters()), ActionCost).ledger &&
              (currentCommand == Null <==> CanSpend(old(c.turn.Counters()), ActionCost)) &&
              (currentCommand != Null ==> currentCommand == old(currentCommand) && c.turnManager.Snap() == old(c.turnManager.Snap())) &&
              (currentCommand == Null ==>
                 c.turnManager.Snap() ==
                   Struck(AfterSpend(old(c.turnManager.Snap()), old(c.turn.Counters())), c, t.value,
                          c.RollToHit(toHitRoll), HitDamage(c, damageRoll), old(t.value.HP)))
  {
    match currentCommand.value.kind
    case MoveTo =>
      ExecuteMoveCommand();
    case Attack =>
      ExecuteAttackCommand(toHitRoll, damageRoll);
    case Default =>
  }

  /**
   * ExecuteAttackCommand: the attacker pays 2 momentum or nothing happens. Once paid, the
   * highlights are cleared, the to-hit total is rolled and the attack resolved against the
   * target, and the command is used up. `toHitRoll` and `damageRoll` are the two dice.
   */
  method ExecuteAttackCommand(toHitRoll: int, damageRoll: int)
    requires currentCommand.Some?
    requires var c := currentCommand.value.character;
             c.turn.turnManager == c.turnManager && c.turnManager.combatLog.Valid()
    requires var c := currentCommand.value.character;
             CanSpend(c.turn.Counters(), ActionCost) ==>
               currentCommand.value.target.Some? && currentCommand.value.target.value.turnManager == c.turnManager &&
               1 <= toHitRoll <= 20 && DamageRoll(c.DMG, damageRoll)
    modifies this`currentCommand, clearUtility.moveHighlight, clearUtility.attackHighlight,
             currentCommand.value.character.turn`momentum,
             (if currentCommand.value.target.Some? then {currentCommand.value.target.value} else {})`HP,
             (if currentCommand.value.target.Some? then {currentCommand.value.target.value} else {})`shownHP,
             currentCommand.value.character`attackAnimations,
             currentCommand.value.character.turnManager`playerTeam, currentCommand.value.character.turnManager`enemyTeam,
             currentCommand.value.character.turnManager`isEndingTurn, currentCommand.value.character.turnManager`turnEndRequests,
             currentCommand.value.character.turnManager`state, currentCommand.value.character.turnManager.registry,
             currentCommand.value.character.turnManager.combatLog`history,
             currentCommand.value.character.turnManager.combatLog`entries
    ensures var c := old(currentCommand.value.character);
            c.turnManager.combatLog.Valid() &&
            c.turn.Counters() == Spend(old(c.turn.Counters()), ActionCost).ledger
    ensures var c := old(currentCommand.value.character);
            !CanSpend(old(c.turn.Counters()), ActionCost) ==>
              currentCommand == old(currentCommand) && c.turnManager.Snap() == old(c.turnManager.Snap()) &&
              c.attackAnimations == old(c.attackAnimations)
    ensures var c, t := old(currentCommand.value.character), old(currentCommand.value.target);
            CanSpend(old(c.turn.Counters()), ActionCost) ==>
              currentCommand == Null &&
              clearUtility.moveHighlight.Lit() == {} && clearUtility.attackHighlight.Lit() == {} &&
              c.attackAnimations == old(c.attackAnimations) + 1 &&
              c.turnManager.Snap() ==
                Struck(AfterSpend(old(c.turnManager.Snap()), old(c.turn.Counters())), c, t.value,
                       c.RollToHit(toHitRoll), HitDamage(c, damageRoll), old(t.value.HP))
  {
    var receiver := currentCommand.value.character;
    ghost var before, ledger := receiver.turnManager.Snap(), receiver.turn.Counters();
    var spent := receiver.turn.SpendMomentum(ActionCost);
    if !spent {
      return;
    }
    clearUtility.FullClear();
    ghost var paid := receiver.turnManager.Snap();
    assert paid == AfterSpend(before, ledger);
    var total := receiver.RollToHit(toHitRoll);
    var target := currentCommand.value.target.value;
    assert target.HP == old(target.HP);
    AttackPosition(receiver, target, total, damageRoll);
    currentCommand := Null;
  }

  /**
   * ExecuteMoveCommand: both conditions are checked before anything happens, enough
   * momentum and a valid path; if either fails nothing changes. Otherwise 2 momentum is
   * spent, the highlights are cleared, the unit moves and the command is used up.
   */
  method ExecuteMoveCommand()
    requires currentCommand.Some?
    requires var c := currentCommand.value.character;
             c.targetGrid.Valid() &&
             (currentCommand.value.path.Some? ==> PathOnGrid(c.targetGrid, currentCommand.value.path.value))
    modifies this`currentCommand, clearUtility.moveHighlight, clearUtility.attackHighlight,
             currentCommand.value.character.turn`momentum,
             currentCommand.value.character.turn.turnManager`isEndingTurn,
             currentCommand.value.character.turn.turnManager`turnEndRequests,
             currentCommand.value.character.movement,
             currentCommand.value.character`positionOnGrid, currentCommand.value.character`animMoving,
             currentCommand.value.character.targetGrid.grid
    ensures var c := old(currentCommand.value.character);
            !MoveAllowed(old(c.turn.Counters()), old(c.movement.isMoving), old(currentCommand.value.path)) ==>
              currentCommand == old(currentCommand) && c.turn.Counters() == old(c.turn.Counters()) &&
              c.positionOnGrid == old(c.positionOnGrid) && c.movement.isMoving == old(c.movement.isMoving) &&
              c.turn.turnManager.isEndingTurn == old(c.turn.turnManager.isEndingTurn)
    ensures var c, path := old(currentCommand.value.character), old(currentCommand.value.path);
            MoveAllowed(old(c.turn.Counters()), old(c.movement.isMoving), path) ==>
              currentCommand == Null &&
              c.turn.Counters() == Spend(old(c.turn.Counters()), ActionCost).ledger &&
              (c.turn.turnManager.isEndingTurn <==>
                 old(c.turn.turnManager.isEndingTurn) || Spend(old(c.turn.Counters()), ActionCost).endsTurn) &&
              clearUtility.moveHighlight.Lit() == {} && clearUtility.attackHighlight.Lit() == {} &&
              c.movement.isMoving && c.targetGrid.Valid() &&
              c.positionOnGrid == path.value[|path.value| - 1] &&
              c.targetGrid.GetPlacedObject(c.positionOnGrid) == Some(c)
  {
    var receiver := currentCommand.value.character;
    var characterTurn := receiver.turn;
    var canSpend := characterTurn.CanSpendMomentum(ActionCost);
    var pathIsValid := receiver.movement.PathIsValid(currentCommand.value.path, receiver.targetGrid);
    if !canSpend || !pathIsValid {
      return;
    }
    var spent := characterTurn.SpendMomentum(ActionCost);
    clearUtility.FullClear();
    var moved := receiver.movement.Move(currentCommand.value.path.value, receiver);
    currentCommand := Null;
  }
}
