// CommandInput: the input mode, and what a left or right click does in each mode.

/** The unit a reference points to, as a set: empty for null. */
function Referenced(r: Option<Character>): set<Character>
{
  if r.Some? then {r.value} else {}
}

/**
 * CommandInput. The mode is the kind of command a click issues. The cursor cell, the
 * pathfinder's tie-break and the dice are parameters of the click handlers.
 */
class CommandInput
{
  const selectedCharacter: SelectCharacter
  const commandManager: CommandManager
  const moveUnit: MoveUnit
  const characterAttack: CharacterAttack
  var currentCommand: CommandType

  /** Awake: the mode starts as `Default`. */
  constructor(selectedCharacter: SelectCharacter, commandManager: CommandManager, moveUnit: MoveUnit,
              characterAttack: CharacterAttack)
    ensures this.selectedCharacter == selectedCharacter && this.commandManager == commandManager
    ensures this.moveUnit == moveUnit && this.characterAttack == characterAttack
    ensures currentCommand == Default
  {
    this.selectedCharacter, this.commandManager := selectedCharacter, commandManager;
    this.moveUnit, this.characterAttack := moveUnit, characterAttack;
    currentCommand := Default;
  }

  /** SetCommandType: the mode becomes exactly `commandType`. */
  method SetCommandType(commandType: CommandType)
    modifies this`currentCommand
    ensures currentCommand == commandType
  {
    currentCommand := commandType;
  }

  /**
   * InitCommand: in `MoveTo` the cells the selected unit can walk to are highlighted, in
   * `Attack` the selected unit's attack area is computed and highlighted; `Default` does nothing.
   */
  method InitCommand(hash: Pos -> int) returns (ghost reachable: seq<Pos>)
    requires currentCommand != Default ==> selectedCharacter.selected.Some?
    requires currentCommand == MoveTo ==> moveUnit.grid.Shape()
    modifies if currentCommand == MoveTo then {moveUnit.targetRenderer} else {},
             if currentCommand == Attack then {characterAttack.highlight} else {},
             (if currentCommand == Attack then {characterAttack} else {})`attackPosition
    ensures currentCommand == Default ==> unchanged(moveUnit.targetRenderer, characterAttack, characterAttack.highlight)
    ensures currentCommand == MoveTo ==>
              var u := selectedCharacter.selected.value;
              unchanged(characterAttack) && moveUnit.MoveRange(u.positionOnGrid, u.maxMoveSpeed, hash, reachable) &&
              moveUnit.targetRenderer.Lit() == set i | 0 <= i < |reachable| :: reachable[i]
    ensures currentCommand == Attack ==>
              unchanged(moveUnit.targetRenderer`points) || moveUnit.targetRenderer == characterAttack.highlight
    ensures currentCommand == Attack ==>
              var u := selectedCharacter.selected.value;
              characterAttack.attackPosition == Some(AttackArea(characterAttack.targetGrid, u.positionOnGrid, u.atkRange)) &&
              forall q :: characterAttack.Check(q) <==>
                characterAttack.targetGrid.CheckBoundry(q) && 1 <= Manhattan(q, u.positionOnGrid) <= u.atkRange
    ensures currentCommand == Attack ==>
              characterAttack.highlight.points ==
                Highlighted(old(characterAttack.highlight.points), characterAttack.attackPosition.value)
  {
    reachable := [];
    match currentCommand
    case MoveTo =>
      reachable := HighlightWalkableTerrain(hash);
    case Attack =>
      var u := selectedCharacter.selected.value;
      characterAttack.CalculateAttackArea(u.positionOnGrid, u.atkRange);
    case Default =>
  }

  /** HighlightWalkableTerrain: the flood fill from the selected unit's cell, within its movement, is highlighted. */
  method HighlightWalkableTerrain(hash: Pos -> int) returns (ghost reachable: seq<Pos>)
    requires selectedCharacter.selected.Some? && moveUnit.grid.Shape()
    modifies moveUnit.targetRenderer
    ensures var u := selectedCharacter.selected.value;
            moveUnit.MoveRange(u.positionOnGrid, u.maxMoveSpeed, hash, reachable)
    ensures moveUnit.targetRenderer.Lit() == set i | 0 <= i < |reachable| :: reachable[i]
  {
    reachable := moveUnit.CheckWalkableTerrain(selectedCharacter.selected.value, hash);
  }

  /**
   * MoveCommand: a path from the selected unit's cell to the cursor's cell is searched for (null
   * when there is none; found only when a walk leads there, and whenever one does when no two
   * cells share a hash), queued as a move command for that unit and executed; the mode goes back
   * to `Default` whether or not the move went ahead.
   */
  method MoveCommand(cursor: Pos, hash: Pos -> int) returns (ghost path: Option<seq<Pos>>)
    requires selectedCharacter.selected.Some?
    requires var c := selectedCharacter.selected.value;
             moveUnit.grid == c.targetGrid && moveUnit.pathfinder.gridMap == c.targetGrid && c.targetGrid.Valid() &&
             c.targetGrid.CheckBoundry(c.positionOnGrid)
    modifies this`currentCommand, commandManager`currentCommand,
             commandManager.clearUtility.moveHighlight, commandManager.clearUtility.attackHighlight,
             selectedCharacter.selected.value.turn`momentum, selectedCharacter.selected.value.turn.turnManager`isEndingTurn, selectedCharacter.selected.value.turn.turnManager`turnEndRequests,
             selectedCharacter.selected.value.movement, selectedCharacter.selected.value`positionOnGrid, selectedCharacter.selected.value`animMoving, selectedCharacter.selected.value.targetGrid.grid
    ensures currentCommand == Default
    ensures var c := old(selectedCharacter.selected.value);
            path.Some? ==> |path.value| > 0 && path.value[0] == old(c.positionOnGrid) && path.value[|path.value| - 1] == cursor
    ensures var c := old(selectedCharacter.selected.value);
            path.Some? ==> old(moveUnit.pathfinder.Connected(c.positionOnGrid, cursor, Null))
    ensures var c := old(selectedCharacter.selected.value);
            Injective(hash) ==> (path.Some? <==> old(moveUnit.pathfinder.Connected(c.positionOnGrid, cursor, Null)))
    ensures var c := old(selectedCharacter.selected.value);
            commandManager.currentCommand == Null <==> MoveAllowed(old(c.turn.Counters()), old(c.movement.isMoving), path)
    ensures var c := old(selectedCharacter.selected.value);
            commandManager.currentCommand != Null ==>
              commandManager.currentCommand == Some(Command(c, cursor, MoveTo, path, Null)) &&
              c.positionOnGrid == old(c.positionOnGrid) && c.turn.Counters() == old(c.turn.Counters())
    ensures var c := old(selectedCharacter.selected.value);
            commandManager.currentCommand == Null ==>
              c.positionOnGrid == cursor && c.targetGrid.GetPlacedObject(cursor) == Some(c) &&
              c.turn.Counters() == Spend(old(c.turn.Counters()), ActionCost).ledger
  {
    var c := selectedCharacter.selected.value;
    var startPos := c.positionOnGrid;
    var found := moveUnit.GetPath(startPos, cursor, hash);
    path := found;
    if found.Some? {
      assert PathOnGrid(c.targetGrid, found.value) by {
        forall i | 0 <= i < |found.value|
          ensures c.targetGrid.CheckBoundryXY(found.value[i].x, found.value[i].y)
        {
          assert c.targetGrid.CheckBoundry(found.value[i]);
        }
      }
    }
    commandManager.AddMoveCommand(c, cursor, found);
    commandManager.ExecuteCommand(1, 1);
    currentCommand := Default;
  }

  /**
   * AttackCommand: on a cell without an occupant nothing happens and the mode stays as it is.
   * Otherwise an attack by the selected unit on the occupant, of either team and whether or not
   * it lies in the attack area, is queued and executed, and the mode goes back to `Default`.
   * `toHitRoll` and `damageRoll` are the two dice.
   */
  method AttackCommand(cursor: Pos, toHitRoll: int, damageRoll: int)
    requires selectedCharacter.selected.Some? && characterAttack.targetGrid.Shape()
    requires var c := selectedCharacter.selected.value;
             c.turn.turnManager == c.turnManager && c.turnManager.combatLog.Valid()
    requires var c, t := selectedCharacter.selected.value, characterAttack.GetAttackTarget(cursor);
             t.Some? && CanSpend(c.turn.Counters(), ActionCost) ==>
               t.value.turnManager == c.turnManager && 1 <= toHitRoll <= 20 && DamageRoll(c.DMG, damageRoll)
    modifies this`currentCommand, commandManager`currentCommand,
             commandManager.clearUtility.moveHighlight, commandManager.clearUtility.attackHighlight,
             selectedCharacter.selected.value.turn`momentum, selectedCharacter.selected.value`attackAnimations,
             Referenced(characterAttack.GetAttackTarget(cursor))`HP, Referenced(characterAttack.GetAttackTarget(cursor))`shownHP,
             selectedCharacter.selected.value.turnManager`playerTeam, selectedCharacter.selected.value.turnManager`enemyTeam, selectedCharacter.selected.value.turnManager`isEndingTurn,
             selectedCharacter.selected.value.turnManager`turnEndRequests, selectedCharacter.selected.value.turnManager`state, selectedCharacter.selected.value.turnManager.registry,
             selectedCharacter.selected.value.turnManager.combatLog`history, selectedCharacter.selected.value.turnManager.combatLog`entries
    ensures var c, t := old(selectedCharacter.selected.value), old(characterAttack.GetAttackTarget(cursor));
            t.Null? ==>
              currentCommand == old(currentCommand) && commandManager.currentCommand == old(commandManager.currentCommand) &&
              unchanged(c, c.turn, c.turnManager, c.turnManager.combatLog, c.turnManager.registry)
    ensures var c, t := old(selectedCharacter.selected.value), old(characterAttack.GetAttackTarget(cursor));
            t.Some? ==>
              currentCommand == Default &&
              (commandManager.currentCommand == Null <==> CanSpend(old(c.turn.Counters()), ActionCost)) &&
              (commandManager.currentCommand != Null ==>
                 commandManager.currentCommand == Some(Command(c, cursor, Attack, Null, t)) &&
                 c.turnManager.Snap() == old(c.turnManager.Snap()))
    ensures var c, t := old(selectedCharacter.selected.value), old(characterAttack.GetAttackTarget(cursor));
            t.Some? && CanSpend(old(c.turn.Counters()), ActionCost) ==>
              c.turn.Counters() == Spend(old(c.turn.Counters()), ActionCost).ledger &&
              c.turnManager.Snap() ==
                Struck(AfterSpend(old(c.turnManager.Snap()), old(c.turn.Counters())), c, t.value,
                       c.RollToHit(toHitRoll), HitDamage(c, damageRoll), old(t.value.HP))
  {
    var gridObject := characterAttack.GetAttackTarget(cursor);
    if gridObject.Null? {
      return;
    }
    var c := selectedCharacter.selected.value;
    commandManager.AddAttackCommand(c, cursor, gridObject);
    commandManager.ExecuteCommand(toHitRoll, damageRoll);
    currentCommand := Default;
  }

  /**
   * HandleLeftClick: in `Default` mode the hovered unit is selected, in `MoveTo` mode a move to
   * the cursor's cell is issued, and in `Attack` mode an attack on its occupant; see MoveCommand
   * and AttackCommand. The mode is `Default` afterwards, except after a click in `Attack` mode
   * on a cell without an occupant.
   */
  method HandleLeftClick(cursor: Pos, hash: Pos -> int, toHitRoll: int, damageRoll: int) returns (ghost path: Option<seq<Pos>>)
    requires currentCommand != Default ==> selectedCharacter.selected.Some?
    requires currentCommand == MoveTo ==>
               var c := selectedCharacter.selected.value;
               moveUnit.grid == c.targetGrid && moveUnit.pathfinder.gridMap == c.targetGrid && c.targetGrid.Valid() &&
               c.targetGrid.CheckBoundry(c.positionOnGrid)
    requires currentCommand == Attack ==>
               var c := selectedCharacter.selected.value;
               characterAttack.targetGrid.Shape() && c.turn.turnManager == c.turnManager && c.turnManager.combatLog.Valid() &&
               var t := characterAttack.GetAttackTarget(cursor);
               (t.Some? && CanSpend(c.turn.Counters(), ActionCost) ==>
                  t.value.turnManager == c.turnManager && 1 <= toHitRoll <= 20 && DamageRoll(c.DMG, damageRoll))
    modifies this`currentCommand,
             (if currentCommand == Default then {selectedCharacter} else {})`selected,
             (if currentCommand == Default then {selectedCharacter.menu} else {}),
             (if !(currentCommand == Default) then {commandManager} else {})`currentCommand,
             (if !(currentCommand == Default) then {commandManager.clearUtility.moveHighlight} else {}),
             (if !(currentCommand == Default) then {commandManager.clearUtility.attackHighlight} else {}),
             (if !(currentCommand == Default) then {selectedCharacter.selected.value.turn} else {})`momentum,
             (if currentCommand == MoveTo then {selectedCharacter.selected.value.turn.turnManager} else {})`isEndingTurn,
             (if currentCommand == MoveTo then {selectedCharacter.selected.value.turn.turnManager} else {})`turnEndRequests,
             (if currentCommand == MoveTo then {selectedCharacter.selected.value.movement} else {}),
             (if currentCommand == MoveTo then {selectedCharacter.selected.value} else {})`positionOnGrid,
             (if currentCommand == MoveTo then {selectedCharacter.selected.value} else {})`animMoving,
             (if currentCommand == MoveTo then {selectedCharacter.selected.value.targetGrid.grid} else {}),
             (if currentCommand == Attack then Referenced(characterAttack.GetAttackTarget(cursor)) else {})`HP,
             (if currentCommand == Attack then Referenced(characterAttack.GetAttackTarget(cursor)) else {})`shownHP,
             (if currentCommand == Attack then {selectedCharacter.selected.value} else {})`attackAnimations,
             (if currentCommand == Attack then {selectedCharacter.selected.value.turnManager} else {})`playerTeam,
             (if currentCommand == Attack then {selectedCharacter.selected.value.turnManager} else {})`enemyTeam,
             (if currentCommand == Attack then {selectedCharacter.selected.value.turnManager} else {})`isEndingTurn,
             (if currentCommand == Attack then {selectedCharacter.selected.value.turnManager} else {})`turnEndRequests,
             (if currentCommand == Attack then {selectedCharacter.selected.value.turnManager} else {})`state,
             (if currentCommand == Attack then {selectedCharacter.selected.value.turnManager.registry} else {}),
             (if currentCommand == Attack then {selectedCharacter.selected.value.turnManager.combatLog} else {})`history,
             (if currentCommand == Attack then {selectedCharacter.selected.value.turnManager.combatLog} else {})`entries
    ensures old(currentCommand) == Default ==>
              currentCommand == Default &&
              var hover := selectedCharacter.hoverOverCharacter;
              (hover.Null? ==> selectedCharacter.selected == old(selectedCharacter.selected)) &&
              (hover.Some? ==> selectedCharacter.selected == hover && selectedCharacter.menu.panelOpen)
    ensures old(currentCommand) == MoveTo ==>
              var c := old(selectedCharacter.selected.value);
              currentCommand == Default &&
              (path.Some? ==> |path.value| > 0 && path.value[0] == old(c.positionOnGrid) && path.value[|path.value| - 1] == cursor) &&
              (commandManager.currentCommand == Null <==> MoveAllowed(old(c.turn.Counters()), old(c.movement.isMoving), path)) &&
              (commandManager.currentCommand == Null ==> c.positionOnGrid == cursor)
    ensures old(currentCommand) == Attack ==>
              var c, t := old(selectedCharacter.selected.value), old(characterAttack.GetAttackTarget(cursor));
              (currentCommand == Attack <==> t.Null?) && (currentCommand == Default <==> t.Some?) &&
              (t.Some? ==> (commandManager.currentCommand == Null <==> CanSpend(old(c.turn.Counters()), ActionCost)))
  {
    path := Null;
    match currentCommand
    case Default =>
      selectedCharacter.Select();
    case MoveTo =>
      path := MoveCommand(cursor, hash);
    case Attack =>
      AttackCommand(cursor, toHitRoll, damageRoll);
  }

  /** HandleRightClick: a right click in any mode deselects; see SelectCharacter.Deselect. */
  method HandleRightClick()
    modifies selectedCharacter`selected, selectedCharacter.clearUtility.moveHighlight,
             selectedCharacter.clearUtility.attackHighlight, selectedCharacter.menu, this`currentCommand
    ensures selectedCharacter.selected == Null && !selectedCharacter.menu.panelOpen && currentCommand == Default
    ensures selectedCharacter.clearUtility.moveHighlight.Lit() == {} && selectedCharacter.clearUtility.attackHighlight.Lit() == {}
  {
    selectedCharacter.Deselect(this);
  }
}
