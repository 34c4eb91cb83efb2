// The selection of a unit under the cursor, and the command menu it opens.

/** The command menu panel. */
class CommandMenu
{
  var panelOpen: bool

  constructor()
    ensures !panelOpen
  {
    panelOpen := false;
  }

  method OpenPanel()
    modifies this
    ensures panelOpen
  {
    panelOpen := true;
  }

  method ClosePanel()
    modifies this
    ensures !panelOpen
  {
    panelOpen := false;
  }
}

/**
 * SelectCharacter: the unit under the cursor and the unit selected, which opens the command
 * menu. The cursor cell is a parameter of Update; the command input it resets is passed in.
 */
class SelectCharacter
{
  const menu: CommandMenu
  const clearUtility: ClearUtility
  const targetGrid: GridMap
  /** The unit whose commands the menu offers; null when none is. */
  var selected: Option<Character>
  /** The occupant of the cursor's cell as of the last time the cursor entered a new cell. */
  var hoverOverCharacter: Option<Character>
  /** The last cell the cursor was seen on. */
  var positionOnGrid: Pos

  /** Nothing is selected or hovered, and the last seen cell is (-1, -1), which lies off every grid. */
  constructor(menu: CommandMenu, clearUtility: ClearUtility, targetGrid: GridMap)
    ensures this.menu == menu && this.clearUtility == clearUtility && this.targetGrid == targetGrid
    ensures selected == Null && hoverOverCharacter == Null && positionOnGrid == Pos(-1, -1)
  {
    this.menu, this.clearUtility, this.targetGrid := menu, clearUtility, targetGrid;
    selected, hoverOverCharacter := Null, Null;
    positionOnGrid := Pos(-1, -1);
  }

  /** The hovered unit is the occupant of the last seen cell; null exactly when that cell is empty or off the grid. */
  ghost predicate Tracking()
    reads this, targetGrid.grid
    requires targetGrid.Shape()
  {
    hoverOverCharacter == targetGrid.GetPlacedObject(positionOnGrid)
  }

  /**
   * Update: when the cursor is on another cell than the last one seen, that cell becomes the
   * last seen and its occupant the hovered unit; on the same cell nothing is looked up again.
   * From the initial state, the first update always leaves the hover tracking the cursor.
   */
  method Update(cursor: Pos)
    requires targetGrid.Shape()
    modifies this`positionOnGrid, this`hoverOverCharacter
    ensures positionOnGrid == cursor
    ensures old(positionOnGrid) != cursor ==> hoverOverCharacter == targetGrid.GetPlacedObject(cursor)
    ensures old(positionOnGrid) == cursor ==> hoverOverCharacter == old(hoverOverCharacter)
    ensures old(Tracking()) ==> Tracking()
    ensures old(positionOnGrid) == Pos(-1, -1) && old(hoverOverCharacter) == Null ==> Tracking()
  {
    if positionOnGrid != cursor {
      positionOnGrid := cursor;
      var hoverOverGridObject := targetGrid.GetPlacedObject(positionOnGrid);
      if hoverOverGridObject.Some? {
        hoverOverCharacter := hoverOverGridObject;
      } else {
        hoverOverCharacter := Null;
      }
    }
  }

  /** UpdateMenu: the menu is open exactly when a unit is selected. */
  method UpdateMenu()
    modifies menu
    ensures menu.panelOpen <==> selected.Some?
  {
    if selected.Some? {
      menu.OpenPanel();
    } else {
      menu.ClosePanel();
    }
  }

  /** Select: with nothing hovered nothing changes; otherwise the hovered unit, of either team, is selected and the menu opens. */
  method Select()
    modifies this`selected, menu
    ensures hoverOverCharacter.Null? ==> selected == old(selected) && unchanged(menu)
    ensures hoverOverCharacter.Some? ==> selected == hoverOverCharacter && menu.panelOpen
  {
    if hoverOverCharacter.Null? {
      return;
    }
    selected := hoverOverCharacter;
    UpdateMenu();
  }

  /** Deselect: no unit is selected, every highlight is cleared, the menu closes and the input goes back to `Default`. */
  method Deselect(input: CommandInput)
    modifies this`selected, clearUtility.moveHighlight, clearUtility.attackHighlight, menu, input`currentCommand
    ensures selected == Null && !menu.panelOpen && input.currentCommand == Default
    ensures clearUtility.moveHighlight.Lit() == {} && clearUtility.attackHighlight.Lit() == {}
  {
    selected := Null;
    clearUtility.FullClear();
    UpdateMenu();
    input.SetCommandType(Default);
  }

  /**
   * MoveCommandSelected: the attack highlights are hidden, the input goes to `MoveTo`, and the
   * cells the selected unit can walk to are highlighted; `hash` breaks the flood fill's ties.
   */
  method MoveCommandSelected(input: CommandInput, hash: Pos -> int) returns (ghost reachable: seq<Pos>)
    requires input.selectedCharacter == this && selected.Some? && input.moveUnit.grid.Shape()
    modifies clearUtility.attackHighlight, input`currentCommand, input.moveUnit.targetRenderer
    ensures input.currentCommand == MoveTo
    ensures input.moveUnit.targetRenderer != clearUtility.attackHighlight ==> clearUtility.attackHighlight.Lit() == {}
    ensures input.moveUnit.MoveRange(selected.value.positionOnGrid, selected.value.maxMoveSpeed, hash, reachable)
    ensures input.moveUnit.targetRenderer.Lit() == set i | 0 <= i < |reachable| :: reachable[i]
  {
    clearUtility.ClearGridHighlightAttack();
    input.SetCommandType(MoveTo);
    reachable := input.InitCommand(hash);
  }

  /**
   * AttackCommandSelected: the move highlights are hidden, the input goes to `Attack`, and the
   * selected unit's attack area is computed and highlighted.
   */
  method AttackCommandSelected(input: CommandInput, hash: Pos -> int)
    requires input.selectedCharacter == this && selected.Some?
    modifies clearUtility.moveHighlight, input`currentCommand, input.characterAttack`attackPosition,
             input.characterAttack.highlight
    ensures input.currentCommand == Attack
    ensures input.characterAttack.highlight != clearUtility.moveHighlight ==> clearUtility.moveHighlight.Lit() == {}
    ensures input.characterAttack.attackPosition ==
              Some(AttackArea(input.characterAttack.targetGrid, selected.value.positionOnGrid, selected.value.atkRange))
    ensures var h := input.characterAttack.highlight;
            h.points == Highlighted(if h == clearUtility.moveHighlight then Hidden(old(h.points)) else old(h.points),
                                    input.characterAttack.attackPosition.value)
  {
    clearUtility.ClearGridHighlightMove();
    input.SetCommandType(Attack);
    ghost var reachable := input.InitCommand(hash);
  }
}
