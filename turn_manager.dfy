// The turn scheduler: initiative order, rounds, dispatch to the player or the AI, deaths and
// the end of the battle.

datatype GameState = Setup | PlayerTurn | EnemyTurn | CheckWinCondition | CombatEnd | Awaiting | Busy

// ---- OrderByDescending: a stable sort on initiative ----

/** Inserts `x` after every element whose key is not less than its own. */
function InsertByKey(s: seq<(Character, int)>, x: (Character, int)): seq<(Character, int)>
  decreases |s|
{
  if |s| == 0 then [x]
  else if s[|s| - 1].1 >= x.1 then s + [x]
  else InsertByKey(s[..|s| - 1], x) + [s[|s| - 1]]
}

/** `OrderByDescending(key)`: highest key first, equal keys in their original order. */
function OrderByDescending(xs: seq<(Character, int)>): seq<(Character, int)>
  decreases |xs|
{
  if |xs| == 0 then [] else InsertByKey(OrderByDescending(xs[..|xs| - 1]), xs[|xs| - 1])
}

predicate NonIncreasing(s: seq<(Character, int)>)
{
  forall i, j | 0 <= i < j < |s| :: s[i].1 >= s[j].1
}

/** The elements with key `k`, in order. */
function WithKey(s: seq<(Character, int)>, k: int): seq<(Character, int)>
  decreases |s|
{
  if |s| == 0 then [] else WithKey(s[..|s| - 1], k) + (if s[|s| - 1].1 == k then [s[|s| - 1]] else [])
}

lemma WithKeySnoc(s: seq<(Character, int)>, y: (Character, int), k: int)
  ensures WithKey(s + [y], k) == WithKey(s, k) + (if y.1 == k then [y] else [])
{
  assert (s + [y])[..|s|] == s;
}

/** Appending an element no greater than every element keeps a list non-increasing. */
lemma SortedSnoc(r: seq<(Character, int)>, y: (Character, int))
  requires NonIncreasing(r) && forall i | 0 <= i < |r| :: r[i].1 >= y.1
  ensures NonIncreasing(r + [y])
{
  forall i, j | 0 <= i < j < |r| + 1
    ensures (r + [y])[i].1 >= (r + [y])[j].1
  {
    if j < |r| {
      assert (r + [y])[i] == r[i] && (r + [y])[j] == r[j];
    }
  }
}

lemma {:induction false} InsertByKeyPermutes(s: seq<(Character, int)>, x: (Character, int))
  ensures multiset(InsertByKey(s, x)) == multiset(s) + multiset{x}
  ensures |InsertByKey(s, x)| == |s| + 1
  decreases |s|
{
  if |s| > 0 && s[|s| - 1].1 < x.1 {
    InsertByKeyPermutes(s[..|s| - 1], x);
    assert s == s[..|s| - 1] + [s[|s| - 1]];
  }
}

lemma {:induction false} InsertByKeySorted(s: seq<(Character, int)>, x: (Character, int))
  requires NonIncreasing(s)
  ensures NonIncreasing(InsertByKey(s, x))
  decreases |s|
{
  if |s| == 0 {
  } else if s[|s| - 1].1 >= x.1 {
    SortedSnoc(s, x);
  } else {
    var front, last := s[..|s| - 1], s[|s| - 1];
    InsertByKeySorted(front, x);
    InsertByKeyPermutes(front, x);
    var r := InsertByKey(front, x);
    forall i | 0 <= i < |r| ensures r[i].1 >= last.1 {
      assert r[i] in multiset(r);
      if r[i] != x {
        assert r[i] in multiset(front);
        var k :| 0 <= k < |front| && front[k] == r[i];
        assert s[k] == front[k];
      }
    }
    SortedSnoc(r, last);
  }
}

lemma {:induction false} InsertByKeyStable(s: seq<(Character, int)>, x: (Character, int), k: int)
  ensures WithKey(InsertByKey(s, x), k) == WithKey(s, k) + (if x.1 == k then [x] else [])
  decreases |s|
{
  if |s| == 0 {
    assert [x] == [] + [x];
    WithKeySnoc([], x, k);
  } else if s[|s| - 1].1 >= x.1 {
    WithKeySnoc(s, x, k);
  } else {
    var front, last := s[..|s| - 1], s[|s| - 1];
    var r := InsertByKey(front, x);
    InsertByKeyStable(front, x, k);
    WithKeySnoc(r, last, k);
    assert s == front + [last];
    WithKeySnoc(front, last, k);
    // `last` and `x` have different keys, so at most one of them is kept
    if x.1 == k {
      assert WithKey(r + [last], k) == WithKey(front, k) + [x];
    } else if last.1 == k {
      assert WithKey(r + [last], k) == WithKey(front, k) + [last];
    } else {
      assert WithKey(r + [last], k) == WithKey(front, k);
    }
  }
}

/**
 * The initiative order is a permutation of the units, non-increasing in initiative, and among
 * units with equal initiative it keeps their previous order.
 */
lemma {:induction false} OrderByDescendingIsStableSort(xs: seq<(Character, int)>)
  ensures var r := OrderByDescending(xs);
          multiset(r) == multiset(xs) && NonIncreasing(r) && forall k :: WithKey(r, k) == WithKey(xs, k)
  decreases |xs|
{
  if |xs| > 0 {
    var front, last := xs[..|xs| - 1], xs[|xs| - 1];
    OrderByDescendingIsStableSort(front);
    assert xs == front + [last];
    InsertByKeySorted(OrderByDescending(front), last);
    InsertByKeyPermutes(OrderByDescending(front), last);
    forall k
      ensures WithKey(OrderByDescending(xs), k) == WithKey(xs, k)
    {
      InsertByKeyStable(OrderByDescending(front), last, k);
      WithKeySnoc(front, last, k);
    }
  }
}

/** The units ordered by the initiative their rolls give, highest first, ties in their old order. */
function InitiativeOrder(units: seq<Character>, rolls: seq<int>): seq<Character>
  requires |rolls| == |units|
{
  Units(OrderByDescending(Rolled(units, rolls)))
}

/** Sorting by initiative only reorders the units: every unit of the order is one of the input units. */
lemma InitiativeOrderMembers(units: seq<Character>, rolls: seq<int>)
  requires |rolls| == |units|
  ensures forall u | u in InitiativeOrder(units, rolls) :: u in units
{
  var xs := Rolled(units, rolls);
  var r := OrderByDescending(xs);
  OrderByDescendingIsStableSort(xs);
  forall u | u in Units(r) ensures u in units {
    var i :| 0 <= i < |r| && Units(r)[i] == u;
    assert r[i] in multiset(xs);
    var j :| 0 <= j < |xs| && xs[j] == r[i];
  }
}

/** Each unit paired with the initiative its roll gives. */
function Rolled(units: seq<Character>, rolls: seq<int>): (r: seq<(Character, int)>)
  requires |rolls| == |units|
  ensures |r| == |units|
  ensures forall i | 0 <= i < |units| :: r[i] == (units[i], rolls[i] + units[i].InitiativeMod)
{
  seq(|units|, i requires 0 <= i < |units| => (units[i], rolls[i] + units[i].InitiativeMod))
}

function Units(s: seq<(Character, int)>): (r: seq<Character>)
  ensures |r| == |s| && forall i | 0 <= i < |s| :: r[i] == s[i].0
{
  seq(|s|, i requires 0 <= i < |s| => s[i].0)
}

// ---- filters over unit lists ----

/** `Where(unit => unit.IsAlive())`. */
function Living(units: seq<Character>): (r: seq<Character>)
  reads units
  ensures |r| <= |units|
  decreases |units|
{
  if |units| == 0 then []
  else Living(units[..|units| - 1]) + (if units[|units| - 1].HP > 0 then [units[|units| - 1]] else [])
}

/** The living units are exactly the units with HP above zero. */
lemma {:induction false} LivingMembers(units: seq<Character>)
  ensures forall u | u in Living(units) :: u in units && u.HP > 0
  ensures forall u | u in units && u.HP > 0 :: u in Living(units)
  decreases |units|
{
  if |units| > 0 {
    LivingMembers(units[..|units| - 1]);
    assert units == units[..|units| - 1] + [units[|units| - 1]];
  }
}

/** Filtering keeps order: the living units of a concatenation are the concatenated living units. */
lemma {:induction false} LivingAppend(a: seq<Character>, b: seq<Character>)
  ensures Living(a + b) == Living(a) + Living(b)
  decreases |b|
{
  if |b| > 0 {
    var front := b[..|b| - 1];
    assert (a + b)[..|a + b| - 1] == a + front;
    LivingAppend(a, front);
  } else {
    assert a + b == a;
  }
}

/** `Where(unit => unit.team == team)`. */
function OnTeam(units: seq<Character>, team: Team): (r: seq<Character>)
  ensures |r| <= |units|
  decreases |units|
{
  if |units| == 0 then []
  else OnTeam(units[..|units| - 1], team) + (if units[|units| - 1].team == team then [units[|units| - 1]] else [])
}

/** A team's list holds exactly the units of that team. */
lemma {:induction false} OnTeamMembers(units: seq<Character>, team: Team)
  ensures forall u | u in OnTeam(units, team) :: u in units && u.team == team
  ensures forall u | u in units && u.team == team :: u in OnTeam(units, team)
  decreases |units|
{
  if |units| > 0 {
    OnTeamMembers(units[..|units| - 1], team);
    assert units == units[..|units| - 1] + [units[|units| - 1]];
  }
}

/** The last unit counts toward its own team's list only. */
lemma OnTeamLast(units: seq<Character>, team: Team)
  requires |units| > 0
  ensures var last := units[|units| - 1];
          multiset(OnTeam(units, team)) ==
          multiset(OnTeam(units[..|units| - 1], team)) + (if last.team == team then multiset{last} else multiset{})
{
}

lemma MultisetLast(units: seq<Character>)
  requires |units| > 0
  ensures multiset(units) == multiset(units[..|units| - 1]) + multiset{units[|units| - 1]}
{
  assert units == units[..|units| - 1] + [units[|units| - 1]];
}

/** The two team lists split the active units between them. */
lemma {:induction false} TeamsPartition(units: seq<Character>)
  ensures multiset(OnTeam(units, Player)) + multiset(OnTeam(units, Enemy)) == multiset(units)
  decreases |units|
{
  if |units| > 0 {
    TeamsPartition(units[..|units| - 1]);
    OnTeamLast(units, Player);
    OnTeamLast(units, Enemy);
    MultisetLast(units);
  }
}

/** The line CheckForBattleEnd logs once a team is empty: the winner is the side with units left. */
function BattleEndLines(playerTeam: seq<Character>, enemyTeam: seq<Character>): seq<string>
{
  if |playerTeam| == 0 || |enemyTeam| == 0 then [BattleEndMessage(if |playerTeam| > 0 then "Player" else "Enemy")] else []
}

/** The state a dispatched unit puts the scheduler in. */
function DispatchState(unit: Character): GameState
{
  if unit.team == Player then PlayerTurn else EnemyTurn
}

/** Whether dispatching the unit grants it a turn: players always, others only with an AI. */
predicate GetsTurn(unit: Character)
{
  unit.team == Player || unit.ai.Some?
}

/** The unit whose AI HandleEnemyTurn hands over to, if any. */
function HandoffFor(unit: Character): Option<Character>
{
  if unit.team != Player && unit.ai.Some? then Some(unit) else Null
}

function TurnsOf(units: seq<Character>): set<CharacterTurn>
{
  set u | u in units :: u.turn
}

predicate Distinct(units: seq<Character>)
{
  forall i, j | 0 <= i < j < |units| :: units[i] != units[j]
}

// ---- the scheduler's state as a value, and its transitions ----

/** Everything the scheduler's turn logic reads and writes, with the combat log's lines. */
datatype Schedule = Schedule(
  activeUnits: seq<Character>,
  playerTeam: seq<Character>,
  enemyTeam: seq<Character>,
  currentUnit: Option<Character>,
  state: GameState,
  combatRound: int,
  currentInitiativeIndex: nat,
  isEndingTurn: bool,
  log: seq<string>)

/** The unit at the index is the current unit and the state names its side. */
predicate Dispatched(s: Schedule)
{
  s.currentInitiativeIndex < |s.activeUnits| &&
  var unit := s.activeUnits[s.currentInitiativeIndex];
  s.currentUnit == Some(unit) && s.state == DispatchState(unit)
}

/** The unit whose AI takes over once the unit at the index is dispatched, if any. */
function HandedTo(s: Schedule): Option<Character>
{
  if s.currentInitiativeIndex < |s.activeUnits| then HandoffFor(s.activeUnits[s.currentInitiativeIndex]) else Null
}

/** ProcessCurrentUnit: the turn-start line, and the state of the current unit's side. */
function Process(s: Schedule): (r: Schedule)
  requires s.currentUnit.Some?
  ensures r.state == DispatchState(s.currentUnit.value)
  ensures r.log == s.log + [TurnStartMessage(s.currentUnit.value.objectName)]
  ensures r.(state := s.state, log := s.log) == s
{
  var unit := s.currentUnit.value;
  s.(state := DispatchState(unit), log := s.log + [TurnStartMessage(unit.objectName)])
}

/** IncrementRounds: a new round from index 0, whose first unit, if any, is dispatched. */
function StartRound(s: Schedule): (r: Schedule)
  ensures r.combatRound == s.combatRound + 1 && r.currentInitiativeIndex == 0
  ensures r.activeUnits == s.activeUnits && r.playerTeam == s.playerTeam && r.enemyTeam == s.enemyTeam
  ensures r.isEndingTurn == s.isEndingTurn
  ensures |s.activeUnits| > 0 ==> Dispatched(r) && HandedTo(r) == HandoffFor(s.activeUnits[0])
  ensures |s.activeUnits| == 0 ==> r.currentUnit == s.currentUnit && r.state == s.state && HandedTo(r) == Null
  ensures r.log == s.log + RoundLines(r.combatRound, s.activeUnits)
{
  var round := s.combatRound + 1;
  var started := s.(combatRound := round, currentInitiativeIndex := 0, log := s.log + [RoundStartMessage(round)]);
  if |s.activeUnits| > 0 then Process(started.(currentUnit := Some(s.activeUnits[0]))) else started
}

/**
 * The index moves on; past the end of the order a new round starts, otherwise the unit at the
 * new index is dispatched. The turn end is over either way.
 */
function Advance(s: Schedule): (r: Schedule)
  ensures r.activeUnits == s.activeUnits && r.playerTeam == s.playerTeam && r.enemyTeam == s.enemyTeam
  ensures !r.isEndingTurn
  ensures s.currentInitiativeIndex + 1 < |s.activeUnits| ==>
            r.currentInitiativeIndex == s.currentInitiativeIndex + 1 && r.combatRound == s.combatRound
  ensures s.currentInitiativeIndex + 1 >= |s.activeUnits| ==>
            r.currentInitiativeIndex == 0 && r.combatRound == s.combatRound + 1
  ensures |s.activeUnits| > 0 ==> Dispatched(r)
  ensures |s.activeUnits| == 0 ==> r.currentUnit == s.currentUnit && r.state == s.state && HandedTo(r) == Null
  ensures r.log == s.log + NextLines(s.currentInitiativeIndex, r.combatRound, s.activeUnits)
{
  var next := s.currentInitiativeIndex + 1;
  if next >= |s.activeUnits| then StartRound(s.(currentInitiativeIndex := next, isEndingTurn := false))
  else Process(s.(currentInitiativeIndex := next, currentUnit := Some(s.activeUnits[next]), isEndingTurn := false))
}

/** CheckForBattleEnd: once a team list is empty the battle is over and the winner is logged, on every call. */
function BattleEnd(s: Schedule): (r: Schedule)
  ensures r.state == if |s.playerTeam| == 0 || |s.enemyTeam| == 0 then CombatEnd else s.state
  ensures r.log == s.log + BattleEndLines(s.playerTeam, s.enemyTeam)
  ensures r.(state := s.state, log := s.log) == s
{
  if |s.playerTeam| == 0 || |s.enemyTeam| == 0 then
    s.(state := CombatEnd, log := s.log + [BattleEndMessage(if |s.playerTeam| > 0 then "Player" else "Enemy")])
  else s
}

/**
 * The first part of the turn-end resume: the state becomes Awaiting, the dead are pruned from the
 * order (`pruned`), and the battle end is checked.
 */
function WindUp(s: Schedule, pruned: seq<Character>): (r: Schedule)
  ensures r.activeUnits == pruned
  ensures r.state == if |s.playerTeam| == 0 || |s.enemyTeam| == 0 then CombatEnd else Awaiting
  ensures r.log == s.log + BattleEndLines(s.playerTeam, s.enemyTeam)
  ensures r.(activeUnits := s.activeUnits, state := s.state, log := s.log) == s
{
  BattleEnd(s.(state := Awaiting, activeUnits := pruned))
}

/**
 * The team-list part of OnCharacterDied: the dead unit leaves its own team's list (its first
 * occurrence there), and if it is the current unit its turn end begins.
 */
function Bury(s: Schedule, dead: Character): (r: Schedule)
  ensures r.isEndingTurn == (s.isEndingTurn || s.currentUnit == Some(dead))
  ensures r.(playerTeam := s.playerTeam, enemyTeam := s.enemyTeam, isEndingTurn := s.isEndingTurn) == s
{
  s.(playerTeam := if dead.team == Player then RemoveFirst(s.playerTeam, dead) else s.playerTeam,
     enemyTeam := if dead.team == Enemy then RemoveFirst(s.enemyTeam, dead) else s.enemyTeam,
     isEndingTurn := s.isEndingTurn || s.currentUnit == Some(dead))
}

/** The dead unit leaves exactly its own team's list, once; the other list is untouched. */
lemma BuryLeavesOwnTeam(s: Schedule, dead: Character)
  ensures var r := Bury(s, dead);
          multiset(r.playerTeam) == multiset(s.playerTeam) - (if dead.team == Player then multiset{dead} else multiset{}) &&
          multiset(r.enemyTeam) == multiset(s.enemyTeam) - (if dead.team == Enemy then multiset{dead} else multiset{})
{
  RemoveFirstCutsAtIndex(s.playerTeam, dead);
  RemoveFirstCutsAtIndex(s.enemyTeam, dead);
}

/**
 * ScanForActiveUnits, AssignUnitsToTeams and the sort of RollInitiative: the living units split
 * into the two teams, and ordered by the initiative `rolls` gives them.
 */
function Enlist(s: Schedule, living: seq<Character>, rolls: seq<int>): (r: Schedule)
  requires |rolls| == |living|
  ensures r.activeUnits == InitiativeOrder(living, rolls)
  ensures r.(activeUnits := s.activeUnits, playerTeam := s.playerTeam, enemyTeam := s.enemyTeam) == s
{
  s.(activeUnits := InitiativeOrder(living, rolls), playerTeam := OnTeam(living, Player), enemyTeam := OnTeam(living, Enemy))
}

/** The two team lists split the living units between them, each holding only its own team. */
lemma EnlistSplitsTeams(s: Schedule, living: seq<Character>, rolls: seq<int>)
  requires |rolls| == |living|
  ensures var r := Enlist(s, living, rolls);
          multiset(r.playerTeam) + multiset(r.enemyTeam) == multiset(living) &&
          (forall u | u in r.playerTeam :: u.team == Player) &&
          (forall u | u in r.enemyTeam :: u.team == Enemy)
{
  TeamsPartition(living);
  OnTeamMembers(living, Player);
  OnTeamMembers(living, Enemy);
}

class TurnManager
{
  const registry: UnitRegistry
  const combatLog: CombatLog
  const commandMenu: CommandMenu
  var activeUnits: seq<Character>
  var playerTeam: seq<Character>
  var enemyTeam: seq<Character>
  var currentUnit: Option<Character>
  var state: GameState
  var combatRound: int
  var currentInitiativeIndex: nat
  /** Set while a turn end waits for the unit's animation; the resume is FinishTurnEnd. */
  var isEndingTurn: bool
  /** How many times EndCurrentUnitTurn has been called. */
  ghost var turnEndRequests: nat

  /** Awake. */
  constructor(registry: UnitRegistry, combatLog: CombatLog, commandMenu: CommandMenu)
    ensures this.registry == registry && this.combatLog == combatLog && this.commandMenu == commandMenu
    ensures activeUnits == [] && playerTeam == [] && enemyTeam == [] && currentUnit == Null
    ensures state == Setup && combatRound == 0 && currentInitiativeIndex == 0
    ensures !isEndingTurn && turnEndRequests == 0
  {
    this.registry, this.combatLog, this.commandMenu := registry, combatLog, commandMenu;
    activeUnits, playerTeam, enemyTeam, currentUnit := [], [], [], Null;
    state, combatRound, currentInitiativeIndex := Setup, 0, 0;
    isEndingTurn, turnEndRequests := false, 0;
  }

  /** The scheduler's fields and the log's lines as one value. */
  ghost function Snap(): Schedule
    reads this, combatLog
  {
    Schedule(activeUnits, playerTeam, enemyTeam, currentUnit, state, combatRound, currentInitiativeIndex,
             isEndingTurn, combatLog.history)
  }

  /** A line added to the log, and nothing else about the scheduler changed, shows in Snap as that line. */
  twostate lemma Logged(line: string)
    requires unchanged(this) && combatLog.history == old(combatLog.history) + [line]
    ensures Snap() == old(Snap()).(log := old(Snap()).log + [line])
  {
  }

  /** The turn component of the unit at `index` of the initiative order, if there is one. */
  function TurnAt(index: nat): set<CharacterTurn>
    reads this
  {
    if index < |activeUnits| then {activeUnits[index].turn} else {}
  }

  /** The index a turn advance moves to: the next one, or back to 0 past the end. */
  function NextIndex(): nat
    reads this
  {
    if currentInitiativeIndex + 1 < |activeUnits| then currentInitiativeIndex + 1 else 0
  }

  /** The unit at the index, if it gets a turn, has been granted a fresh one. */
  predicate Granted()
    reads this, TurnAt(currentInitiativeIndex)
  {
    currentInitiativeIndex < |activeUnits| && GetsTurn(activeUnits[currentInitiativeIndex]) ==>
      activeUnits[currentInitiativeIndex].turn.Counters() == TurnGrant
  }

  /** Start: the state is Setup, the battle-start line, then StartCombat. */
  method Start(rolls: seq<int>) returns (handoff: Option<Character>)
    requires |rolls| == |Living(registry.allUnits)| && Distinct(registry.allUnits)
    requires forall i | 0 <= i < |rolls| :: 1 <= rolls[i] <= 20
    requires combatLog.Valid()
    modifies this`activeUnits, this`playerTeam, this`enemyTeam, this`combatRound, this`currentInitiativeIndex,
             this`currentUnit, this`state, combatLog`history, combatLog`entries,
             registry.allUnits`Initiative, TurnsOf(registry.allUnits)
    ensures Snap() == StartRound(Enlist(old(Snap()).(state := Setup, log := old(combatLog.history) + [BattleStartMessage]),
                                        old(Living(registry.allUnits)), rolls))
    ensures combatLog.Valid() && registry.allUnits == old(registry.allUnits)
    ensures handoff == HandedTo(Snap()) && Granted()
  {
    state := Setup;
    combatLog.LogBattleStart();
    handoff := StartCombat(rolls);
  }

  /** ScanForActiveUnits, AssignUnitsToTeams, RollInitiative, IncrementRounds. */
  method StartCombat(rolls: seq<int>) returns (handoff: Option<Character>)
    requires |rolls| == |Living(registry.allUnits)| && Distinct(registry.allUnits)
    requires forall i | 0 <= i < |rolls| :: 1 <= rolls[i] <= 20
    requires combatLog.Valid()
    modifies this`activeUnits, this`playerTeam, this`enemyTeam, this`combatRound, this`currentInitiativeIndex,
             this`currentUnit, this`state, combatLog`history, combatLog`entries,
             registry.allUnits`Initiative, TurnsOf(registry.allUnits)
    ensures Snap() == StartRound(Enlist(old(Snap()), old(Living(registry.allUnits)), rolls))
    ensures combatLog.Valid() && registry.allUnits == old(registry.allUnits)
    ensures handoff == HandedTo(Snap()) && Granted()
  {
    Muster(rolls);
    handoff := IncrementRounds();
  }

  /** The first three steps of StartCombat: the living units, their teams, their initiative order. */
  method Muster(rolls: seq<int>)
    requires |rolls| == |Living(registry.allUnits)| && Distinct(registry.allUnits)
    modifies this`activeUnits, this`playerTeam, this`enemyTeam, registry.allUnits`Initiative
    ensures Snap() == Enlist(old(Snap()), old(Living(registry.allUnits)), rolls)
    ensures var living := old(Living(registry.allUnits));
            forall i | 0 <= i < |living| :: living[i].Initiative == rolls[i] + living[i].InitiativeMod
    ensures forall u | u in activeUnits :: u.turn in TurnsOf(registry.allUnits)
  {
    ghost var living := Living(registry.allUnits);
    FormTeams();
    ghost var teamed := Snap();
    assert forall i | 0 <= i < |activeUnits| :: activeUnits[i] in registry.allUnits;
    RollInitiative(rolls);
    assert Snap() == teamed.(activeUnits := InitiativeOrder(living, rolls));
    MemberTurns(activeUnits, registry.allUnits);
  }

  /** ScanForActiveUnits then AssignUnitsToTeams: the living units, split by team. */
  method FormTeams()
    requires Distinct(registry.allUnits)
    modifies this`activeUnits, this`playerTeam, this`enemyTeam
    ensures var living := old(Living(registry.allUnits));
            Snap() == old(Snap()).(activeUnits := living, playerTeam := OnTeam(living, Player), enemyTeam := OnTeam(living, Enemy))
    ensures Distinct(activeUnits) && forall u | u in activeUnits :: u in registry.allUnits
  {
    ScanForActiveUnits();
    AssignUnitsToTeams();
  }

  /** The living units of the registry, in registry order, become the active units. */
  method ScanForActiveUnits()
    requires Distinct(registry.allUnits)
    modifies this`activeUnits
    ensures Snap() == old(Snap()).(activeUnits := Living(registry.allUnits))
    ensures Distinct(activeUnits) && forall u | u in activeUnits :: u in registry.allUnits
  {
    LivingMembers(registry.allUnits);
    LivingDistinct(registry.allUnits);
    activeUnits := Living(registry.allUnits);
  }

  /** Each team list becomes the active units of that team, in order. */
  method AssignUnitsToTeams()
    modifies this`playerTeam, this`enemyTeam
    ensures Snap() == old(Snap()).(playerTeam := OnTeam(activeUnits, Player), enemyTeam := OnTeam(activeUnits, Enemy))
  {
    playerTeam := OnTeam(activeUnits, Player);
    enemyTeam := OnTeam(activeUnits, Enemy);
  }

  /** Each unit's initiative becomes its roll plus its modifier; then the list is ordered by it. */
  method RollInitiative(rolls: seq<int>)
    requires |rolls| == |activeUnits| && Distinct(activeUnits)
    modifies activeUnits`Initiative, this`activeUnits
    ensures forall i | 0 <= i < |old(activeUnits)| ::
              old(activeUnits)[i].Initiative == rolls[i] + old(activeUnits)[i].InitiativeMod
    ensures Snap() == old(Snap()).(activeUnits := InitiativeOrder(old(activeUnits), rolls))
    ensures forall u | u in activeUnits :: u in old(activeUnits)
  {
    var i := 0;
    while i < |activeUnits|
      invariant 0 <= i <= |activeUnits| && activeUnits == old(activeUnits)
      invariant forall j | 0 <= j < i :: activeUnits[j].Initiative == rolls[j] + activeUnits[j].InitiativeMod
    {
      activeUnits[i].Initiative := rolls[i] + activeUnits[i].InitiativeMod;
      i := i + 1;
    }
    InitiativeOrderMembers(activeUnits, rolls);
    activeUnits := InitiativeOrder(activeUnits, rolls);
  }

  /** LogTurnStart, then HandlePlayerTurn or HandleEnemyTurn according to the unit's team. */
  method ProcessCurrentUnit() returns (handoff: Option<Character>)
    requires currentUnit.Some? && combatLog.Valid()
    modifies this`state, combatLog`history, combatLog`entries, currentUnit.value.turn
    ensures Snap() == Process(old(Snap())) && combatLog.Valid()
    ensures handoff == HandoffFor(currentUnit.value)
    ensures GetsTurn(currentUnit.value) ==> currentUnit.value.turn.Counters() == TurnGrant
    ensures !GetsTurn(currentUnit.value) ==> unchanged(currentUnit.value.turn)
  {
    var unit := currentUnit.value;
    combatLog.LogTurnStart(unit.objectName);
    if unit.team == Player {
      state := PlayerTurn;
      HandlePlayerTurn();
      handoff := Null;
    } else {
      state := EnemyTurn;
      handoff := HandleEnemyTurn();
    }
  }

  method HandlePlayerTurn()
    requires currentUnit.Some?
    modifies currentUnit.value.turn
    ensures currentUnit.value.turn.Counters() == TurnGrant
  {
    currentUnit.value.turn.GrantTurn();
  }

  /**
   * A unit without an AI gets nothing; otherwise the unit is granted its turn and handed to its
   * AI, which the caller runs (HandleAITurn).
   */
  method HandleEnemyTurn() returns (handoff: Option<Character>)
    modifies if currentUnit.Some? then {currentUnit.value.turn} else {}
    ensures currentUnit.Null? ==> handoff == Null
    ensures currentUnit.Some? ==> handoff == (if currentUnit.value.ai.Some? then currentUnit else Null)
    ensures currentUnit.Some? && currentUnit.value.ai.Some? ==> currentUnit.value.turn.Counters() == TurnGrant
    ensures currentUnit.Some? && currentUnit.value.ai.Null? ==> unchanged(currentUnit.value.turn)
  {
    if currentUnit.Null? {
      return Null;
    }
    var unit := currentUnit.value;
    if unit.ai.Null? {
      return Null;
    }
    unit.turn.GrantTurn();
    handoff := Some(unit);
  }

  method CheckForBattleEnd()
    requires combatLog.Valid()
    modifies this`state, combatLog`history, combatLog`entries
    ensures Snap() == BattleEnd(old(Snap())) && combatLog.Valid()
  {
    if |playerTeam| == 0 || |enemyTeam| == 0 {
      state := CombatEnd;
      combatLog.LogBattleEnd(if |playerTeam| > 0 then "Player" else "Enemy");
    }
  }

  /** The OnCharacterDeath handler: the unit leaves the registry and its team, then the battle end is checked. */
  method OnCharacterDied(dead: Character)
    requires combatLog.Valid()
    modifies this`playerTeam, this`enemyTeam, this`isEndingTurn, this`turnEndRequests, this`state, registry,
             combatLog`history, combatLog`entries
    ensures Snap() == BattleEnd(Bury(old(Snap()), dead)) && combatLog.Valid()
    ensures registry.allUnits == RemoveFirst(old(registry.allUnits), dead)
    ensures turnEndRequests == old(turnEndRequests) + if old(currentUnit) == Some(dead) then 1 else 0
  {
    registry.Deregister(dead);
    if dead.team == Player {
      playerTeam := RemoveFirst(playerTeam, dead);
    } else if dead.team == Enemy {
      enemyTeam := RemoveFirst(enemyTeam, dead);
    }
    if currentUnit == Some(dead) {
      EndCurrentUnitTurn();
    }
    assert Snap() == Bury(old(Snap()), dead);
    CheckForBattleEnd();
  }

  method IncrementRounds() returns (handoff: Option<Character>)
    requires combatLog.Valid()
    modifies this`combatRound, this`currentInitiativeIndex, this`currentUnit, this`state, combatLog`history,
             combatLog`entries, TurnAt(0)
    ensures Snap() == StartRound(old(Snap())) && combatLog.Valid()
    ensures handoff == HandedTo(Snap()) && Granted()
  {
    combatRound := combatRound + 1;
    currentInitiativeIndex := 0;
    combatLog.LogRoundStart(combatRound);
    if |activeUnits| > 0 {
      currentUnit := Some(activeUnits[0]);
      handoff := ProcessCurrentUnit();
    } else {
      handoff := Null;
    }
  }

  /** Begins a turn end, unless one is already waiting for the unit's animation to stop. */
  method EndCurrentUnitTurn()
    modifies this`isEndingTurn, this`turnEndRequests
    ensures Snap() == old(Snap()).(isEndingTurn := true)
    ensures turnEndRequests == old(turnEndRequests) + 1
  {
    turnEndRequests := turnEndRequests + 1;
    if isEndingTurn {
      return;
    }
    isEndingTurn := true;
  }

  /**
   * The resume of EndCurrentUnitTurn, once the animation has stopped: the turn is wound up and
   * then advanced in the pruned order. Play goes on after CombatEnd.
   */
  method FinishTurnEnd() returns (handoff: Option<Character>)
    requires isEndingTurn && combatLog.Valid()
    modifies this`state, this`activeUnits, this`currentInitiativeIndex, this`combatRound, this`currentUnit,
             this`isEndingTurn, combatLog`history, combatLog`entries, commandMenu, TurnsOf(activeUnits)
    ensures Snap() == Advance(WindUp(old(Snap()), old(Living(activeUnits)))) && combatLog.Valid()
    ensures !commandMenu.panelOpen
    ensures handoff == HandedTo(Snap()) && Granted()
  {
    LivingTurns(activeUnits);
    WindUpTurn();
    handoff := AdvanceTurn();
  }

  /** The menu is closed, the dead are pruned from the initiative order, and the battle end is checked. */
  method WindUpTurn()
    requires combatLog.Valid()
    modifies this`state, this`activeUnits, commandMenu, combatLog`history, combatLog`entries
    ensures Snap() == WindUp(old(Snap()), old(Living(activeUnits))) && combatLog.Valid()
    ensures !commandMenu.panelOpen
  {
    var pruned := Living(activeUnits);
    commandMenu.ClosePanel();
    state := Awaiting;
    activeUnits := pruned;
    CheckForBattleEnd();
  }

  /** The index moves on; past the end a new round starts, otherwise the unit at the index is dispatched. */
  method AdvanceTurn() returns (handoff: Option<Character>)
    requires combatLog.Valid()
    modifies this`currentInitiativeIndex, this`combatRound, this`currentUnit, this`state, this`isEndingTurn,
             combatLog`history, combatLog`entries, TurnAt(NextIndex())
    ensures Snap() == Advance(old(Snap())) && combatLog.Valid()
    ensures handoff == HandedTo(Snap()) && Granted()
  {
    currentInitiativeIndex := currentInitiativeIndex + 1;
    if currentInitiativeIndex >= |activeUnits| {
      isEndingTurn := false;
      handoff := IncrementRounds();
    } else {
      currentUnit := Some(activeUnits[currentInitiativeIndex]);
      isEndingTurn := false;
      handoff := ProcessCurrentUnit();
    }
  }
}

/** What a turn advance logs: the next unit's turn, or a new round once the list is done. */
function NextLines(index: nat, round: int, units: seq<Character>): seq<string>
{
  if index + 1 < |units| then [TurnStartMessage(units[index + 1].objectName)] else RoundLines(round, units)
}

/** The lines a round start logs: the round number, then the first unit's turn if there is one. */
function RoundLines(round: int, units: seq<Character>): seq<string>
{
  [RoundStartMessage(round)] + (if |units| > 0 then [TurnStartMessage(units[0].objectName)] else [])
}

/** Units drawn from a list carry turn components of that list. */
lemma MemberTurns(sub: seq<Character>, units: seq<Character>)
  requires forall u | u in sub :: u in units
  ensures forall u | u in sub :: u.turn in TurnsOf(units)
{
}

/** Pruning the dead keeps only turn components the list already had. */
lemma LivingTurns(units: seq<Character>)
  ensures TurnsOf(Living(units)) <= TurnsOf(units)
{
  LivingMembers(units);
}

/** The living units of a list without repeats have no repeats either. */
lemma {:induction false} LivingDistinct(units: seq<Character>)
  requires Distinct(units)
  ensures Distinct(Living(units))
  decreases |units|
{
  if |units| > 0 {
    var front := units[..|units| - 1];
    LivingDistinct(front);
    var r := Living(units);
    LivingMembers(front);
    if units[|units| - 1].HP > 0 {
      assert units[|units| - 1] !in front;
      assert units[|units| - 1] !in Living(front);
    }
  }
}

/**
 * A turn end prunes before it advances the index, so when the current unit has died the unit
 * right after it is skipped: with the current unit at `i` dead and the next two alive, the
 * next turn goes to the unit two places on.
 */
lemma TurnAdvanceSkipsAfterDeath(units: seq<Character>, i: nat)
  requires i + 2 < |units|
  requires forall j | 0 <= j < i :: units[j].HP > 0
  requires units[i].HP <= 0 && units[i + 1].HP > 0 && units[i + 2].HP > 0
  ensures |Living(units)| > i + 1 && Living(units)[i + 1] == units[i + 2]
{
  var before, after := units[..i], units[i..];
  assert units == before + after;
  LivingAppend(before, after);
  AllLiving(before);
  LivingAfterDead(after);
}

/** A dead unit followed by two living ones: the pruned list starts with those two. */
lemma LivingAfterDead(t: seq<Character>)
  requires |t| >= 3 && t[0].HP <= 0 && t[1].HP > 0 && t[2].HP > 0
  ensures |Living(t)| >= 2 && Living(t)[0] == t[1] && Living(t)[1] == t[2]
{
  var head, rest := [t[0], t[1], t[2]], t[3..];
  assert t == head + rest;
  LivingAppend(head, rest);
  assert head[..2] == [t[0], t[1]] && [t[0], t[1]][..1] == [t[0]] && [t[0]][..0] == [];
  assert Living([t[0]]) == [];
  assert Living([t[0], t[1]]) == [t[1]];
  assert Living(head) == [t[1], t[2]];
}

lemma {:induction false} AllLiving(units: seq<Character>)
  requires forall j | 0 <= j < |units| :: units[j].HP > 0
  ensures Living(units) == units
  decreases |units|
{
  if |units| > 0 {
    AllLiving(units[..|units| - 1]);
    assert units == units[..|units| - 1] + [units[|units| - 1]];
  }
}
