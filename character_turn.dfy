// A unit's per-turn momentum pool: actions spend it, and gains are capped per turn.

/** The three counters of a unit's turn. */
datatype Ledger = Ledger(momentum: int, gains: int, maxGained: int)

/** What GrantTurn sets: 4 momentum, gains counted from 4, a cap of twice the grant. */
const TurnGrant: Ledger := Ledger(4, 4, 8)

/** CanSpendMomentum. */
predicate CanSpend(l: Ledger, amount: int)
{
  l.momentum >= amount
}

/** The outcome of SpendMomentum: the new counters, the result, and whether the turn ends automatically. */
datatype SpendOutcome = SpendOutcome(ledger: Ledger, spent: bool, endsTurn: bool)

function Spend(l: Ledger, amount: int): (r: SpendOutcome)
  ensures r.spent <==> CanSpend(l, amount)
  ensures r.spent ==> r.ledger == l.(momentum := l.momentum - amount)
  ensures !r.spent ==> r.ledger == l && !r.endsTurn
  ensures r.endsTurn <==> r.spent && r.ledger.momentum <= 0
{
  if amount <= l.momentum then
    var after := l.(momentum := l.momentum - amount);
    SpendOutcome(after, true, after.momentum <= 0)
  else
    SpendOutcome(l, false, false)
}

/** A spend of a non-negative amount never leaves momentum negative. */
lemma SpendNeverNegative(l: Ledger, amount: int)
  requires amount >= 0 && Spend(l, amount).spent
  ensures Spend(l, amount).ledger.momentum >= 0
{
}

/**
 * GainMomentum: the gain is accepted while the gains so far do not exceed the cap, so the last
 * accepted gain may overshoot it; a rejected gain changes nothing.
 */
function Gain(l: Ledger, amount: int): (r: Ledger)
  ensures l.gains <= l.maxGained ==> r == Ledger(l.momentum + amount, l.gains + amount, l.maxGained)
  ensures l.gains > l.maxGained ==> r == l
{
  if l.gains <= l.maxGained then l.(momentum := l.momentum + amount, gains := l.gains + amount) else l
}

/** A run of gains, in order. */
function GainAll(l: Ledger, amounts: seq<int>): Ledger
  decreases |amounts|
{
  if |amounts| == 0 then l else GainAll(Gain(l, amounts[0]), amounts[1..])
}

/**
 * However many gains of at most `bound` each are offered, the gains counter ends at most `bound`
 * past the cap, the cap never moves, and momentum moves in step with the gains counter.
 */
lemma {:induction false} GainsStayNearCap(l: Ledger, amounts: seq<int>, bound: int)
  requires forall i | 0 <= i < |amounts| :: 0 <= amounts[i] <= bound
  requires l.gains <= l.maxGained + bound
  ensures var r := GainAll(l, amounts);
          r.gains <= l.maxGained + bound && r.maxGained == l.maxGained &&
          r.momentum - r.gains == l.momentum - l.gains
  decreases |amounts|
{
  if |amounts| > 0 {
    GainsStayNearCap(Gain(l, amounts[0]), amounts[1..], bound);
  }
}

/** Once the gains counter is past the cap, every further gain is refused. */
lemma {:induction false} GainsRefusedPastCap(l: Ledger, amounts: seq<int>)
  requires l.gains > l.maxGained
  ensures GainAll(l, amounts) == l
  decreases |amounts|
{
  if |amounts| > 0 {
    GainsRefusedPastCap(Gain(l, amounts[0]), amounts[1..]);
  }
}

/** From a fresh grant, non-negative gains can never raise momentum past 8 plus the last accepted gain. */
lemma GrantedGainsBounded(amounts: seq<int>, bound: nat)
  requires forall i | 0 <= i < |amounts| :: 0 <= amounts[i] <= bound
  ensures GainAll(TurnGrant, amounts).momentum <= 8 + bound
{
  GainsStayNearCap(TurnGrant, amounts, bound);
}

class CharacterTurn
{
  /** The scheduler that AutomaticTurnEnd notifies. */
  const turnManager: TurnManager
  var momentum: int
  var momentumGains: int
  var maxMomentumGained: int

  constructor(turnManager: TurnManager)
    ensures this.turnManager == turnManager
    ensures momentum == 0 && momentumGains == 0 && maxMomentumGained == 0
  {
    this.turnManager := turnManager;
    momentum, momentumGains, maxMomentumGained := 0, 0, 0;
  }

  /** The counters as one value. */
  function Counters(): Ledger
    reads this
  {
    Ledger(momentum, momentumGains, maxMomentumGained)
  }

  method GrantTurn()
    modifies this`momentum, this`momentumGains, this`maxMomentumGained
    ensures Counters() == TurnGrant
  {
    momentum := 4;
    maxMomentumGained := momentum * 2;
    momentumGains := momentum;
  }

  /** CanSpendMomentum: exactly when SpendMomentum would take `amount`. */
  function CanSpendMomentum(amount: int): (r: bool)
    reads this
    ensures r <==> Spend(Counters(), amount).spent
  {
    momentum >= amount
  }

  /**
   * Takes `amount` if there is that much momentum. A spend that leaves none calls
   * AutomaticTurnEnd, which asks the scheduler to end the current unit's turn.
   */
  method SpendMomentum(amount: int) returns (spent: bool)
    modifies this`momentum, turnManager`isEndingTurn, turnManager`turnEndRequests
    ensures spent == CanSpend(old(Counters()), amount)
    ensures Counters() == Spend(old(Counters()), amount).ledger
    ensures turnManager.turnEndRequests ==
              old(turnManager.turnEndRequests) + if Spend(old(Counters()), amount).endsTurn then 1 else 0
    ensures turnManager.isEndingTurn == (old(turnManager.isEndingTurn) || Spend(old(Counters()), amount).endsTurn)
  {
    if amount <= momentum {
      momentum := momentum - amount;
      if momentum <= 0 {
        AutomaticTurnEnd();
      }
      return true;
    } else {
      return false;
    }
  }

  method GainMomentum(amount: int)
    modifies this`momentum, this`momentumGains
    ensures Counters() == Gain(old(Counters()), amount)
  {
    if momentumGains <= maxMomentumGained {
      momentum := momentum + amount;
      momentumGains := momentumGains + amount;
    }
  }

  method AutomaticTurnEnd()
    modifies turnManager`isEndingTurn, turnManager`turnEndRequests
    ensures turnManager.isEndingTurn && turnManager.turnEndRequests == old(turnManager.turnEndRequests) + 1
  {
    turnManager.EndCurrentUnitTurn();
  }
}
