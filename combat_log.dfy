// The combat log panel: a list of message lines, oldest first, capped at a maximum count.

/** The decimal digit `d` as a character. */
function DigitChar(d: int): (c: char)
  requires 0 <= d < 10
  ensures '0' <= c <= '9' && c as int - '0' as int == d
{
  "0123456789"[d]
}

predicate AllDigits(s: string)
{
  forall i | 0 <= i < |s| :: '0' <= s[i] <= '9'
}

/** C#'s decimal rendering of a non-negative int: no sign, no leading zeros. */
function NatToString(n: nat): (s: string)
  ensures |s| > 0 && AllDigits(s)
  ensures s[0] == '0' ==> n == 0
  decreases n
{
  if n < 10 then [DigitChar(n)] else NatToString(n / 10) + [DigitChar(n % 10)]
}

/** C#'s decimal rendering of an int: a leading minus sign for negative values. */
function IntToString(n: int): (s: string)
  ensures |s| > 0
{
  if n < 0 then "-" + NatToString(-n) else NatToString(n)
}

/** The number a string of decimal digits denotes. */
function DigitsValue(s: string): nat
  requires AllDigits(s)
{
  if |s| == 0 then 0 else DigitsValue(s[..|s| - 1]) * 10 + (s[|s| - 1] as int - '0' as int)
}

/** Reading back the rendered digits gives the number. */
lemma {:induction false} NatToStringRoundTrip(n: nat)
  ensures DigitsValue(NatToString(n)) == n
{
  if n >= 10 {
    var s := NatToString(n);
    assert s[..|s| - 1] == NatToString(n / 10);
    NatToStringRoundTrip(n / 10);
  }
}

/** Reading back a rendered int, sign included, gives the int. */
lemma IntToStringRoundTrip(n: int)
  ensures var s := IntToString(n);
          |s| > 0 &&
          (n < 0 <==> s[0] == '-') &&
          (s[0] == '-' ==> AllDigits(s[1..]) && DigitsValue(s[1..]) == -n) &&
          (s[0] != '-' ==> AllDigits(s) && DigitsValue(s) == n)
{
  var s := IntToString(n);
  if n < 0 {
    assert s[1..] == NatToString(-n);
    NatToStringRoundTrip(-n);
  } else {
    NatToStringRoundTrip(n);
  }
}

/** What is left of `entries` once the oldest are dropped to keep at most `cap` of them. */
function Trimmed(entries: seq<string>, cap: nat): (r: seq<string>)
  ensures |r| == if |entries| > cap then cap else |entries|
  ensures r == entries[|entries| - |r|..]
{
  if |entries| > cap then entries[|entries| - cap..] else entries
}

/** After adding, the newest message is last and the count is min(old + 1, cap). */
lemma AddKeepsNewest(entries: seq<string>, message: string, cap: nat)
  requires cap >= 1
  ensures var r := Trimmed(entries + [message], cap);
          |r| == (if |entries| + 1 < cap then |entries| + 1 else cap) &&
          r[|r| - 1] == message &&
          r[..|r| - 1] == entries[|entries| + 1 - |r|..]
{
  var r := Trimmed(entries + [message], cap);
  assert r[..|r| - 1] == (entries + [message])[|entries| + 1 - |r|..|entries|];
}

/** Trimming a suffix that still holds the newest `cap` lines is trimming the whole. */
lemma TrimmedSuffix(x: seq<string>, k: nat, cap: nat)
  requires k <= |x| && |x| - k >= (if |x| > cap then cap else |x|)
  ensures Trimmed(x[k..], cap) == Trimmed(x, cap)
{
  var m := if |x| > cap then cap else |x|;
  assert x[k..][|x| - k - m..] == x[|x| - m..];
}

/** Trimming after every line is trimming once: the log is always the newest `cap` lines of all it was given. */
lemma TrimmedSnoc(history: seq<string>, message: string, cap: nat)
  ensures Trimmed(Trimmed(history, cap) + [message], cap) == Trimmed(history + [message], cap)
{
  var all := history + [message];
  var t := Trimmed(history, cap);
  assert t + [message] == all[|history| - |t|..];
  TrimmedSuffix(all, |history| - |t|, cap);
}

/** Two batches logged one after the other are one batch logged at once. */
lemma ConcatAssoc<T>(a: seq<T>, b: seq<T>, c: seq<T>)
  ensures a + b + c == a + (b + c)
{
}

function AttackMessage(attackerName: string, targetName: string, rollValue: int, damage: int): string
{
  "[" + attackerName + "] attacked [" + targetName + "] and rolled [" + IntToString(rollValue) +
  "]. [" + targetName + "] took [" + IntToString(damage) + "] damage."
}

function MissMessage(attackerName: string, targetName: string, rollValue: int): string
{
  "[" + attackerName + "] attacked [" + targetName + "] and rolled [" + IntToString(rollValue) + "]. Attack missed!"
}

function CriticalHitMessage(attackerName: string, targetName: string, rollValue: int, damage: int): string
{
  "[" + attackerName + "] critically hit [" + targetName + "] with a roll of [" + IntToString(rollValue) +
  "]! [" + targetName + "] took [" + IntToString(damage) + "] damage!"
}

function HealMessage(healerName: string, targetName: string, healAmount: int): string
{
  "[" + healerName + "] healed [" + targetName + "] for [" + IntToString(healAmount) + "] HP."
}

function StatusEffectMessage(casterName: string, targetName: string, effectName: string): string
{
  "[" + casterName + "] applied [" + effectName + "] to [" + targetName + "]."
}

function UnitDeathMessage(unitName: string): string
{
  "[" + unitName + "] has been defeated!"
}

function TurnStartMessage(unitName: string): string
{
  "--- [" + unitName + "]'s turn begins ---"
}

function RoundStartMessage(roundNumber: int): string
{
  "=== Starting Round " + IntToString(roundNumber) + " START ==="
}

const BattleStartMessage: string := "=== BATTLE STARTED ==="

function BattleEndMessage(winner: string): string
{
  "=== BATTLE ENDED - [" + winner + "] VICTORIOUS ==="
}

class CombatLog
{
  /** The text of each entry object, oldest first. */
  var entries: seq<string>
  /** Every line added since the log was created or last cleared, oldest first. */
  ghost var history: seq<string>
  var maxLogEntries: nat
  var isExpanded: bool
  /** Whether the log panel is shown. */
  var panelVisible: bool

  /** Awake: `isExpanded` starts true, but the panel is set to its negation and so starts hidden. */
  constructor()
    ensures entries == [] && history == [] && maxLogEntries == 100 && Valid()
    ensures isExpanded && !panelVisible
  {
    entries, history := [], [];
    maxLogEntries := 100;
    isExpanded := true;
    new;
    panelVisible := !isExpanded;
  }

  /** The entries are the newest `maxLogEntries` lines of the history. */
  ghost predicate Valid()
    reads this
  {
    entries == Trimmed(history, maxLogEntries)
  }

  method ToggleLog()
    modifies this`isExpanded, this`panelVisible
    ensures isExpanded == !old(isExpanded) && panelVisible == isExpanded
  {
    isExpanded := !isExpanded;
    panelVisible := isExpanded;
  }

  /** Appends a line, then drops lines from the front while there are more than `maxLogEntries`. */
  method AddLogEntry(message: string)
    requires Valid()
    modifies this`entries, this`history
    ensures entries == Trimmed(old(entries) + [message], maxLogEntries)
    ensures history == old(history) + [message] && Valid()
  {
    TrimmedSnoc(history, message, maxLogEntries);
    entries := entries + [message];
    DropOldest();
    history := history + [message];
  }

  /** The trimming loop of AddLogEntry. */
  method DropOldest()
    modifies this`entries
    ensures entries == Trimmed(old(entries), maxLogEntries)
  {
    while |entries| > maxLogEntries
      invariant |entries| >= (if |old(entries)| > maxLogEntries then maxLogEntries else |old(entries)|)
      invariant |entries| <= |old(entries)| && entries == old(entries)[|old(entries)| - |entries|..]
    {
      entries := entries[1..];
    }
  }

  method ClearLog()
    modifies this`entries, this`history
    ensures entries == [] && history == [] && Valid()
  {
    entries, history := [], [];
  }

  method LogAttack(attackerName: string, targetName: string, rollValue: int, damage: int)
    requires Valid()
    modifies this`entries, this`history
    ensures history == old(history) + [AttackMessage(attackerName, targetName, rollValue, damage)] && Valid()
  {
    AddLogEntry(AttackMessage(attackerName, targetName, rollValue, damage));
  }

  method LogMiss(attackerName: string, targetName: string, rollValue: int)
    requires Valid()
    modifies this`entries, this`history
    ensures history == old(history) + [MissMessage(attackerName, targetName, rollValue)] && Valid()
  {
    AddLogEntry(MissMessage(attackerName, targetName, rollValue));
  }

  method LogCriticalHit(attackerName: string, targetName: string, rollValue: int, damage: int)
    requires Valid()
    modifies this`entries, this`history
    ensures history == old(history) + [CriticalHitMessage(attackerName, targetName, rollValue, damage)] && Valid()
  {
    AddLogEntry(CriticalHitMessage(attackerName, targetName, rollValue, damage));
  }

  method LogHeal(healerName: string, targetName: string, healAmount: int)
    requires Valid()
    modifies this`entries, this`history
    ensures history == old(history) + [HealMessage(healerName, targetName, healAmount)] && Valid()
  {
    AddLogEntry(HealMessage(healerName, targetName, healAmount));
  }

  method LogStatusEffect(casterName: string, targetName: string, effectName: string)
    requires Valid()
    modifies this`entries, this`history
    ensures history == old(history) + [StatusEffectMessage(casterName, targetName, effectName)] && Valid()
  {
    AddLogEntry(StatusEffectMessage(casterName, targetName, effectName));
  }

  method LogUnitDeath(unitName: string)
    requires Valid()
    modifies this`entries, this`history
    ensures history == old(history) + [UnitDeathMessage(unitName)] && Valid()
  {
    AddLogEntry(UnitDeathMessage(unitName));
  }

  method LogTurnStart(unitName: string)
    requires Valid()
    modifies this`entries, this`history
    ensures history == old(history) + [TurnStartMessage(unitName)] && Valid()
  {
    AddLogEntry(TurnStartMessage(unitName));
  }

  method LogRoundStart(roundNumber: int)
    requires Valid()
    modifies this`entries, this`history
    ensures history == old(history) + [RoundStartMessage(roundNumber)] && Valid()
  {
    AddLogEntry(RoundStartMessage(roundNumber));
  }

  method LogBattleStart()
    requires Valid()
    modifies this`entries, this`history
    ensures history == old(history) + [BattleStartMessage] && Valid()
  {
    AddLogEntry(BattleStartMessage);
  }

  method LogBattleEnd(winner: string)
    requires Valid()
    modifies this`entries, this`history
    ensures history == old(history) + [BattleEndMessage(winner)] && Valid()
  {
    AddLogEntry(BattleEndMessage(winner));
  }
}
