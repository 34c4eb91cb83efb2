// AttackComponent: one attack roll resolved against a target, with its log line.

/** The rolls `Random.Range(1, DMG)` gives: 1 up to DMG - 1, and 1 when that range is empty. */
predicate DamageRoll(attackerDMG: int, roll: int)
{
  if attackerDMG > 1 then 1 <= roll < attackerDMG else roll == 1
}

/** The damage of a hit: the roll plus the attacker's damage modifier. */
function HitDamage(attacker: Character, roll: int): (damage: int)
  requires DamageRoll(attacker.DMG, roll)
  ensures attacker.DMG > 1 ==> 1 + attacker.DMGMod <= damage <= attacker.DMG - 1 + attacker.DMGMod
  ensures attacker.DMG <= 1 ==> damage == 1 + attacker.DMGMod
{
  roll + attacker.DMGMod
}

/** Whether a to-hit total hits: it must reach the target's armour class. */
predicate Hits(total: int, target: Character)
{
  total >= target.AC
}

/**
 * What an attack does to the scheduler and its log, given the target's hit points before it:
 * a hit that brings them to zero or below is a death, and then the attack line; a miss only
 * logs the miss line.
 */
function Struck(s: Schedule, attacker: Character, target: Character, total: int, damage: int, hp: int): (r: Schedule)
  ensures |r.log| > |s.log| && r.log[..|s.log|] == s.log
  ensures r.log[|r.log| - 1] == if Hits(total, target) then AttackMessage(attacker.name, target.name, total, damage)
                                else MissMessage(attacker.name, target.name, total)
  ensures r.activeUnits == s.activeUnits && r.currentUnit == s.currentUnit
  ensures r.combatRound == s.combatRound && r.currentInitiativeIndex == s.currentInitiativeIndex
  ensures r.isEndingTurn == (s.isEndingTurn || (Hits(total, target) && hp - damage <= 0 && s.currentUnit == Some(target)))
  ensures !(Hits(total, target) && hp - damage <= 0) ==> |r.log| == |s.log| + 1 && r.(log := s.log) == s
{
  if Hits(total, target) then
    var hurt := if hp - damage <= 0 then Killed(s, target) else s;
    hurt.(log := hurt.log + [AttackMessage(attacker.name, target.name, total, damage)])
  else
    s.(log := s.log + [MissMessage(attacker.name, target.name, total)])
}

/**
 * AttackPosition: a total that reaches the target's AC deals the roll plus DMGMod as damage and
 * logs the attack (the health bar follows HP unless the target died); anything lower logs a
 * miss. The attack animation plays either way.
 */
method AttackPosition(attacker: Character, target: Character, total: int, damageRoll: int)
  requires DamageRoll(attacker.DMG, damageRoll)
  requires target.turnManager == attacker.turnManager && attacker.turnManager.combatLog.Valid()
  modifies target`HP, target`shownHP, attacker`attackAnimations,
           attacker.turnManager`playerTeam, attacker.turnManager`enemyTeam, attacker.turnManager`isEndingTurn,
           attacker.turnManager`turnEndRequests, attacker.turnManager`state, attacker.turnManager.registry,
           attacker.turnManager.combatLog`history, attacker.turnManager.combatLog`entries
  ensures attacker.turnManager.combatLog.Valid()
  ensures attacker.attackAnimations == old(attacker.attackAnimations) + 1
  ensures attacker.turnManager.Snap() ==
            Struck(old(attacker.turnManager.Snap()), attacker, target, total, HitDamage(attacker, damageRoll), old(target.HP))
  ensures Hits(total, target) ==> target.HP == old(target.HP) - HitDamage(attacker, damageRoll)
  ensures Hits(total, target) ==> target.shownHP == if target.HP <= 0 then old(target.shownHP) else target.HP
  ensures !Hits(total, target) ==> target.HP == old(target.HP) && target.shownHP == old(target.shownHP)
  ensures attacker.turnManager.registry.allUnits ==
            if Hits(total, target) && target.HP <= 0 then RemoveFirst(old(attacker.turnManager.registry.allUnits), target)
            else old(attacker.turnManager.registry.allUnits)
{
  if total >= target.AC {
    LandHit(attacker, target, total, damageRoll);
  } else {
    var log := attacker.turnManager.combatLog;
    log.LogMiss(attacker.name, target.name, total);
    attacker.turnManager.Logged(MissMessage(attacker.name, target.name, total));
  }
  attacker.attackAnimations := attacker.attackAnimations + 1;
}

/**
 * The hit branch of AttackPosition: the damage is taken, then the attack line is logged. The
 * health bar shows the new HP unless the target died, when it keeps its last value.
 */
method LandHit(attacker: Character, target: Character, total: int, damageRoll: int)
  requires DamageRoll(attacker.DMG, damageRoll) && Hits(total, target)
  requires target.turnManager == attacker.turnManager && attacker.turnManager.combatLog.Valid()
  modifies target`HP, target`shownHP,
           attacker.turnManager`playerTeam, attacker.turnManager`enemyTeam, attacker.turnManager`isEndingTurn,
           attacker.turnManager`turnEndRequests, attacker.turnManager`state, attacker.turnManager.registry,
           attacker.turnManager.combatLog`history, attacker.turnManager.combatLog`entries
  ensures attacker.turnManager.combatLog.Valid()
  ensures attacker.turnManager.Snap() ==
            Struck(old(attacker.turnManager.Snap()), attacker, target, total, HitDamage(attacker, damageRoll), old(target.HP))
  ensures target.HP == old(target.HP) - HitDamage(attacker, damageRoll)
  ensures target.shownHP == if target.HP <= 0 then old(target.shownHP) else target.HP
  ensures attacker.turnManager.registry.allUnits ==
            if target.HP <= 0 then RemoveFirst(old(attacker.turnManager.registry.allUnits), target)
            else old(attacker.turnManager.registry.allUnits)
{
  var damage := damageRoll + attacker.DMGMod;
  var died := target.TakeDamage(damage);
  ghost var hurt := attacker.turnManager.Snap();
  assert hurt == if died then Killed(old(attacker.turnManager.Snap()), target) else old(attacker.turnManager.Snap());
  StruckHit(old(attacker.turnManager.Snap()), attacker, target, total, damage, old(target.HP), hurt);
  LogHit(attacker, target, total, damage);
}

/** On a hit, Struck is the schedule after the damage with the attack line added. */
lemma StruckHit(s: Schedule, attacker: Character, target: Character, total: int, damage: int, hp: int, hurt: Schedule)
  requires Hits(total, target) && hurt == if hp - damage <= 0 then Killed(s, target) else s
  ensures Struck(s, attacker, target, total, damage, hp) ==
            hurt.(log := hurt.log + [AttackMessage(attacker.name, target.name, total, damage)])
{
}

/** The attack line of a hit joins the log, and nothing else about the scheduler changes. */
method LogHit(attacker: Character, target: Character, total: int, damage: int)
  requires attacker.turnManager.combatLog.Valid()
  modifies attacker.turnManager.combatLog`history, attacker.turnManager.combatLog`entries
  ensures attacker.turnManager.combatLog.Valid()
  ensures attacker.turnManager.Snap() ==
            old(attacker.turnManager.Snap()).(log := old(attacker.turnManager.Snap()).log +
                                                     [AttackMessage(attacker.name, target.name, total, damage)])
{
  var log := attacker.turnManager.combatLog;
  log.LogAttack(attacker.name, target.name, total, damage);
  attacker.turnManager.Logged(AttackMessage(attacker.name, target.name, total, damage));
}
