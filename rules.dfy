/** The rules of combat on plain values: what each hero operation does to the
    numbers of the heroes involved. The `Hero` class performs these updates in
    place; the battle specification is written with them. */
module Rules {
  import opened Roster

  /** The numeric state of a hero, with its class. */
  datatype Combatant = Combatant(kind: HeroClass, health: int, maxHealth: int, damage: int)

  /** The hero invariant: health within [0, maxHealth], and a positive damage. */
  predicate Sound(c: Combatant)
  {
    0 <= c.health <= c.maxHealth && c.damage >= 1
  }

  predicate Alive(c: Combatant)
  {
    c.health > 0
  }

  /** Health after take_damage of a non-negative amount: reduced, but never below zero. */
  function AfterDamage(health: int, amount: int): (h: int)
    requires amount >= 0
    ensures h >= 0 && h >= health - amount
    ensures h == 0 || h == health - amount
    ensures h == 0 <==> health <= amount
    ensures health >= 0 ==> h <= health
  {
    if health - amount > 0 then health - amount else 0
  }

  /** Health after heal of a non-negative amount: raised, but never above maxHealth. */
  function AfterHeal(health: int, amount: int, maxHealth: int): (h: int)
    requires amount >= 0
    ensures h <= maxHealth && h <= health + amount
    ensures h == maxHealth || h == health + amount
    ensures health <= maxHealth ==> health <= h
    ensures h == maxHealth <==> health + amount >= maxHealth
  {
    if health + amount < maxHealth then health + amount else maxHealth
  }

  /** A hero as the factory builds it: class base statistics plus the race bonus. */
  function Recruit(k: HeroClass, race: string): (c: Combatant)
    ensures c.kind == k
    ensures c.health == c.maxHealth
    ensures c.damage == BaseStats(k).damage + RaceBonus(race).damage
    ensures c.maxHealth == BaseStats(k).health + RaceBonus(race).health
    ensures race !in RaceBonuses ==> c.damage == BaseStats(k).damage && c.maxHealth == BaseStats(k).health
    ensures Sound(c) && Alive(c)
  {
    var base, bonus := BaseStats(k), RaceBonus(race);
    Combatant(k, base.health + bonus.health, base.health + bonus.health, base.damage + bonus.damage)
  }

  /** The standard attack: the target takes the attacker's damage. */
  function Hit(attacker: Combatant, target: Combatant): (t: Combatant)
    requires Sound(attacker)
    ensures t == target.(health := t.health)
    ensures t.health == AfterDamage(target.health, attacker.damage)
    ensures Sound(target) ==> Sound(t) && t.health <= target.health
    ensures Alive(target) ==> t.health < target.health
  {
    target.(health := AfterDamage(target.health, attacker.damage))
  }

  /** The special ability of the actor's class, on (actor, target). A striking
      class leaves itself unchanged; a healing class leaves the target unchanged. */
  function Special(actor: Combatant, target: Combatant): (r: (Combatant, Combatant))
    ensures r.0 == actor.(health := r.0.health) && r.1 == target.(health := r.1.health)
    ensures SpecialOf(actor.kind).Strike? ==>
              r.0 == actor && r.1.health == AfterDamage(target.health, SpecialOf(actor.kind).amount)
    ensures SpecialOf(actor.kind).Mend? ==>
              r.1 == target && r.0.health == AfterHeal(actor.health, SpecialOf(actor.kind).amount, actor.maxHealth)
    ensures Sound(actor) ==> Sound(r.0) && actor.health <= r.0.health
    ensures Sound(target) ==> Sound(r.1) && r.1.health <= target.health
  {
    match SpecialOf(actor.kind)
    case Strike(n) => (actor, target.(health := AfterDamage(target.health, n)))
    case Mend(n) => (actor.(health := AfterHeal(actor.health, n, actor.maxHealth)), target)
  }

  /** One action of a turn: the standard attack when `attack` holds, the special otherwise. */
  function Act(attacker: Combatant, defender: Combatant, attack: bool): (r: (Combatant, Combatant))
    requires Sound(attacker) && Sound(defender)
    ensures Sound(r.0) && Sound(r.1)
    ensures r.0 == attacker.(health := r.0.health) && r.1 == defender.(health := r.1.health)
    ensures attacker.health <= r.0.health && r.1.health <= defender.health
    ensures attack ==> r.0 == attacker
  {
    if attack then (attacker, Hit(attacker, defender)) else Special(attacker, defender)
  }
}
