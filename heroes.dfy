/** Heroes as mutable objects: the base class's state and operations, the six
    subclasses' special abilities (dispatched on the class), and the factory. */
module Heroes {
  import opened Errors
  import opened Roster
  import opened Rules

  class Hero {
    const name: string
    const kind: HeroClass
    const race: string
    const maxHealth: int
    var health: int
    var damage: int

    /** The numbers of this hero, as a value. */
    function View(): Combatant
      reads this
    {
      Combatant(kind, health, maxHealth, damage)
    }

    ghost predicate Valid()
      reads this
    {
      Sound(View())
    }

    /** A subclass constructor followed by the base constructor: class base
        statistics, race bonus added, starting at full health. */
    constructor (name: string, kind: HeroClass, race: string)
      ensures Valid() && View() == Recruit(kind, race)
      ensures this.name == name && this.race == race
    {
      var base, bonus := BaseStats(kind), RaceBonus(race);
      this.name, this.kind, this.race := name, kind, race;
      damage := base.damage + bonus.damage;
      health := base.health + bonus.health;
      maxHealth := base.health + bonus.health;
    }

    /** Takes `amount` damage; a negative amount is refused and changes nothing. */
    method TakeDamage(amount: int) returns (outcome: Outcome)
      requires Valid()
      modifies this`health
      ensures Valid()
      ensures outcome == if amount < 0 then Fail(NegativeDamage(amount)) else Pass
      ensures amount < 0 ==> health == old(health)
      ensures amount >= 0 ==> health == AfterDamage(old(health), amount)
    {
      if amount < 0 {
        return Fail(NegativeDamage(amount));
      }
      health := if health - amount > 0 then health - amount else 0;
      outcome := Pass;
    }

    /** Heals by `amount`, up to maxHealth. */
    method Heal(amount: int)
      requires Valid() && amount >= 0
      modifies this`health
      ensures Valid()
      ensures health == AfterHeal(old(health), amount, maxHealth)
      ensures health >= old(health)
    {
      health := if health + amount < maxHealth then health + amount else maxHealth;
    }

    /** The standard attack: the target takes this hero's damage. When the
        target is another hero, this hero is unchanged. */
    method Hit(target: Hero)
      requires Valid() && target.Valid()
      modifies target`health
      ensures Valid() && target.Valid()
      ensures target.health == AfterDamage(old(target.health), damage)
      ensures target != this ==> health == old(health)
    {
      var outcome := target.TakeDamage(damage);
      assert outcome == Pass;
    }

    /** Replaces the damage by `value` when it is positive; ignores it otherwise. */
    method SetDamage(value: int)
      requires Valid()
      modifies this`damage
      ensures Valid()
      ensures damage == if value > 0 then value else old(damage)
    {
      if value > 0 {
        damage := value;
      }
    }

    predicate IsAlive()
      reads this
      ensures Valid() ==> (IsAlive() <==> health != 0)
    {
      health > 0
    }

    /** The special ability of this hero's class: a striking class damages the
        target and not itself, a healing class heals itself and not the target. */
    method UseSpecial(target: Hero)
      requires Valid() && target.Valid()
      modifies this`health, target`health
      ensures Valid() && target.Valid()
      ensures SpecialOf(kind).Strike? ==>
                target.health == AfterDamage(old(target.health), SpecialOf(kind).amount) &&
                (target != this ==> health == old(health))
      ensures SpecialOf(kind).Mend? ==>
                health == AfterHeal(old(health), SpecialOf(kind).amount, maxHealth) &&
                (target != this ==> target.health == old(target.health))
    {
      match SpecialOf(kind)
      case Strike(n) =>
        var outcome := target.TakeDamage(n);
      case Mend(n) =>
        Heal(n);
    }
  }

  /** The factory: a hero of the named class and race, or an error for an
      unknown class name. */
  method CreateHero(name: string, className: string, race: string) returns (r: Result<Hero>)
    ensures r.Ok? <==> ParseClass(className).Some?
    ensures r.Err? ==> r.error == UnknownHeroClass(className)
    ensures r.Ok? ==> fresh(r.value) && r.value.Valid() && r.value.name == name && r.value.race == race
    ensures r.Ok? ==> r.value.View() == Recruit(ParseClass(className).value, race)
  {
    match ParseClass(className)
    case None =>
      r := Err(UnknownHeroClass(className));
    case Some(k) =>
      var hero := new Hero(name, k, race);
      r := Ok(hero);
  }
}
