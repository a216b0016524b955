/** The fixed tables of the simulator: the six hero classes with their base
    statistics and special abilities, and the race-bonus table. */
module Roster {
  import opened Errors

  /** The closed set of hero classes (the six subclasses of `Hero`). */
  datatype HeroClass = Wizard | Fighter | Cleric | Barbarian | Druid | Warlock

  /** The name under which the factory knows a class. */
  function ClassName(k: HeroClass): string
  {
    match k
    case Wizard => "Wizard"
    case Fighter => "Fighter"
    case Cleric => "Cleric"
    case Barbarian => "Barbarian"
    case Druid => "Druid"
    case Warlock => "Warlock"
  }

  /** The factory's dispatch on a class name: the six known names, and nothing else. */
  function ParseClass(name: string): (r: Option<HeroClass>)
    ensures r.Some? ==> ClassName(r.value) == name
    ensures r.None? ==> forall k :: ClassName(k) != name
  {
    if name == "Wizard" then Some(Wizard)
    else if name == "Fighter" then Some(Fighter)
    else if name == "Cleric" then Some(Cleric)
    else if name == "Barbarian" then Some(Barbarian)
    else if name == "Druid" then Some(Druid)
    else if name == "Warlock" then Some(Warlock)
    else None
  }

  /** Every class is found again under its own name. */
  lemma ParseClassName(k: HeroClass)
    ensures ParseClass(ClassName(k)) == Some(k)
  {
  }

  /** Starting health and damage of a class, before any race bonus. */
  datatype Stats = Stats(damage: int, health: int)

  function BaseStats(k: HeroClass): (s: Stats)
    ensures s.damage >= 10 && s.health >= 80
  {
    match k
    case Wizard => Stats(12, 80)
    case Fighter => Stats(15, 120)
    case Cleric => Stats(10, 100)
    case Barbarian => Stats(18, 130)
    case Druid => Stats(11, 100)
    case Warlock => Stats(13, 90)
  }

  /** A special ability either strikes the target or heals its user, by a fixed amount. */
  datatype Ability = Strike(amount: nat) | Mend(amount: nat)

  function SpecialOf(k: HeroClass): (a: Ability)
    ensures a.Mend? <==> k == Cleric || k == Druid
    ensures a.amount >= 20
  {
    match k
    case Wizard => Strike(25)     // Fireball
    case Fighter => Strike(20)    // Power Strike
    case Cleric => Mend(25)       // Divine Blessing
    case Barbarian => Strike(30)  // Rage
    case Druid => Mend(20)        // transformation
    case Warlock => Strike(22)    // Eldritch Blast
  }

  /** Additive bonus a race grants at creation. */
  datatype Bonus = Bonus(health: int, damage: int)

  const NoBonus := Bonus(0, 0)

  const RaceBonuses: map<string, Bonus> := map[
    "Human" := Bonus(5, 1),
    "Elf" := Bonus(0, 2),
    "Half-Elf" := Bonus(0, 1),
    "Tiefling" := Bonus(0, 2),
    "Githyanki" := Bonus(0, 0)
  ]

  /** The bonus of a race; a race missing from the table is not an error and gets none. */
  function RaceBonus(race: string): (b: Bonus)
    ensures 0 <= b.health <= 5 && 0 <= b.damage <= 2
    ensures race !in RaceBonuses ==> b == NoBonus
  {
    if race in RaceBonuses then RaceBonuses[race] else NoBonus
  }
}
