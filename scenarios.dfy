/** A client of the hero operations: the scenarios of the unit tests, whose
    outcomes follow from the contracts of `Heroes` alone. */
module Scenarios {
  import opened Errors
  import opened Roster
  import opened Rules
  import opened Heroes

  method UnitTestScenarios()
  {
    // A Wizard's standard attack on a Fighter costs the Fighter the Wizard's damage.
    var gale := CreateHero("Gale", "Wizard", "Elf");
    var laezel := CreateHero("Laezel", "Fighter", "Githyanki");
    assert gale.Ok? && laezel.Ok?;
    var initial := laezel.value.health;
    gale.value.Hit(laezel.value);
    assert laezel.value.health == if initial - gale.value.damage > 0 then initial - gale.value.damage else 0;
    assert gale.value.damage == 14 && laezel.value.health == 106;

    // Healing a Cleric at 10 health by 50 stops at 60, short of its maximum of 100
    // (see HealScenarioAsWritten).
    var shadow := CreateHero("Shadowheart", "Cleric", "Half-Elf");
    assert shadow.Ok?;
    shadow.value.health := 10;
    shadow.value.Heal(50);
    assert shadow.value.health == 60 < shadow.value.maxHealth == 100;

    // A Cleric's special, aimed at itself, does not lower its health.
    var cleric := CreateHero("Shadowheart", "Cleric", "Half-Elf");
    assert cleric.Ok?;
    var before := cleric.value.health;
    cleric.value.UseSpecial(cleric.value);
    assert cleric.value.health >= before;

    // A race outside the table gives no bonus; a non-positive damage is ignored.
    var fighter := CreateHero("Nameless", "Fighter", "Dwarf");
    assert fighter.Ok?;
    assert fighter.value.damage == 15 && fighter.value.health == fighter.value.maxHealth == 120;
    fighter.value.SetDamage(0);
    fighter.value.SetDamage(-5);
    assert fighter.value.damage == 15;

    // An unknown class name is refused.
    var nobody := CreateHero("Nobody", "Bard", "Human");
    assert nobody == Err(UnknownHeroClass("Bard"));
  }

  /** The healing scenario as the unit test sets it up: a Half-Elf Cleric
      brought to 10 health and healed by 50 ends at 60, not at its maximum
      of 100 that the test expects. */
  lemma HealScenarioAsWritten()
    ensures var shadow := Recruit(Cleric, "Half-Elf");
      shadow.maxHealth == 100 && AfterHeal(10, 50, shadow.maxHealth) == 60
  {
  }

  /** What the scenario evidently means to check: healing by at least the
      missing health fills a hero exactly to its maximum, never past it. */
  lemma HealScenarioIntended(c: Combatant, amount: int)
    requires Sound(c) && amount >= c.maxHealth - c.health && amount >= 0
    ensures AfterHeal(c.health, amount, c.maxHealth) == c.maxHealth
  {
  }
}
