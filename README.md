# RPG battle simulator, modelled in Dafny

A model of a small turn-based combat simulator (`rpg_battle.py`). Heroes of six
fixed classes (Wizard, Fighter, Cleric, Barbarian, Druid, Warlock) are built by a
factory from a class name and a race. Each hero starts from its class's base
damage and health plus its race bonus. Heroes take damage, heal, hit and use
their class's special ability, all by updating their own health in place. A
battle loop alternates the two heroes by turn parity until one of them falls.

The project has six modules:

- `Errors` (errors.dfy): the two `ValueError` conditions, plus `Option`, `Result` and `Outcome`.
- `Roster` (roster.dfy): the closed `HeroClass` datatype, the factory's class-name
  dispatch (`ParseClass`), the base-statistics table, the special-ability table and
  the race-bonus table.
- `Rules` (rules.dfy): the operations on plain values (`Combatant`), which are used
  to specify the class and the battle. This covers damage clamped at 0, healing
  capped at the maximum, the hit, the special ability, one turn's action, and a
  freshly recruited hero.
- `Heroes` (heroes.dfy): the `Hero` class. Its `health` and `damage` fields are
  updated in place by `TakeDamage`, `Heal`, `Hit`, `SetDamage` and `UseSpecial`.
  The module also holds the factory `CreateHero`.
- `Arena` (arena.dfy): the pure specification `Fight` of the battle loop, lemmas
  about it, and the imperative `Battle` method proved equal to it.
- `Scenarios` (scenarios.dfy): a client method (`UnitTestScenarios`) that derives the
  outcomes of the repository's unit tests from the class contracts alone. It also
  holds the two lemmas behind the finding below.

The random draw `random.random() < 0.7` of each turn is a parameter: a sequence of
booleans supplied by the caller, where `true` means the standard attack and `false`
the special ability.

## Model

| member | source | states |
|---|---|---|
| `Roster.ParseClass` | rpg_battle.py:137-151 | the factory accepts a name exactly when it is the name of one of the six classes, and yields that class; any other name finds no class |
| `Roster.ParseClassName` | rpg_battle.py:138-149 | every class is found again under its own name |
| `Roster.BaseStats` | rpg_battle.py:72-125 | each class's fixed base damage/health (12/80, 15/120, 10/100, 18/130, 11/100, 13/90); every class starts with damage at least 10 and health at least 80 |
| `Roster.SpecialOf` | rpg_battle.py:76-130 | the special heals its user exactly for Cleric and Druid and strikes the target for the other four; every amount is at least 20 |
| `Roster.RaceBonus` | rpg_battle.py:9-15 | race bonuses are non-negative (health at most 5, damage at most 2); a race missing from the table gives the (0, 0) bonus |
| `Rules.AfterDamage` | rpg_battle.py:35-40 | health after a non-negative amount of damage is `max(0, health - amount)`: never negative, never above the old health, and zero exactly when the amount reaches the health |
| `Rules.AfterHeal` | rpg_battle.py:44-46 | health after healing is `min(health + amount, max_health)`: never above the maximum, never below the old health, and at the maximum exactly when the amount covers the missing health |
| `Rules.Recruit` | rpg_battle.py:23-32 | a new hero has damage equal to base plus race bonus, and health equal to max_health equal to base plus race bonus; it starts sound and alive |
| `Rules.Hit` | rpg_battle.py:50-53 | the standard attack changes only the target's health, by the attacker's damage, clamped at 0; a living target strictly loses health |
| `Rules.Special` | rpg_battle.py:76-130 | a striking class changes only the target, by its fixed amount clamped at 0; a healing class changes only its own health, capped at its maximum; the actor never loses health and the target never gains |
| `Rules.Act` | rpg_battle.py:162-166 | one turn's action keeps both heroes sound, changes only health, never lowers the attacker's health or raises the defender's, and a standard attack leaves the attacker untouched |
| `Heroes.Hero.constructor` | rpg_battle.py:23-32 | a subclass constructor: the new hero is the recruited value of its class and race, with its name and race |
| `Heroes.Hero.TakeDamage` | rpg_battle.py:35-40 | a negative amount fails with `NegativeDamage` and leaves health unchanged; otherwise health becomes `max(0, health - amount)`, within `[0, max_health]` |
| `Heroes.Hero.Heal` | rpg_battle.py:44-46 | health becomes `min(health + amount, max_health)` and does not decrease |
| `Heroes.Hero.Hit` | rpg_battle.py:50-53 | the target's health becomes `max(0, health - attacker.damage)`; the attacker is unchanged when it is not its own target |
| `Heroes.Hero.SetDamage` | rpg_battle.py:55-57 | damage becomes the value when it is positive and is otherwise unchanged; health is never touched |
| `Heroes.Hero.IsAlive` | rpg_battle.py:60-61 | for a sound hero, alive means not at zero health |
| `Heroes.Hero.UseSpecial` | rpg_battle.py:76-130 | striking classes damage the target by their fixed amount clamped at 0 and leave themselves unchanged; Cleric and Druid heal themselves by 25 and 20 capped at max_health and leave the target unchanged; this also holds when a hero targets itself |
| `Heroes.CreateHero` | rpg_battle.py:137-151 | succeeds exactly for the six class names, giving a fresh sound hero with the class's base stats plus the race bonus; any other name fails with `UnknownHeroClass` |
| `Arena.Fight` | rpg_battle.py:157-172 | the battle, from a given turn, over the given draws; it keeps both heroes sound and changes nothing but their health |
| `Arena.FightVictory` | rpg_battle.py:158-170 | a victory on turn `t` goes to the side attacking on `t` (the first hero when `t` is even); `t` is one of the turns played; the loser is at 0 health and the winner is alive |
| `Arena.FightUnfought` | rpg_battle.py:158 | the loop ends through its condition (with no winner) exactly when a hero is already down at the start |
| `Arena.FightUndecided` | rpg_battle.py:158-172 | when the draws run out without a victory, both heroes are still alive |
| `Arena.HitsToFell` | rpg_battle.py:40 | the number of hits of a given damage that bring a health to zero: the least `n` with `health <= n * damage` |
| `Arena.AttacksWinner` | rpg_battle.py:157-172 | with standard attacks only, the side needing fewer hits wins (the first hero on a tie), on the turn of its last hit, provided the draws last that long |
| `Arena.FighterFallsToBarbarian` | rpg_battle.py:157-172 | with standard attacks only, a 120/15 Fighter moving first falls on turn 13 to a 130/18 Barbarian, who is still alive |
| `Arena.TakeTurn` | rpg_battle.py:162-166 | one turn's action on two distinct heroes updates them exactly as `Act` says |
| `Arena.Battle` | rpg_battle.py:154-172 | the loop alternates attacker and defender by turn parity and leaves both heroes and the verdict exactly as `Fight` gives them from turn 0 |
| `Scenarios.HealScenarioAsWritten` | test_rpg_battle.py:15-19 | a Half-Elf Cleric at 10 health healed by 50 ends at 60, below its maximum of 100 |
| `Scenarios.HealScenarioIntended` | test_rpg_battle.py:15-19 | healing a sound hero by at least its missing health brings it exactly to its maximum |

## Left out

- Console narration (every `print`) is left out. It has no effect on any hero's state.
- `random.random()` is replaced by the caller's sequence of draws. Probabilities and floating point are not modelled.
- Arena.Battle: bounded by the length of the draw sequence. When the draws run out with both heroes alive, it stops with the verdict `Undecided`. The original loop has no turn limit and need not terminate: two self-healing heroes can outlast each other.
- Arena.Battle: requires two distinct hero objects. A battle of a hero against itself (aliasing) is not modelled.
- Heroes.Hero.Heal: requires a non-negative amount. The original does not guard it, and every caller passes 20, 25 or a positive test value.
- The abstract-base-class machinery, `__repr__` and the example wiring under `__main__` are not modelled.
- The base constructor is modelled only as each subclass calls it, with that class's fixed base damage and health. The class name is kept as a `HeroClass` value rather than a string.
- Heroes.Hero.Hit: requires the attacker to be sound. Its damage is then at least 1, so the target's `take_damage` never raises. Every hero the factory builds is sound, and every operation keeps it so.
- Python integers are unbounded, like Dafny's `int`, so there is no overflow to model.

## Findings

| source | as written | input that shows it | evidently intended | confidence | as-written member | corrected member |
|---|---|---|---|---|---|---|
| test_rpg_battle.py:15-19 | sets a Half-Elf Cleric to 10 health, heals 50 and expects health == max_health | max_health is 100 (Cleric base 100, Half-Elf health bonus 0), and min(10 + 50, 100) = 60, so the expectation fails | a heal that overshoots the maximum, e.g. healing by at least 90 from 10, which ends exactly at max_health | high (not executed) | `Scenarios.HealScenarioAsWritten` | `Scenarios.HealScenarioIntended` |
