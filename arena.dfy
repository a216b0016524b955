/** The battle loop. The random draw of each turn (a standard attack with
    probability 0.7, the special ability otherwise) is supplied by the caller
    as a sequence of choices, `true` standing for the standard attack; the
    loop stops when the choices run out. */
module Arena {
  import opened Roster
  import opened Rules
  import opened Heroes

  datatype Side = First | Second

  /** How a battle ended: a victory on some turn; no battle, because a hero
      was already down when the loop condition was tested; or undecided,
      because the choices ran out with both heroes standing. */
  datatype Verdict = Victory(winner: Side, turn: nat) | Unfought | Undecided

  /** The two heroes after the battle, and how it ended. */
  datatype Aftermath = Aftermath(first: Combatant, second: Combatant, verdict: Verdict)

  /** The side that attacks on a turn: the first hero on even turns. */
  function AttackerOn(turn: nat): Side
  {
    if turn % 2 == 0 then First else Second
  }

  /** The battle from `turn` on, with `choices` the draws of the remaining
      turns. It keeps both heroes sound and changes nothing but their health. */
  function Fight(a: Combatant, b: Combatant, choices: seq<bool>, turn: nat): (r: Aftermath)
    requires Sound(a) && Sound(b)
    ensures Sound(r.first) && Sound(r.second)
    ensures r.first == a.(health := r.first.health) && r.second == b.(health := r.second.health)
    decreases |choices|
  {
    if !(Alive(a) && Alive(b)) then Aftermath(a, b, Unfought)
    else if |choices| == 0 then Aftermath(a, b, Undecided)
    else
      var firstAttacks := AttackerOn(turn) == First;
      var (attacker, defender) := if firstAttacks then (a, b) else (b, a);
      var (attacker', defender') := Act(attacker, defender, choices[0]);
      var (a', b') := if firstAttacks then (attacker', defender') else (defender', attacker');
      if !Alive(defender') then Aftermath(a', b', Victory(AttackerOn(turn), turn))
      else Fight(a', b', choices[1..], turn + 1)
  }

  /** A victory is won by the side attacking on that turn, on one of the turns
      played, and leaves the loser at zero health and the winner alive. */
  lemma {:induction false} FightVictory(a: Combatant, b: Combatant, choices: seq<bool>, turn: nat)
    requires Sound(a) && Sound(b)
    ensures var r := Fight(a, b, choices, turn);
      r.verdict.Victory? ==>
        r.verdict.winner == AttackerOn(r.verdict.turn) &&
        turn <= r.verdict.turn < turn + |choices| &&
        (r.verdict.winner == First ==> Alive(r.first) && r.second.health == 0) &&
        (r.verdict.winner == Second ==> Alive(r.second) && r.first.health == 0)
    decreases |choices|
  {
    if Alive(a) && Alive(b) && |choices| > 0 {
      var firstAttacks := AttackerOn(turn) == First;
      var (attacker, defender) := if firstAttacks then (a, b) else (b, a);
      var (attacker', defender') := Act(attacker, defender, choices[0]);
      var (a', b') := if firstAttacks then (attacker', defender') else (defender', attacker');
      if Alive(defender') {
        FightVictory(a', b', choices[1..], turn + 1);
      }
    }
  }

  /** The loop condition fails only on entry: a battle goes unfought exactly
      when a hero is already down at the start. */
  lemma {:induction false} FightUnfought(a: Combatant, b: Combatant, choices: seq<bool>, turn: nat)
    requires Sound(a) && Sound(b)
    ensures Fight(a, b, choices, turn).verdict == Unfought <==> !(Alive(a) && Alive(b))
    decreases |choices|
  {
    if Alive(a) && Alive(b) && |choices| > 0 {
      var firstAttacks := AttackerOn(turn) == First;
      var (attacker, defender) := if firstAttacks then (a, b) else (b, a);
      var (attacker', defender') := Act(attacker, defender, choices[0]);
      var (a', b') := if firstAttacks then (attacker', defender') else (defender', attacker');
      if Alive(defender') {
        FightUnfought(a', b', choices[1..], turn + 1);
      }
    }
  }

  /** An undecided battle leaves both heroes standing. */
  lemma {:induction false} FightUndecided(a: Combatant, b: Combatant, choices: seq<bool>, turn: nat)
    requires Sound(a) && Sound(b)
    ensures var r := Fight(a, b, choices, turn);
      r.verdict == Undecided ==> Alive(r.first) && Alive(r.second)
    decreases |choices|
  {
    if Alive(a) && Alive(b) && |choices| > 0 {
      var firstAttacks := AttackerOn(turn) == First;
      var (attacker, defender) := if firstAttacks then (a, b) else (b, a);
      var (attacker', defender') := Act(attacker, defender, choices[0]);
      var (a', b') := if firstAttacks then (attacker', defender') else (defender', attacker');
      if Alive(defender') {
        FightUndecided(a', b', choices[1..], turn + 1);
      }
    }
  }

  /** The number of standard attacks of `damage` that bring a hero of
      `health` down to zero. */
  function HitsToFell(health: int, damage: int): (n: nat)
    requires damage >= 1
    ensures n >= 1
    ensures health <= n * damage
    ensures health > 0 ==> (n - 1) * damage < health
    decreases health
  {
    if health <= damage then 1 else 1 + HitsToFell(health - damage, damage)
  }

  /** With standard attacks only, from a turn on which the first hero moves:
      the side that needs fewer of its own attacks wins, the first hero on a
      tie, on the turn of that side's last attack, provided the choices last
      until that turn. */
  lemma {:induction false} AttacksWinner(a: Combatant, b: Combatant, choices: seq<bool>, turn: nat)
    requires Sound(a) && Sound(b) && Alive(a) && Alive(b) && turn % 2 == 0
    requires forall i :: 0 <= i < |choices| ==> choices[i]
    requires var na, nb := HitsToFell(b.health, a.damage), HitsToFell(a.health, b.damage);
      |choices| >= if na <= nb then 2 * na - 1 else 2 * nb
    ensures var na, nb := HitsToFell(b.health, a.damage), HitsToFell(a.health, b.damage);
      Fight(a, b, choices, turn).verdict ==
        if na <= nb then Victory(First, turn + 2 * na - 2) else Victory(Second, turn + 2 * nb - 1)
    decreases |choices|
  {
    var b1 := Hit(a, b);
    if Alive(b1) {
      assert Fight(a, b, choices, turn) == Fight(a, b1, choices[1..], turn + 1);
      var a1 := Hit(b1, a);
      if Alive(a1) {
        assert Fight(a, b1, choices[1..], turn + 1) == Fight(a1, b1, choices[2..], turn + 2);
        AttacksWinner(a1, b1, choices[2..], turn + 2);
      }
    }
  }

  /** With standard attacks only, a Fighter (120 health, 15 damage) moving
      first falls to a Barbarian (130 health, 18 damage) on turn 13. */
  lemma FighterFallsToBarbarian()
    ensures var fighter, barbarian := Recruit(Fighter, "Githyanki"), Recruit(Barbarian, "Githyanki");
      var r := Fight(fighter, barbarian, seq(14, _ => true), 0);
      r.verdict == Victory(Second, 13) && r.first.health == 0 && r.second.health > 0
  {
    var fighter, barbarian := Recruit(Fighter, "Githyanki"), Recruit(Barbarian, "Githyanki");
    assert HitsToFell(barbarian.health, fighter.damage) == 9;
    assert HitsToFell(fighter.health, barbarian.damage) == 7;
    AttacksWinner(fighter, barbarian, seq(14, _ => true), 0);
    FightVictory(fighter, barbarian, seq(14, _ => true), 0);
  }

  /** One turn's action: the standard attack when `attack` holds, the
      attacker's special ability otherwise. */
  method TakeTurn(attacker: Hero, defender: Hero, attack: bool)
    requires attacker != defender
    requires attacker.Valid() && defender.Valid()
    modifies attacker, defender
    ensures attacker.Valid() && defender.Valid()
    ensures (attacker.View(), defender.View()) == Act(old(attacker.View()), old(defender.View()), attack)
  {
    if attack {
      attacker.Hit(defender);
    } else {
      attacker.UseSpecial(defender);
    }
  }

  /** The battle loop on two distinct heroes. The heroes end as the
      specification `Fight` says, from turn 0 with all the choices. */
  method Battle(hero1: Hero, hero2: Hero, choices: seq<bool>) returns (verdict: Verdict)
    requires hero1 != hero2
    requires hero1.Valid() && hero2.Valid()
    modifies hero1, hero2
    ensures hero1.Valid() && hero2.Valid()
    ensures var r := Fight(old(hero1.View()), old(hero2.View()), choices, 0);
      hero1.View() == r.first && hero2.View() == r.second && verdict == r.verdict
  {
    ghost var outcome := Fight(hero1.View(), hero2.View(), choices, 0);
    var turn := 0;
    verdict := Unfought;
    while hero1.IsAlive() && hero2.IsAlive()
      invariant hero1.Valid() && hero2.Valid()
      invariant 0 <= turn <= |choices|
      invariant Fight(hero1.View(), hero2.View(), choices[turn..], turn) == outcome
      invariant verdict == Unfought
      decreases |choices| - turn
    {
      if turn == |choices| {
        verdict := Undecided;
        break;
      }
      var attacker := if turn % 2 == 0 then hero1 else hero2;
      var defender := if turn % 2 == 0 then hero2 else hero1;
      TakeTurn(attacker, defender, choices[turn]);
      if !defender.IsAlive() {
        verdict := Victory(AttackerOn(turn), turn);
        break;
      }
      turn := turn + 1;
    }
  }
}
