/** The battle arena of meal_max (`BattleModel`): a staging list of at most
    two meals, the battle score of a meal, and the battle that keeps the
    winner staged and records the result of each side in the catalogue. */
module Battle {
  import opened Wrappers
  import opened Kitchen

  /** The `ValueError`s of BattleModel; each comment gives the message. */
  datatype BattleError =
    | CombatantListFull          // Combatant list is full, cannot add more combatants.
    | NotEnoughCombatants        // Two combatants must be prepped for a battle.
    | StoreError(cause: Error)   // raised by update_meal_stats and passed on

  /** What get_battle_score subtracts for a difficulty: 2 for MED, 3 for
      LOW; `high` is the amount for HIGH. */
  function DifficultyModifier(d: Difficulty, high: real): (r: real)
    ensures d == LOW ==> r == 3.0
    ensures d == MED ==> r == 2.0
    ensures d == HIGH ==> r == high
  {
    match d
    case LOW => 3.0
    case MED => 2.0
    case HIGH => high
  }

  /** get_battle_score: price times the length of the cuisine name, less the
      difficulty modifier; for LOW and MED that is between 3 and 2 below the
      price-weighted length. */
  function BattleScore(m: Meal, high: real): (s: real)
    ensures m.difficulty != HIGH ==>
              m.price * (|m.cuisine| as real) - 3.0 <= s <= m.price * (|m.cuisine| as real) - 2.0
    ensures m.difficulty == HIGH ==> s + high == m.price * (|m.cuisine| as real)
  {
    m.price * (|m.cuisine| as real) - DifficultyModifier(m.difficulty, high)
  }

  /** The score depends on price, cuisine length and difficulty alone, not on
      the id or the name. */
  lemma BattleScoreDependsOnlyOnDish(m1: Meal, m2: Meal, high: real)
    requires m1.price == m2.price && |m1.cuisine| == |m2.cuisine| && m1.difficulty == m2.difficulty
    ensures BattleScore(m1, high) == BattleScore(m2, high)
  {
  }

  /** Sushi at 3.95 with cuisine 'japanese' (8 letters) and MED scores 29.6. */
  lemma BattleScoreOfSushi(high: real)
    ensures BattleScore(Meal(1, "sushi", "japanese", 3.95, MED), high) == 29.6
  {
  }

  /** Pizza at 24.95 with cuisine 'italian' (7 letters) and LOW scores 171.65. */
  lemma BattleScoreOfPizza(high: real)
    ensures BattleScore(Meal(2, "pizza", "italian", 24.95, LOW), high) == 171.65
  {
  }

  /** With the same cuisine and difficulty, the dearer meal scores higher,
      by the price difference times the cuisine length. */
  lemma BattleScoreGrowsWithPrice(m: Meal, price: real, high: real)
    requires |m.cuisine| > 0 && price > m.price
    ensures BattleScore(m.(price := price), high) - BattleScore(m, high)
            == (price - m.price) * (|m.cuisine| as real)
    ensures BattleScore(m.(price := price), high) > BattleScore(m, high)
  {
    var n := |m.cuisine| as real;
    assert price * n - m.price * n == (price - m.price) * n;
    assert (price - m.price) * n > 0.0;
  }

  /** Combatant 0 wins exactly when the random draw falls below the
      normalised score gap; otherwise combatant 1 wins. */
  function WinnerIndex(draw: real, normDelta: real): (w: nat)
    ensures w < 2
  {
    if draw < normDelta then 0 else 1
  }

  /** The normalised gap is the logistic of the score difference divided by
      the score sum; when the two scores sum to a positive number that
      quotient is non-negative and the gap is at least one half. Under that
      bound every draw below one half, such as 0.39, makes combatant 0 the
      winner. */
  lemma LowDrawFavoursFirst(draw: real, normDelta: real)
    requires draw < 0.5 <= normDelta
    ensures WinnerIndex(draw, normDelta) == 0
  {
  }

  /** What a battle returns, the combatants it leaves staged and the
      catalogue it leaves behind. */
  datatype Round = Round(result: Result<Meal, BattleError>, combatants: seq<Meal>, table: Table)

  /** battle: with two combatants staged, pick the winner, record a 'win'
      for it and then a 'loss' for the other, and keep only the winner
      staged. A failed update is passed on, the staging list is then left as
      it was, and an update already made stays made. */
  function Resolve(cs: seq<Meal>, t: Table, draw: real, normDelta: real): (o: Round)
    requires |cs| <= 2
    ensures |cs| < 2 ==> o == Round(Failure(NotEnoughCombatants), cs, t)
    ensures o.result.Success? <==> |cs| == 2 && Active(t, cs[0].id) && Active(t, cs[1].id)
    ensures o.result.Success? ==> && o.result.value == cs[WinnerIndex(draw, normDelta)]
                                  && o.combatants == [o.result.value]
    ensures o.result.Failure? ==> o.combatants == cs
  {
    if |cs| < 2 then Round(Failure(NotEnoughCombatants), cs, t)
    else
      var w := WinnerIndex(draw, normDelta);
      var winner, loser := cs[w], cs[1 - w];
      match StatsOutcome(t, winner.id, "win")
      case Failure(e) => Round(Failure(StoreError(e)), cs, t)
      case Success(t1) =>
        match StatsOutcome(t1, loser.id, "loss")
        case Failure(e) => Round(Failure(StoreError(e)), cs, t1)
        case Success(t2) => Round(Success(winner), [winner], t2)
  }

  /** After a successful battle between two different meals, the winner has
      one more battle and one more win, the loser one more battle and the
      same wins, and no other row changed. */
  lemma ResolveRecordsStats(cs: seq<Meal>, t: Table, draw: real, normDelta: real)
    requires |cs| == 2 && cs[0].id != cs[1].id
    requires Resolve(cs, t, draw, normDelta).result.Success?
    ensures var w := WinnerIndex(draw, normDelta);
            var winner, loser := cs[w].id, cs[1 - w].id;
            var t' := Resolve(cs, t, draw, normDelta).table;
            && t'.Keys == t.Keys
            && t'[winner].battles == t[winner].battles + 1 && t'[winner].wins == t[winner].wins + 1
            && t'[loser].battles == t[loser].battles + 1 && t'[loser].wins == t[loser].wins
            && forall k :: k in t && k != winner && k != loser ==> t'[k] == t[k]
  {
    var w := WinnerIndex(draw, normDelta);
    var t1 := StatsOutcome(t, cs[w].id, "win").value;
    assert t1[cs[1 - w].id] == t[cs[1 - w].id];
  }

  /** A battle, whatever its outcome, keeps the catalogue valid. */
  lemma ResolveKeepsValid(cs: seq<Meal>, t: Table, nextId: int, draw: real, normDelta: real)
    requires |cs| <= 2 && ValidTable(t, nextId)
    ensures ValidTable(Resolve(cs, t, draw, normDelta).table, nextId)
  {
    if |cs| == 2 {
      var w := WinnerIndex(draw, normDelta);
      var winner, loser := cs[w].id, cs[1 - w].id;
      ResolveTable(cs, t, draw, normDelta);
      var u1 := StatsOutcome(t, winner, "win");
      if u1.Success? {
        StatsKeepValid(t, nextId, winner, "win");
        if StatsOutcome(u1.value, loser, "loss").Success? {
          StatsKeepValid(u1.value, nextId, loser, "loss");
        }
      }
    }
  }

  /** The catalogue a battle leaves: as it was, after the win only, or after
      the win and the loss. */
  lemma ResolveTable(cs: seq<Meal>, t: Table, draw: real, normDelta: real)
    requires |cs| == 2
    ensures var w := WinnerIndex(draw, normDelta);
            var u1 := StatsOutcome(t, cs[w].id, "win");
            var t' := Resolve(cs, t, draw, normDelta).table;
            if u1.Failure? then t' == t
            else
              var u2 := StatsOutcome(u1.value, cs[1 - w].id, "loss");
              t' == if u2.Failure? then u1.value else u2.value
  {
  }

  /** The arena. `combatants` is the staging list. */
  class BattleModel {
    var combatants: seq<Meal>

    /** At most two meals are ever staged. */
    ghost predicate Valid()
      reads this
    {
      |combatants| <= 2
    }

    constructor ()
      ensures Valid() && combatants == []
    {
      combatants := [];
    }

    /** prep_combatant: appends the meal, unless two are already staged. */
    method PrepCombatant(meal: Meal) returns (r: Outcome<BattleError>)
      requires Valid()
      modifies this
      ensures Valid()
      ensures |old(combatants)| < 2 ==> r == Pass && combatants == old(combatants) + [meal]
      ensures |old(combatants)| == 2 ==> r == Fail(CombatantListFull) && combatants == old(combatants)
    {
      if |combatants| >= 2 {
        r := Fail(CombatantListFull);
      } else {
        combatants := combatants + [meal];
        r := Pass;
      }
    }

    /** get_combatants: the staged meals in staging order; changes nothing. */
    method GetCombatants() returns (cs: seq<Meal>)
      requires Valid()
      ensures cs == combatants && |cs| <= 2
    {
      cs := combatants;
    }

    /** clear_combatants: empties the staging list. */
    method ClearCombatants()
      modifies this
      ensures Valid() && combatants == []
    {
      combatants := [];
    }

    /** battle: `draw` is the value of the random source and `normDelta` the
      normalised score gap it is compared with. */
    method Battle(store: MealStore, draw: real, normDelta: real) returns (r: Result<Meal, BattleError>)
      requires Valid() && store.Valid()
      modifies this, store
      ensures Valid() && store.Valid() && store.nextId == old(store.nextId)
      ensures Round(r, combatants, store.rows) == Resolve(old(combatants), old(store.rows), draw, normDelta)
    {
      ResolveKeepsValid(combatants, store.rows, store.nextId, draw, normDelta);
      if |combatants| < 2 {
        r := Failure(NotEnoughCombatants);
        return;
      }
      var w := WinnerIndex(draw, normDelta);
      var winner, loser := combatants[w], combatants[1 - w];
      var won := store.UpdateMealStats(winner.id, "win");
      if won.Fail? {
        r := Failure(StoreError(won.error));
        return;
      }
      var lost := store.UpdateMealStats(loser.id, "loss");
      if lost.Fail? {
        r := Failure(StoreError(lost.error));
        return;
      }
      combatants := [winner];
      r := Success(winner);
    }
  }
}
