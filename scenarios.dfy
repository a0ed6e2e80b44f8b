/** The situations the meal_max unit tests set up, replayed against the model
    through the operations' contracts alone. */
module Scenarios {
  import opened Wrappers
  import opened Kitchen
  import opened Battle

  function Sushi(): Meal { Meal(1, "sushi", "japanese", 3.95, MED) }
  function Pizza(): Meal { Meal(2, "pizza", "italian", 24.95, LOW) }

  /** Staging one meal into a fresh arena gives a list of one, that meal
      first. */
  method PrepOneScenario() returns (staged: seq<Meal>)
    ensures |staged| == 1 && staged[0].name == "sushi"
  {
    var arena := new BattleModel();
    var r := arena.PrepCombatant(Sushi());
    staged := arena.GetCombatants();
  }

  /** With two meals staged a third is refused and the list stays as it was;
      clearing then empties it. */
  method FullListScenario() returns (r: Outcome<BattleError>, before: seq<Meal>, after: seq<Meal>)
    ensures r == Fail(CombatantListFull)
    ensures before == [Sushi(), Pizza()]
    ensures after == []
  {
    var arena := new BattleModel();
    var r1 := arena.PrepCombatant(Sushi());
    var r2 := arena.PrepCombatant(Pizza());
    r := arena.PrepCombatant(Pizza());
    before := arena.GetCombatants();
    arena.ClearCombatants();
    after := arena.GetCombatants();
  }

  /** A battle with one meal staged is refused. */
  method NotEnoughScenario(draw: real, normDelta: real) returns (r: Result<Meal, BattleError>, staged: seq<Meal>)
    ensures r == Failure(NotEnoughCombatants) && staged == [Sushi()]
  {
    var store := new MealStore();
    var arena := new BattleModel();
    var p := arena.PrepCombatant(Sushi());
    r := arena.Battle(store, draw, normDelta);
    staged := arena.GetCombatants();
  }

  /** Sushi and pizza score 29.6 and 171.65, whatever HIGH subtracts: their
      sum is positive, so the normalised gap of their battle is at least one
      half, which is what BattleScenario requires of `normDelta`. */
  lemma SushiPizzaScoreSumPositive(high: real)
    ensures BattleScore(Sushi(), high) + BattleScore(Pizza(), high) == 201.25
    ensures BattleScore(Sushi(), high) + BattleScore(Pizza(), high) > 0.0
  {
    BattleScoreOfSushi(high);
    BattleScoreOfPizza(high);
  }

  /** Sushi and pizza are created (ids 1 and 2), staged and fought with the
      draw 0.39: sushi wins and stays staged alone, pizza is removed, and
      the catalogue shows one win in one battle for sushi and one lost battle
      for pizza. */
  method BattleScenario(normDelta: real) returns (r: Result<Meal, BattleError>, staged: seq<Meal>, sushi: Row, pizza: Row)
    requires 0.5 <= normDelta
    ensures r == Success(Sushi()) && staged == [Sushi()]
    ensures sushi.battles == 1 && sushi.wins == 1
    ensures pizza.battles == 1 && pizza.wins == 0
  {
    var store := SushiAndPizza();
    var arena := new BattleModel();
    var p1 := arena.PrepCombatant(Sushi());
    var p2 := arena.PrepCombatant(Pizza());
    LowDrawFavoursFirst(0.39, normDelta);
    ghost var t := store.rows;
    r := arena.Battle(store, 0.39, normDelta);
    ResolveRecordsStats([Sushi(), Pizza()], t, 0.39, normDelta);
    staged := arena.GetCombatants();
    sushi, pizza := store.rows[1], store.rows[2];
  }

  /** A fresh catalogue after creating sushi and then pizza: ids 1 and 2,
      neither deleted, neither yet in a battle. */
  method SushiAndPizza() returns (store: MealStore)
    ensures fresh(store) && store.Valid()
    ensures store.rows == map[1 := Row("sushi", "japanese", 3.95, MED, false, 0, 0),
                              2 := Row("pizza", "italian", 24.95, LOW, false, 0, 0)]
  {
    store := new MealStore();
    var c1 := store.CreateMeal("sushi", "japanese", Number(3.95), "MED");
    assert !NameTaken(map[], "sushi");
    assert store.rows == map[1 := Row("sushi", "japanese", 3.95, MED, false, 0, 0)];
    var c2 := store.CreateMeal("pizza", "italian", Number(24.95), "LOW");
    assert store.rows[1].name != "pizza";
    assert !NameTaken(map[1 := Row("sushi", "japanese", 3.95, MED, false, 0, 0)], "pizza");
  }

  /** Creating a meal that already exists is refused with the duplicate-name
      error and leaves the catalogue alone. */
  method DuplicateScenario() returns (r: Outcome<Error>, count: nat)
    ensures r == Fail(DuplicateName("steak")) && count == 1
  {
    var store := new MealStore();
    var c1 := store.CreateMeal("steak", "american", Number(33.3), "MED");
    assert 1 in store.rows && store.rows[1].name == "steak";
    r := store.CreateMeal("steak", "american", Number(33.3), "MED");
    count := |store.rows|;
  }

  /** A meal deleted once cannot be deleted again, nor have a result
      recorded, nor be looked up. */
  method DeleteScenario() returns (again: Outcome<Error>, stats: Outcome<Error>, lookup: Result<Meal, Error>)
    ensures again == Fail(IdDeleted(1)) && stats == Fail(IdDeleted(1)) && lookup == Failure(IdDeleted(1))
  {
    var store := new MealStore();
    var c1 := store.CreateMeal("steak", "american", Number(33.3), "MED");
    var d := store.DeleteMeal(1);
    again := store.DeleteMeal(1);
    stats := store.UpdateMealStats(1, "win");
    lookup := GetMealById(store.rows, 1);
  }
}
