# meal_max: the battle arena, the meal catalogue and whitespace normalisation

This Dafny project models the meal_max game as its unit tests pin it down:

- **The battle arena (`BattleModel`).** The arena stages at most two meals. It scores a meal as its price times the length of its cuisine name, less a difficulty modifier. A battle keeps the winner staged and records a win and a loss in the catalogue.
- **The meal catalogue (`kitchen_model`).** Each row has a name, cuisine, price and difficulty, a soft-delete flag, and battle and win counters. The model covers:
  - the validation of `create_meal`;
  - soft deletion;
  - lookups by id and by name, which refuse deleted rows;
  - win/loss statistics;
  - the leaderboard's `sort_by` check and its win percentage.
- **`normalize_whitespace`.** The tests compare SQL text with this helper. It replaces every run of whitespace by one space and strips both ends.

Modules:

- `Wrappers` (wrappers.dfy): `Option`, `Result` (value or raised error) and `Outcome` (nothing or raised error).
- `Whitespace` (whitespace.dfy): `NormalizeWhitespace`, built as `Strip(Collapse(s))`. The substitution `re.sub(r'\s+', ' ', s)` becomes `Collapse`, and `str.strip()` becomes `Strip`. Whitespace is the set of characters Python's `str.isspace` accepts. The module also defines `Unwords(Words(s))`, Python's `" ".join(s.split())`, as an independent reference, and proves that normalisation equals it.
- `Kitchen` (kitchen.dfy): the catalogue.
  - The SQLite `meals` table becomes a `map<int, Row>` keyed by the autoincrement id.
  - Each rule is a pure function on the table: `NewMealRow`, `DeleteOutcome`, `StatsOutcome`, `GetMealById`, `GetMealByName` and `GetLeaderboard`.
  - The class `MealStore` holds the table and the next id. Its methods apply those rules in place and keep `ValidTable`:
    - ids lie below the next id;
    - names are unique;
    - prices are positive;
    - no row has more wins than battles.
- `Battle` (battle.dfy):
  - the score (`BattleScore`);
  - the winner rule (`WinnerIndex`);
  - `Resolve`, a pure description of one battle covering the result, the staging list left behind and the table left behind;
  - the class `BattleModel`, whose `combatants` field is a `seq<Meal>` of length at most two.
- `Scenarios` (scenarios.dfy): the situations the unit tests set up, replayed through the methods' contracts.

The random draw and the normalised score gap are inputs to `Battle`: combatant 0 wins exactly when `draw < normDelta`. The battle records a `"win"` for the winner, then a `"loss"` for the loser, and then drops the loser from the staging list. A failed update is passed on unchanged, the staging list is then left as it was, and an update already made stays made.

## Model

| member | source | states |
|---|---|---|
| Battle.BattleModel.constructor | docstrings_testing/meal_max/tests/test_battle_model.py:6-9 | a new arena has an empty staging list |
| Battle.BattleModel.PrepCombatant | docstrings_testing/meal_max/tests/test_battle_model.py:29-42 | below two staged, the meal is appended at the end; with two staged, the call fails with "Combatant list is full" and the list is unchanged; at most two are ever staged |
| Battle.BattleModel.GetCombatants | docstrings_testing/meal_max/tests/test_battle_model.py:46-52 | returns the staged meals in staging order, at most two, and changes nothing |
| Battle.BattleModel.ClearCombatants | docstrings_testing/meal_max/tests/test_battle_model.py:64-70 | from any state, leaves the list empty |
| Battle.BattleModel.Battle | docstrings_testing/meal_max/tests/test_battle_model.py:74-100 | the result, the staging list and the catalogue afterwards are those of `Resolve` on the state before; the arena and the catalogue stay valid |
| Battle.Resolve | docstrings_testing/meal_max/tests/test_battle_model.py:74-100 | fewer than two staged fails with "Two combatants must be prepped" and changes nothing; success exactly when both staged meals are active in the catalogue; the winner is the staged meal picked by the draw and is left staged alone; a failure leaves the list as it was |
| Battle.ResolveRecordsStats | docstrings_testing/meal_max/tests/test_battle_model.py:74-90 | after a successful battle of two different meals, the winner has one more battle and one more win, the loser one more battle and the same wins, and every other row is unchanged |
| Battle.ResolveKeepsValid | docstrings_testing/meal_max/tests/test_battle_model.py:74-100 | every battle outcome leaves the catalogue valid |
| Battle.WinnerIndex | docstrings_testing/meal_max/tests/test_battle_model.py:79-86 | the winner is combatant 0 or combatant 1 |
| Battle.LowDrawFavoursFirst | docstrings_testing/meal_max/tests/test_battle_model.py:79-86 | a draw below one half, such as 0.39, picks combatant 0 whenever the normalised gap is at least one half |
| Battle.DifficultyModifier | docstrings_testing/meal_max/tests/test_battle_model.py:58-59 | the amount the score loses for a difficulty: 2 for MED (the asserted sushi score), 3 for LOW (the pizza computation in the comment), and the parameter `high` for HIGH |
| Battle.BattleScore | docstrings_testing/meal_max/tests/test_battle_model.py:56-60 | get_battle_score is price × length of the cuisine name − the difficulty modifier; for LOW and MED the score lies 3 to 2 below price × length, and for HIGH it is `high` below. The test values are in BattleScoreOfSushi and BattleScoreOfPizza; its dependence on the dish is in BattleScoreDependsOnlyOnDish and BattleScoreGrowsWithPrice |
| Battle.BattleScoreOfSushi | docstrings_testing/meal_max/tests/test_battle_model.py:56-60 | sushi (3.95, 'japanese', MED) scores exactly 29.6 |
| Battle.BattleScoreOfPizza | docstrings_testing/meal_max/tests/test_battle_model.py:59 | pizza (24.95, 'italian', LOW) scores 171.65 |
| Battle.BattleScoreDependsOnlyOnDish | docstrings_testing/meal_max/tests/test_battle_model.py:56-60 | the score depends only on price, cuisine length and difficulty |
| Battle.BattleScoreGrowsWithPrice | docstrings_testing/meal_max/tests/test_battle_model.py:56-60 | with the same cuisine and difficulty, raising the price raises the score by the price difference times the cuisine length |
| Scenarios.PrepOneScenario | docstrings_testing/meal_max/tests/test_battle_model.py:29-33 | staging sushi into a fresh arena gives one staged meal, sushi first |
| Scenarios.FullListScenario | docstrings_testing/meal_max/tests/test_battle_model.py:35-42 | a third meal is refused as "list full", the two staged meals stay in order, and clearing empties the list |
| Scenarios.NotEnoughScenario | docstrings_testing/meal_max/tests/test_battle_model.py:93-100 | with one meal staged, a battle fails with "not enough combatants" and leaves it staged |
| Scenarios.SushiPizzaScoreSumPositive | docstrings_testing/meal_max/tests/test_battle_model.py:56-60 | the two test meals' scores sum to 201.25 > 0 whatever HIGH subtracts, which is why the normalised gap of their battle is at least one half |
| Scenarios.BattleScenario | docstrings_testing/meal_max/tests/test_battle_model.py:74-90 | with draw 0.39, sushi beats pizza, stays staged alone, and the catalogue records one won battle for sushi and one lost battle for pizza |
| Scenarios.SushiAndPizza | docstrings_testing/meal_max/tests/test_kitchen_model.py:67-86 | creating sushi and then pizza in an empty catalogue stores them under ids 1 and 2, not deleted, with no battles |
| Scenarios.DuplicateScenario | docstrings_testing/meal_max/tests/test_kitchen_model.py:89-94 | creating 'steak' a second time fails with the duplicate-name error and leaves one row |
| Scenarios.DeleteScenario | docstrings_testing/meal_max/tests/test_kitchen_model.py:161-169 | after one delete, deleting again, recording a result and looking up by id all fail with "has been deleted" |
| Kitchen.ParseDifficulty | docstrings_testing/meal_max/tests/test_kitchen_model.py:108-113 | a difficulty is accepted exactly when it is 'LOW', 'MED' or 'HIGH', and it reads back as the same text |
| Kitchen.ParseDifficultyName | docstrings_testing/meal_max/tests/test_kitchen_model.py:108-113 | every difficulty's name parses back to that difficulty |
| Kitchen.NewMealRow | docstrings_testing/meal_max/tests/test_kitchen_model.py:67-113 | succeeds exactly for a positive numeric price, a known difficulty and an unused name; the errors come in that order, carrying the offending value; the new row holds the given fields, is not deleted and has no battles |
| Kitchen.MealStore.constructor | docstrings_testing/meal_max/tests/test_kitchen_model.py:44-62 | an empty, valid catalogue whose next id is 1 |
| Kitchen.MealStore.CreateMeal | docstrings_testing/meal_max/tests/test_kitchen_model.py:67-113 | on a validation error, nothing changes and the error is returned; otherwise the row is inserted under the next id, which then advances; the catalogue stays valid |
| Kitchen.InsertKeepsValid | docstrings_testing/meal_max/tests/test_kitchen_model.py:67-94 | inserting a validated row under the next id keeps the table valid, names unique included |
| Kitchen.CreateThenGetByName | docstrings_testing/meal_max/tests/test_kitchen_model.py:213-224 | a meal just created is found by its name, under the id it was given, with the given fields |
| Kitchen.DeleteOutcome | docstrings_testing/meal_max/tests/test_kitchen_model.py:120-169 | an unknown id fails "not found"; a deleted id fails "has been deleted"; otherwise only that row's deleted flag becomes true |
| Kitchen.MealStore.DeleteMeal | docstrings_testing/meal_max/tests/test_kitchen_model.py:120-169 | applies `DeleteOutcome` in place, changing nothing on failure, and keeps the catalogue valid |
| Kitchen.DeleteKeepsValid | docstrings_testing/meal_max/tests/test_kitchen_model.py:120-149 | a soft delete keeps the table valid |
| Kitchen.DeleteHidesMeal | docstrings_testing/meal_max/tests/test_kitchen_model.py:161-169 | after a delete, the lookup by id and by name both fail "has been deleted", a second delete fails the same way, and every other id reads as before |
| Kitchen.GetMealById | docstrings_testing/meal_max/tests/test_kitchen_model.py:175-208 | succeeds exactly for an active id, returning the row without its flag and counters; missing ids fail "not found" and deleted ones "has been deleted" |
| Kitchen.GetMealByName | docstrings_testing/meal_max/tests/test_kitchen_model.py:213-256 | an unused name fails "not found"; the row with that name is returned as a meal, unless it is deleted, which fails "has been deleted" |
| Kitchen.StatsOutcome | docstrings_testing/meal_max/tests/test_kitchen_model.py:261-315 | checks, in order, "not found", "has been deleted" and "Invalid result"; 'win' adds one battle and one win, 'loss' one battle; nothing else changes |
| Kitchen.MealStore.UpdateMealStats | docstrings_testing/meal_max/tests/test_kitchen_model.py:261-315 | applies `StatsOutcome` in place, changing nothing on failure, and keeps the catalogue valid |
| Kitchen.StatsKeepValid | docstrings_testing/meal_max/tests/test_kitchen_model.py:261-288 | recording a result keeps the table valid, so wins never exceed battles |
| Kitchen.StatsOnDeletedFails | docstrings_testing/meal_max/tests/test_kitchen_model.py:291-302 | update_meal_stats on a deleted meal fails "has been deleted" and performs no update |
| Kitchen.GetLeaderboard | docstrings_testing/meal_max/tests/test_kitchen_model.py:324-385 | accepted exactly for 'wins' (the default) and 'win_pct', otherwise "Invalid sort_by parameter"; each fetched row comes out in the same place, with the same fields and its win fraction times 100 as the percentage |
| Kitchen.WinPctOfRow | docstrings_testing/meal_max/tests/test_kitchen_model.py:324-366 | for a row of a valid table, the win percentage times the battles is 100 times the wins, and it lies between 0 and 100 |
| Kitchen.LeaderboardShowsActiveRows | docstrings_testing/meal_max/tests/test_kitchen_model.py:324-366 | over rows fetched from a valid table (active meals with at least one battle, `FetchedFrom`), the leaderboard succeeds, lists no deleted meal, shows each meal's battles and wins, and its win percentage × battles is 100 × wins, between 0 and 100 |
| Kitchen.LeaderboardExample | docstrings_testing/meal_max/tests/test_kitchen_model.py:328-344 | a win fraction of 0.8 shows as 80.0 |
| Whitespace.Collapse | docstrings_testing/meal_max/tests/test_kitchen_model.py:42 | `re.sub(r'\s+', ' ', s)`: each maximal whitespace run becomes one plain space and everything else is copied; the result is never longer than the input and is empty only for empty input. Its shape is in CollapseShape, its fixpoints in CollapseFixpoint, what it keeps in CollapseKeepsVisible and its relation to the words in CollapseIsJoinedWords |
| Whitespace.NormalizeWhitespace | docstrings_testing/meal_max/tests/test_kitchen_model.py:41-42 | normalize_whitespace is `Strip(Collapse(s))`; the result is never longer than the input and has no whitespace at either end. It equals `" ".join(s.split())` (NormalizeIsJoinedWords), is idempotent (NormalizeIdempotent), is single-spaced (NormalizeShape) and keeps the visible characters (NormalizeKeepsVisible) |
| Whitespace.TrimStart | docstrings_testing/meal_max/tests/test_kitchen_model.py:42 | the result is a suffix of the input, what it drops is all whitespace, and it does not start with whitespace |
| Whitespace.TrimStartUnique | docstrings_testing/meal_max/tests/test_kitchen_model.py:42 | lstrip is determined by that description: any suffix that drops only whitespace and does not start with whitespace is the result of TrimStart |
| Whitespace.TrimEnd | docstrings_testing/meal_max/tests/test_kitchen_model.py:42 | the result is a prefix of the input, what it drops is all whitespace, and it does not end with whitespace |
| Whitespace.Strip | docstrings_testing/meal_max/tests/test_kitchen_model.py:42 | the result is a slice of the input with whitespace at neither end |
| Whitespace.CollapseShape | docstrings_testing/meal_max/tests/test_kitchen_model.py:42 | after the substitution, the only whitespace is the plain space, no two whitespace characters are adjacent, and a leading non-whitespace character is kept |
| Whitespace.NormalizeShape | docstrings_testing/meal_max/tests/test_kitchen_model.py:41-42 | normalised text has no whitespace at its ends, no two whitespace characters in a row, and no whitespace but the plain space |
| Whitespace.CollapseFixpoint | docstrings_testing/meal_max/tests/test_kitchen_model.py:42 | text that is already single-spaced is left alone by the substitution |
| Whitespace.StripFixpoint | docstrings_testing/meal_max/tests/test_kitchen_model.py:42 | text without whitespace at its ends is left alone by strip |
| Whitespace.NormalizeIdempotent | docstrings_testing/meal_max/tests/test_kitchen_model.py:41-42 | normalising twice gives the same as normalising once |
| Whitespace.StripKeepsVisible | docstrings_testing/meal_max/tests/test_kitchen_model.py:42 | strip keeps every non-whitespace character, in order |
| Whitespace.CollapseKeepsVisible | docstrings_testing/meal_max/tests/test_kitchen_model.py:42 | the substitution keeps every non-whitespace character, in order |
| Whitespace.NormalizeKeepsVisible | docstrings_testing/meal_max/tests/test_kitchen_model.py:41-42 | normalisation changes only whitespace; the visible characters come out unchanged and in order |
| Whitespace.WordsAreWords | docstrings_testing/meal_max/tests/test_kitchen_model.py:41-42 | every piece of the reference split is a non-empty run of non-whitespace |
| Whitespace.UnwordsTrimmed | docstrings_testing/meal_max/tests/test_kitchen_model.py:41-42 | joining words with single spaces gives text with whitespace at neither end |
| Whitespace.CollapseIsJoinedWords | docstrings_testing/meal_max/tests/test_kitchen_model.py:42 | on text that does not start with whitespace, the substitution gives the words joined by single spaces, plus one space when the text ends in whitespace |
| Whitespace.NormalizeIsJoinedWords | docstrings_testing/meal_max/tests/test_kitchen_model.py:41-42 | `normalize_whitespace(s)` equals `" ".join(s.split())`: each whitespace run between two words becomes exactly one space and the words are kept in order |

## Left out

- `test_random_utils.py` (the HTTP fetch of a random number from random.org and the parsing of its reply) is I/O and is not part of this model. The draw is an input to `Battle`.
- The logistic normalisation of the score gap is not modelled, because it involves the exponential function and floating point. `normDelta` is an input. `LowDrawFavoursFirst` assumes only that this gap is at least one half. That holds when the two scores sum to a positive number, as sushi and pizza do (SushiPizzaScoreSumPositive). It does not hold in general: a LOW meal priced 0.5 with the cuisine 'thai' scores 0.5 × 4 − 3 = −1.
- The gap divides the score difference by the score sum, so two scores that sum to zero would divide by zero. That case is not modelled, because the gap is an input here.
- `clear_meals` is imported by the kitchen tests but never exercised by them, so it is not modelled.
- SQL text, cursors, connections, mocks and fixtures are not modelled; a map stands in for the table. The mapping of `sqlite3.IntegrityError` to the duplicate-name `ValueError` becomes a name check made before the insert.
- IEEE-754 floats are not modelled: prices, scores and percentages are exact reals, so 3.95 * 8 - 2 is exactly 29.6. Rounding and display are not modelled either.
- Battle.DifficultyModifier: MED is 2, as asserted, and LOW is 3, as the comment at test_battle_model.py:59 computes. A LOW modifier of 1 and a HIGH modifier of 3 are sometimes stated for this game. The model follows the test file. The HIGH amount is a parameter because no test pins it.
- Kitchen.GetLeaderboard takes the rows as the query returns them. The tests only mock that query's result, so no shown code selects the rows.
  - The selection is an assumption, stated by `FetchedFrom` and used by `LeaderboardShowsActiveRows`: only meals that are not deleted and have at least one battle.
  - The SQL `ORDER BY` is not modelled, and neither is the order of the rows.
- Kitchen.GetMealByName requires unique names. The catalogue's UNIQUE constraint on the name guarantees this, and `ValidTable` keeps it.
- Kitchen.NewMealRow treats names as unique over all rows, deleted ones included, as the UNIQUE constraint does. A name that is unique only among non-deleted rows is not modelled.
- Kitchen.StatsOutcome: the tests never assert what a 'loss' does to the row. The model gives the loser one more battle and the same wins, the counterpart of the asserted 'win' update at test_kitchen_model.py:274.
- Battle.BattleModel.GetCombatants returns a value copy. Python returns the list object itself, so its aliasing is not captured.
- Meal's own constructor validation is not modelled; meals are built only from validated rows or given directly.
- Several tests do not run as their authors intended, and the model follows the evident intent:
  - test_battle_model.py:42 uses a fixture that is not a parameter of the test;
  - lines 48, 66 and 76 extend the list with fixture functions rather than meals;
  - line 98 calls `battle()` once outside `pytest.raises`.
