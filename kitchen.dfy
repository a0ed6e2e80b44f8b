/** The meal catalogue of meal_max (the `kitchen_model` functions), over an
    in-memory table in place of the SQLite `meals` table: rows keyed by their
    autoincrement id, soft-deleted rather than removed, carrying battle and
    win counters. The table rules are pure functions on a `Table`; the class
    `MealStore` holds the table and applies them in place. */
module Kitchen {
  import opened Wrappers

  datatype Difficulty = LOW | MED | HIGH

  /** The text a difficulty is stored and passed as. */
  function DifficultyName(d: Difficulty): string {
    match d
    case LOW => "LOW"
    case MED => "MED"
    case HIGH => "HIGH"
  }

  /** create_meal accepts exactly the texts 'LOW', 'MED' and 'HIGH'. */
  function ParseDifficulty(s: string): (r: Option<Difficulty>)
    ensures r.Some? <==> (s == "LOW" || s == "MED" || s == "HIGH")
    ensures r.Some? ==> DifficultyName(r.value) == s
  {
    if s == "LOW" then Some(LOW)
    else if s == "MED" then Some(MED)
    else if s == "HIGH" then Some(HIGH)
    else None
  }

  /** Every difficulty reads back as itself. */
  lemma ParseDifficultyName(d: Difficulty)
    ensures ParseDifficulty(DifficultyName(d)) == Some(d)
  {
  }

  /** A meal as the lookups return it: the row without its soft-delete flag
      and counters. */
  datatype Meal = Meal(id: int, name: string, cuisine: string, price: real, difficulty: Difficulty)

  /** One row of the `meals` table. */
  datatype Row = Row(name: string, cuisine: string, price: real, difficulty: Difficulty,
                     deleted: bool, battles: nat, wins: nat)

  type Table = map<int, Row>

  /** The price argument of create_meal: a number, or any other value (the
      tests pass the text 'invalid'). */
  datatype PriceArg = Number(amount: real) | NotANumber(text: string)

  /** The `ValueError`s of kitchen_model; each comment gives the message. */
  datatype Error =
    | InvalidPrice(price: PriceArg)      // Invalid price: {price}. Price must be a positive number.
    | InvalidDifficulty(level: string)   // Invalid difficulty level: {level}. Must be 'LOW', 'MED', or 'HIGH'.
    | DuplicateName(name: string)        // Meal with name '{name}' already exists
    | IdNotFound(id: int)                // Meal with ID {id} not found
    | IdDeleted(id: int)                 // Meal with ID {id} has been deleted
    | NameNotFound(name: string)         // Meal with name {name} not found
    | NameDeleted(name: string)          // Meal with name {name} has been deleted
    | InvalidResult(result: string)      // Invalid result: {result}. Expected 'win' or 'loss'.
    | InvalidSortBy(sortBy: string)      // Invalid sort_by parameter: {sortBy}

  function MealOf(id: int, row: Row): Meal {
    Meal(id, row.name, row.cuisine, row.price, row.difficulty)
  }

  /** Some row, deleted or not, already has this name. */
  predicate NameTaken(t: Table, name: string) {
    exists id | id in t :: t[id].name == name
  }

  /** The id is present and not soft-deleted. */
  predicate Active(t: Table, id: int) {
    id in t && !t[id].deleted
  }

  /** The UNIQUE constraint on the meal name. */
  ghost predicate UniqueNames(t: Table) {
    forall a, b :: a in t && b in t && t[a].name == t[b].name ==> a == b
  }

  /** What the table always satisfies: ids are below the next autoincrement
      value, names are unique, prices positive, and a meal never has more
      wins than battles. */
  ghost predicate ValidTable(t: Table, nextId: int) {
    && 0 < nextId
    && (forall id :: id in t ==> 0 < id < nextId)
    && UniqueNames(t)
    && (forall id :: id in t ==> t[id].price > 0.0 && t[id].wins <= t[id].battles)
  }

  predicate PositivePrice(price: PriceArg) {
    price.Number? && price.amount > 0.0
  }

  /** create_meal's checks, in order (price, difficulty, then the unique
      name), and the row it inserts when all pass. */
  function NewMealRow(t: Table, name: string, cuisine: string, price: PriceArg, difficulty: string)
    : (r: Result<Row, Error>)
    ensures r.Success? <==> PositivePrice(price) && ParseDifficulty(difficulty).Some? && !NameTaken(t, name)
    ensures !PositivePrice(price) ==> r == Failure(InvalidPrice(price))
    ensures PositivePrice(price) && ParseDifficulty(difficulty).None? ==> r == Failure(InvalidDifficulty(difficulty))
    ensures PositivePrice(price) && ParseDifficulty(difficulty).Some? && NameTaken(t, name)
            ==> r == Failure(DuplicateName(name))
    ensures r.Success? ==> && r.value.name == name && r.value.cuisine == cuisine
                           && r.value.price == price.amount
                           && DifficultyName(r.value.difficulty) == difficulty
                           && !r.value.deleted && r.value.battles == 0 && r.value.wins == 0
  {
    if !PositivePrice(price) then Failure(InvalidPrice(price))
    else match ParseDifficulty(difficulty)
      case None => Failure(InvalidDifficulty(difficulty))
      case Some(d) =>
        if NameTaken(t, name) then Failure(DuplicateName(name))
        else Success(Row(name, cuisine, price.amount, d, false, 0, 0))
  }

  /** get_meal_by_id: the meal stored under `id`, unless it is missing or
      soft-deleted. */
  function GetMealById(t: Table, id: int): (r: Result<Meal, Error>)
    ensures r.Success? <==> Active(t, id)
    ensures id !in t ==> r == Failure(IdNotFound(id))
    ensures id in t && t[id].deleted ==> r == Failure(IdDeleted(id))
    ensures r.Success? ==> r.value.id == id && r.value == MealOf(id, t[id])
  {
    if id !in t then Failure(IdNotFound(id))
    else if t[id].deleted then Failure(IdDeleted(id))
    else Success(MealOf(id, t[id]))
  }

  /** get_meal_by_name: the meal with that name, unless there is none or it
      is soft-deleted. */
  function GetMealByName(t: Table, name: string): (r: Result<Meal, Error>)
    requires UniqueNames(t)
    ensures !NameTaken(t, name) ==> r == Failure(NameNotFound(name))
    ensures forall id :: id in t && t[id].name == name ==>
              r == if t[id].deleted then Failure(NameDeleted(name)) else Success(MealOf(id, t[id]))
  {
    if !NameTaken(t, name) then Failure(NameNotFound(name))
    else
      var id :| id in t && t[id].name == name;
      if t[id].deleted then Failure(NameDeleted(name)) else Success(MealOf(id, t[id]))
  }

  /** delete_meal: sets the soft-delete flag of `id` and changes nothing
      else; a missing or already deleted id is an error. */
  function DeleteOutcome(t: Table, id: int): (r: Result<Table, Error>)
    ensures r.Success? <==> Active(t, id)
    ensures id !in t ==> r == Failure(IdNotFound(id))
    ensures id in t && t[id].deleted ==> r == Failure(IdDeleted(id))
    ensures r.Success? ==> && r.value.Keys == t.Keys
                           && r.value[id] == t[id].(deleted := true)
                           && forall k :: k in t && k != id ==> r.value[k] == t[k]
  {
    if id !in t then Failure(IdNotFound(id))
    else if t[id].deleted then Failure(IdDeleted(id))
    else Success(t[id := t[id].(deleted := true)])
  }

  /** update_meal_stats: 'win' adds one battle and one win, 'loss' one
      battle; the row must exist and not be deleted, and the result must be
      one of the two. Nothing else changes. */
  function StatsOutcome(t: Table, id: int, result: string): (r: Result<Table, Error>)
    ensures r.Success? <==> Active(t, id) && (result == "win" || result == "loss")
    ensures id !in t ==> r == Failure(IdNotFound(id))
    ensures id in t && t[id].deleted ==> r == Failure(IdDeleted(id))
    ensures Active(t, id) && result != "win" && result != "loss" ==> r == Failure(InvalidResult(result))
    ensures r.Success? ==> && r.value.Keys == t.Keys
                           && r.value[id].battles == t[id].battles + 1
                           && r.value[id].wins == t[id].wins + (if result == "win" then 1 else 0)
                           && r.value[id] == t[id].(battles := r.value[id].battles, wins := r.value[id].wins)
                           && forall k :: k in t && k != id ==> r.value[k] == t[k]
  {
    if id !in t then Failure(IdNotFound(id))
    else if t[id].deleted then Failure(IdDeleted(id))
    else if result == "win" then
      Success(t[id := t[id].(battles := t[id].battles + 1, wins := t[id].wins + 1)])
    else if result == "loss" then
      Success(t[id := t[id].(battles := t[id].battles + 1)])
    else Failure(InvalidResult(result))
  }

  /** Inserting a validated row under a fresh id keeps the table valid. */
  lemma InsertKeepsValid(t: Table, nextId: int, name: string, cuisine: string, price: PriceArg, difficulty: string)
    requires ValidTable(t, nextId)
    requires NewMealRow(t, name, cuisine, price, difficulty).Success?
    ensures ValidTable(t[nextId := NewMealRow(t, name, cuisine, price, difficulty).value], nextId + 1)
  {
    var t' := t[nextId := NewMealRow(t, name, cuisine, price, difficulty).value];
    assert forall k :: k in t ==> t[k].name != name;
  }

  /** Deleting keeps the table valid. */
  lemma DeleteKeepsValid(t: Table, nextId: int, id: int)
    requires ValidTable(t, nextId) && DeleteOutcome(t, id).Success?
    ensures ValidTable(DeleteOutcome(t, id).value, nextId)
  {
    var t' := DeleteOutcome(t, id).value;
    forall a, b | a in t' && b in t' && t'[a].name == t'[b].name ensures a == b {
      assert t'[a].name == t[a].name && t'[b].name == t[b].name;
    }
  }

  /** Recording a result keeps the table valid; in particular a meal never
      has more wins than battles. */
  lemma StatsKeepValid(t: Table, nextId: int, id: int, result: string)
    requires ValidTable(t, nextId) && StatsOutcome(t, id, result).Success?
    ensures ValidTable(StatsOutcome(t, id, result).value, nextId)
  {
    var t' := StatsOutcome(t, id, result).value;
    forall a, b | a in t' && b in t' && t'[a].name == t'[b].name ensures a == b {
      assert t'[a].name == t[a].name && t'[b].name == t[b].name;
    }
  }

  /** A newly created meal is found by its name, under the id it was given. */
  lemma CreateThenGetByName(t: Table, nextId: int, name: string, cuisine: string, price: PriceArg, difficulty: string)
    requires ValidTable(t, nextId)
    requires NewMealRow(t, name, cuisine, price, difficulty).Success?
    ensures var row := NewMealRow(t, name, cuisine, price, difficulty).value;
            GetMealByName(t[nextId := row], name) == Success(Meal(nextId, name, cuisine, price.amount, row.difficulty))
  {
    var row := NewMealRow(t, name, cuisine, price, difficulty).value;
    InsertKeepsValid(t, nextId, name, cuisine, price, difficulty);
    assert nextId in t[nextId := row] && t[nextId := row][nextId].name == name;
  }

  /** After delete_meal, both lookups report the meal as deleted, a second
      delete fails the same way, and every other id reads as before. */
  lemma DeleteHidesMeal(t: Table, id: int)
    requires UniqueNames(t) && DeleteOutcome(t, id).Success?
    ensures var t' := DeleteOutcome(t, id).value;
            && GetMealById(t', id) == Failure(IdDeleted(id))
            && UniqueNames(t')
            && GetMealByName(t', t[id].name) == Failure(NameDeleted(t[id].name))
            && DeleteOutcome(t', id) == Failure(IdDeleted(id))
            && forall k :: k != id ==> GetMealById(t', k) == GetMealById(t, k)
  {
    var t' := DeleteOutcome(t, id).value;
    forall a, b | a in t' && b in t' && t'[a].name == t'[b].name ensures a == b {
      assert t'[a].name == t[a].name && t'[b].name == t[b].name;
    }
    assert id in t' && t'[id].name == t[id].name;
  }

  /** update_meal_stats on a deleted meal fails and leaves the row alone. */
  lemma StatsOnDeletedFails(t: Table, id: int, result: string)
    requires id in t && t[id].deleted
    ensures StatsOutcome(t, id, result) == Failure(IdDeleted(id))
  {
  }

  /** One row of the leaderboard query: the row's columns and its win
      fraction, wins / battles. */
  datatype LeaderRow = LeaderRow(id: int, name: string, cuisine: string, price: real,
                                 difficulty: Difficulty, battles: nat, wins: nat, winFraction: real)

  /** One leaderboard entry, with the win fraction as a percentage. */
  datatype Standing = Standing(id: int, name: string, cuisine: string, price: real,
                               difficulty: Difficulty, battles: nat, wins: nat, winPct: real)

  /** The leaderboard row the query yields for a table row that has fought. */
  function LeaderRowOf(id: int, row: Row): LeaderRow
    requires row.battles > 0
  {
    LeaderRow(id, row.name, row.cuisine, row.price, row.difficulty, row.battles, row.wins,
              row.wins as real / row.battles as real)
  }

  function StandingOf(f: LeaderRow): Standing {
    Standing(f.id, f.name, f.cuisine, f.price, f.difficulty, f.battles, f.wins, f.winFraction * 100.0)
  }

  /** get_leaderboard: `sort_by` must be 'wins' (the default) or 'win_pct';
      the fetched rows come out in the order the query returned them, each
      with its win fraction turned into a percentage. */
  function GetLeaderboard(fetched: seq<LeaderRow>, sortBy: string := "wins"): (r: Result<seq<Standing>, Error>)
    ensures r.Success? <==> sortBy == "wins" || sortBy == "win_pct"
    ensures r.Failure? ==> r.error == InvalidSortBy(sortBy)
    ensures r.Success? ==> |r.value| == |fetched|
    ensures r.Success? ==> forall i :: 0 <= i < |fetched| ==>
              && r.value[i].id == fetched[i].id && r.value[i].name == fetched[i].name
              && r.value[i].cuisine == fetched[i].cuisine && r.value[i].price == fetched[i].price
              && r.value[i].difficulty == fetched[i].difficulty
              && r.value[i].battles == fetched[i].battles && r.value[i].wins == fetched[i].wins
              && r.value[i].winPct == 100.0 * fetched[i].winFraction
  {
    if sortBy == "wins" || sortBy == "win_pct" then
      Success(seq(|fetched|, i requires 0 <= i < |fetched| => StandingOf(fetched[i])))
    else Failure(InvalidSortBy(sortBy))
  }

  /** A leaderboard entry for a row of a valid table shows the percentage of
      battles won: its win_pct times the battles is 100 times the wins, and
      it lies between 0 and 100. */
  lemma WinPctOfRow(t: Table, nextId: int, id: int, sortBy: string)
    requires ValidTable(t, nextId) && id in t && t[id].battles > 0
    requires sortBy == "wins" || sortBy == "win_pct"
    ensures var r := GetLeaderboard([LeaderRowOf(id, t[id])], sortBy);
            && r.Success? && |r.value| == 1
            && r.value[0].winPct * (t[id].battles as real) == 100.0 * (t[id].wins as real)
            && 0.0 <= r.value[0].winPct <= 100.0
  {
    var row := t[id];
    var f := LeaderRowOf(id, row);
    var r := GetLeaderboard([f], sortBy);
    assert r.value[0].winPct == 100.0 * f.winFraction;
    PercentOfFraction(row.wins as real, row.battles as real);
  }

  /** Arithmetic behind WinPctOfRow: for 0 <= w <= b and b > 0, 100 * (w / b)
      times b is 100 * w and lies between 0 and 100. */
  lemma PercentOfFraction(w: real, b: real)
    requires 0.0 <= w <= b && 0.0 < b
    ensures (100.0 * (w / b)) * b == 100.0 * w
    ensures 0.0 <= 100.0 * (w / b) <= 100.0
  {
    var f := w / b;
    assert f * b == w;
    assert 0.0 <= f <= 1.0;
    assert (100.0 * f) * b == 100.0 * (f * b);
  }

  /** What the leaderboard query is taken to fetch from the table: each
      fetched row belongs to an active (not deleted) meal that has fought at
      least once, with that meal's columns and win fraction. */
  ghost predicate FetchedFrom(t: Table, fetched: seq<LeaderRow>) {
    forall i :: 0 <= i < |fetched| ==>
      && Active(t, fetched[i].id) && t[fetched[i].id].battles > 0
      && fetched[i] == LeaderRowOf(fetched[i].id, t[fetched[i].id])
  }

  /** Over rows fetched from a valid table, no leaderboard entry is a
      deleted meal, every entry shows its meal's battles and wins, and each
      percentage is 100 times wins over battles, between 0 and 100. */
  lemma LeaderboardShowsActiveRows(t: Table, nextId: int, fetched: seq<LeaderRow>, sortBy: string)
    requires ValidTable(t, nextId) && FetchedFrom(t, fetched)
    requires sortBy == "wins" || sortBy == "win_pct"
    ensures var r := GetLeaderboard(fetched, sortBy);
            && r.Success?
            && forall i :: 0 <= i < |r.value| ==>
                 && Active(t, r.value[i].id)
                 && r.value[i].battles == t[r.value[i].id].battles
                 && r.value[i].wins == t[r.value[i].id].wins
                 && r.value[i].winPct * (r.value[i].battles as real) == 100.0 * (r.value[i].wins as real)
                 && 0.0 <= r.value[i].winPct <= 100.0
  {
    var r := GetLeaderboard(fetched, sortBy);
    forall i | 0 <= i < |r.value|
      ensures r.value[i].winPct * (r.value[i].battles as real) == 100.0 * (r.value[i].wins as real)
      ensures 0.0 <= r.value[i].winPct <= 100.0
    {
      var row := t[fetched[i].id];
      PercentOfFraction(row.wins as real, row.battles as real);
    }
  }

  /** The leaderboard test's first row: a win fraction of 0.8 shows as 80.0. */
  lemma LeaderboardExample()
    ensures var r := GetLeaderboard([LeaderRow(2, "salmon", "norwegian", 27.3, LOW, 100, 80, 0.8)]);
            r.Success? && r.value[0].winPct == 80.0
  {
  }

  /** The catalogue: the table and the next autoincrement id. */
  class MealStore {
    var rows: Table
    var nextId: int

    ghost predicate Valid()
      reads this
    {
      ValidTable(rows, nextId)
    }

    constructor ()
      ensures Valid() && rows == map[] && nextId == 1
    {
      rows := map[];
      nextId := 1;
    }

    /** create_meal: validates, then inserts under the next id. */
    method CreateMeal(name: string, cuisine: string, price: PriceArg, difficulty: string) returns (r: Outcome<Error>)
      requires Valid()
      modifies this
      ensures Valid()
      ensures var n := NewMealRow(old(rows), name, cuisine, price, difficulty);
              if n.Failure? then r == Fail(n.error) && rows == old(rows) && nextId == old(nextId)
              else r == Pass && rows == old(rows)[old(nextId) := n.value] && nextId == old(nextId) + 1
    {
      var n := NewMealRow(rows, name, cuisine, price, difficulty);
      if n.Failure? {
        r := Fail(n.error);
      } else {
        InsertKeepsValid(rows, nextId, name, cuisine, price, difficulty);
        rows := rows[nextId := n.value];
        nextId := nextId + 1;
        r := Pass;
      }
    }

    /** delete_meal: sets the soft-delete flag. */
    method DeleteMeal(id: int) returns (r: Outcome<Error>)
      requires Valid()
      modifies this
      ensures Valid() && nextId == old(nextId)
      ensures var d := DeleteOutcome(old(rows), id);
              if d.Failure? then r == Fail(d.error) && rows == old(rows)
              else r == Pass && rows == d.value
    {
      var d := DeleteOutcome(rows, id);
      if d.Failure? {
        r := Fail(d.error);
      } else {
        DeleteKeepsValid(rows, nextId, id);
        rows := d.value;
        r := Pass;
      }
    }

    /** update_meal_stats: records a 'win' or a 'loss' for `id`. */
    method UpdateMealStats(id: int, result: string) returns (r: Outcome<Error>)
      requires Valid()
      modifies this
      ensures Valid() && nextId == old(nextId)
      ensures var u := StatsOutcome(old(rows), id, result);
              if u.Failure? then r == Fail(u.error) && rows == old(rows)
              else r == Pass && rows == u.value
    {
      var u := StatsOutcome(rows, id, result);
      if u.Failure? {
        r := Fail(u.error);
      } else {
        StatsKeepValid(rows, nextId, id, result);
        rows := u.value;
        r := Pass;
      }
    }
  }
}
