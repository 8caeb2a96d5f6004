/**
 * The tracker's stored data and the pages that change or summarise it:
 * loading the data file, saving a profile, logging a meal, deleting a
 * meal and today's dashboard. The clock, the request form and the JSON
 * file are parameters; `saved` records whether the page writes the file.
 */
module Tracker {
  import opened Wrappers
  import opened Text
  import opened Decimal
  import opened Foods
  import opened Setup
  import opened Tables

  /** One logged meal: its items and their total, rounded to one decimal. */
  datatype MealEntry = MealEntry(mealName: string, timestamp: string, items: seq<FoodEstimate>, totalCalories: real)

  /** The data file: the profile, if any, and the meals logged on each date. */
  datatype State = State(profile: Option<Profile>, meals: map<string, seq<MealEntry>>)

  /** The state after a page, and whether the page saved it. */
  datatype Outcome = Outcome(state: State, saved: bool)

  /** No profile and no meals. */
  const Initial: State := State(None, map[])

  /**
   * `load_data`: the decoded file when the file exists, holds more than
   * whitespace and decodes; otherwise the empty state. `decode` stands for
   * the JSON reader.
   */
  function LoadData(file: Option<string>, decode: string -> Option<State>): (s: State)
    ensures file.None? ==> s == Initial
    ensures file.Some? && AllSpace(file.value) ==> s == Initial
    ensures file.Some? && !AllSpace(file.value) && decode(Strip(file.value)).Some? ==>
              s == decode(Strip(file.value)).value
    ensures s != Initial ==> file.Some? && decode(Strip(file.value)) == Some(s)
  {
    if file.Some? && |Strip(file.value)| > 0 then decode(Strip(file.value)).GetOr(Initial) else Initial
  }

  /** A state whose saved text decodes back to it is what the next load returns. */
  lemma LoadAfterSave(s: State, encode: State -> string, decode: string -> Option<State>)
    requires !AllSpace(encode(s)) && decode(Strip(encode(s))) == Some(s)
    ensures LoadData(Some(encode(s)), decode) == s
  {
  }

  /** `meals.get(day, [])`: the meals logged on `day`, none when the date has no entry. */
  function DayMeals(s: State, day: string): (ms: seq<MealEntry>)
    ensures day in s.meals ==> ms == s.meals[day]
    ensures day !in s.meals ==> ms == []
  {
    if day in s.meals then s.meals[day] else []
  }

  /** Sum of a sequence of reals, added from the front. */
  function Sum(xs: seq<real>): (r: real)
    ensures (forall i :: 0 <= i < |xs| ==> xs[i] >= 0.0) ==> r >= 0.0
  {
    if |xs| == 0 then 0.0 else Sum(xs[..|xs| - 1]) + xs[|xs| - 1]
  }

  /** Summing two parts separately gives the sum of the whole. */
  lemma {:induction false} SumAppend(a: seq<real>, b: seq<real>)
    ensures Sum(a + b) == Sum(a) + Sum(b)
    decreases |b|
  {
    if |b| == 0 {
      assert a + b == a;
    } else {
      assert (a + b)[..|a + b| - 1] == a + b[..|b| - 1];
      SumAppend(a, b[..|b| - 1]);
    }
  }

  /** Taking one element out lowers the sum by exactly that element. */
  lemma SumRemoveAt(xs: seq<real>, i: nat)
    requires i < |xs|
    ensures Sum(xs[..i] + xs[i + 1..]) == Sum(xs) - xs[i]
  {
    assert xs[..i + 1] + xs[i + 1..] == xs;
    SumAppend(xs[..i + 1], xs[i + 1..]);
    SumAppend(xs[..i], xs[i + 1..]);
    SumPrefixStep(xs, i);
  }

  /** Extending a prefix by one element adds that element. */
  lemma SumPrefixStep(xs: seq<real>, i: nat)
    requires i < |xs|
    ensures Sum(xs[..i + 1]) == Sum(xs[..i]) + xs[i]
  {
    assert xs[..i + 1][..i] == xs[..i];
  }

  /** Calories of each item, in order. */
  function ItemCalories(items: seq<FoodEstimate>): seq<real> {
    seq(|items|, i requires 0 <= i < |items| => items[i].calories)
  }

  /** Total of each meal, in order. */
  function MealTotals(meals: seq<MealEntry>): seq<real> {
    seq(|meals|, i requires 0 <= i < |meals| => meals[i].totalCalories)
  }

  /** Calories eaten over a list of meals: the sum of their totals. */
  function Consumed(meals: seq<MealEntry>): (c: real)
    ensures |meals| == 0 ==> c == 0.0
    ensures |meals| == 1 ==> c == meals[0].totalCalories
    ensures (forall i :: 0 <= i < |meals| ==> meals[i].totalCalories >= 0.0) ==> c >= 0.0
  {
    var t := MealTotals(meals);
    assert |meals| == 1 ==> t[..|t| - 1] == [] && Sum(t) == Sum([]) + t[0];
    Sum(t)
  }

  /** Appending a meal adds its total to the calories eaten. */
  lemma ConsumedAppend(meals: seq<MealEntry>, e: MealEntry)
    ensures Consumed(meals + [e]) == Consumed(meals) + e.totalCalories
  {
    assert MealTotals(meals + [e]) == MealTotals(meals) + [e.totalCalories];
    SumAppend(MealTotals(meals), [e.totalCalories]);
    assert [e.totalCalories][..0] == [];
  }

  /** Removing a meal takes its total off the calories eaten. */
  lemma ConsumedRemoveAt(meals: seq<MealEntry>, i: nat)
    requires i < |meals|
    ensures Consumed(RemoveAt(meals, i)) == Consumed(meals) - meals[i].totalCalories
  {
    var t := MealTotals(meals);
    assert MealTotals(RemoveAt(meals, i)) == t[..i] + t[i + 1..];
    SumRemoveAt(t, i);
  }

  /** One row of the meal form: a food, an amount and a unit. */
  datatype Row = Row(food: string, amount: string, unit: string)

  /** Python's `zip` of the three form lists: as long as the shortest. */
  function Zip(foods: seq<string>, amounts: seq<string>, units: seq<string>): (rows: seq<Row>)
    ensures |rows| <= |foods| && |rows| <= |amounts| && |rows| <= |units|
    ensures |rows| == |foods| || |rows| == |amounts| || |rows| == |units|
    ensures forall k :: 0 <= k < |rows| ==> rows[k] == Row(foods[k], amounts[k], units[k])
  {
    var n := if |foods| <= |amounts| && |foods| <= |units| then |foods|
             else if |amounts| <= |units| then |amounts| else |units|;
    seq(n, k requires 0 <= k < n => Row(foods[k], amounts[k], units[k]))
  }

  /** `food.strip() and amount.strip()`: a row is used when neither the food nor the amount is blank. */
  function Kept(r: Row): (b: bool)
    ensures b <==> !AllSpace(r.food) && !AllSpace(r.amount)
  {
    |Strip(r.food)| > 0 && |Strip(r.amount)| > 0
  }

  /** The used rows, in form order. */
  function KeptRows(rows: seq<Row>): (kept: seq<Row>)
    ensures |kept| <= |rows|
    ensures forall r :: r in kept <==> r in rows && Kept(r)
  {
    if |rows| == 0 then []
    else
      var rest := KeptRows(rows[1..]);
      assert forall r :: r in rows <==> r == rows[0] || r in rows[1..];
      if Kept(rows[0]) then [rows[0]] + rest else rest
  }

  /** Filtering a concatenation filters each part. */
  lemma {:induction false} KeptRowsAppend(a: seq<Row>, b: seq<Row>)
    ensures KeptRows(a + b) == KeptRows(a) + KeptRows(b)
  {
    if |a| == 0 {
      assert a + b == b;
    } else {
      assert (a + b)[0] == a[0];
      assert (a + b)[1..] == a[1..] + b;
      KeptRowsAppend(a[1..], b);
    }
  }

  /**
   * The estimate for one used row: the grams from `parse_amount`, the
   * amount as typed followed by the unit as its display, and the tier and
   * calories of `estimate_calories` for the food as typed. `parse` stands
   * for Python's `float`.
   */
  function ItemFor(r: Row, parse: string -> Option<real>): (e: FoodEstimate)
    ensures e.food == r.food
    ensures e.amountG == ParseAmount(parse(r.amount), r.unit)
    ensures e.display == Shown(r.amount + " " + r.unit)
    ensures e.tier.Exact? <==> HasKey(FoodCalories, Normalize(r.food))
    ensures exists rate ::
      && ResolvesTo(FoodCalories, Normalize(r.food), Resolution(e.tier, rate))
      && e.calories == Kcal(rate, e.amountG)
  {
    Estimate(r.food, ParseAmount(parse(r.amount), r.unit), Some(r.amount + " " + r.unit))
  }

  /** A used row whose amount does not parse counts as one unit of its unit. */
  lemma UnparsedAmountCountsOne(r: Row, parse: string -> Option<real>)
    requires parse(r.amount).None?
    ensures ItemFor(r, parse).amountG == ClassifyUnit(r.unit).Grams()
  {
  }

  /** The estimates of the used rows, in form order. */
  function MealItems(rows: seq<Row>, parse: string -> Option<real>): (items: seq<FoodEstimate>)
    ensures |items| == |KeptRows(rows)|
    ensures forall j :: 0 <= j < |items| ==> items[j] == ItemFor(KeptRows(rows)[j], parse)
  {
    var kept := KeptRows(rows);
    seq(|kept|, j requires 0 <= j < |kept| => ItemFor(kept[j], parse))
  }

  /** The entry `log_meal` appends: the items and their total to one decimal. */
  function NewEntry(mealName: string, timestamp: string, items: seq<FoodEstimate>): (e: MealEntry)
    ensures e.items == items && e.mealName == mealName && e.timestamp == timestamp
    ensures Sum(ItemCalories(items)) - 0.05 < e.totalCalories <= Sum(ItemCalories(items)) + 0.05
    ensures IsTenths(e.totalCalories)
  {
    MealEntry(mealName, timestamp, items, Round1(Sum(ItemCalories(items))))
  }

  /**
   * `setup_profile`: a readable form replaces the profile wholesale and
   * saves; an unreadable one (a number that does not parse, a missing
   * field) changes nothing.
   */
  function SetupProfile(s: State, form: Option<ProfileInput>): (o: Outcome)
    ensures o.saved <==> form.Some?
    ensures !o.saved ==> o.state == s
    ensures o.state.meals == s.meals
    ensures o.saved ==> o.state.profile == Some(BuildProfile(form.value))
    ensures o.saved ==> o.state.profile.value.dailyTarget >= FemaleFloor as real
  {
    match form
    case None => Outcome(s, false)
    case Some(i) => Outcome(State(Some(BuildProfile(i)), s.meals), true)
  }

  /**
   * `log_meal` on `day` at `timestamp`: without a profile nothing happens;
   * otherwise the used rows become one entry appended to the day's meals,
   * and a form with no used row changes nothing.
   */
  function LogMeal(s: State, day: string, timestamp: string, mealName: string,
                   foods: seq<string>, amounts: seq<string>, units: seq<string>,
                   parse: string -> Option<real>): (o: Outcome)
    ensures o.saved <==> (s.profile.Some? &&
      exists k :: 0 <= k < |foods| && k < |amounts| && k < |units| &&
                  !AllSpace(foods[k]) && !AllSpace(amounts[k]))
    ensures !o.saved ==> o.state == s
    ensures o.state.profile == s.profile
    ensures o.saved ==> o.state.meals.Keys == s.meals.Keys + {day}
    ensures forall d :: d != day && d in s.meals ==> d in o.state.meals && o.state.meals[d] == s.meals[d]
    ensures o.saved ==> (o.state.meals[day] ==
      DayMeals(s, day) + [NewEntry(mealName, timestamp, MealItems(Zip(foods, amounts, units), parse))])
  {
    var rows := Zip(foods, amounts, units);
    var items := MealItems(rows, parse);
    KeptIffSomeRow(foods, amounts, units);
    if s.profile.None? || |items| == 0 then Outcome(s, false)
    else Outcome(AddMeal(s, day, NewEntry(mealName, timestamp, items)), true)
  }

  /** The state with `e` appended to the meals of `day`, a new date starting an empty list. */
  function AddMeal(s: State, day: string, e: MealEntry): (t: State)
    ensures t.profile == s.profile
    ensures t.meals.Keys == s.meals.Keys + {day}
    ensures t.meals[day] == DayMeals(s, day) + [e]
    ensures forall d :: d != day && d in s.meals ==> t.meals[d] == s.meals[d]
  {
    s.(meals := s.meals[day := DayMeals(s, day) + [e]])
  }

  /** Some row is used exactly when some row index has a non-blank food and amount. */
  lemma KeptIffSomeRow(foods: seq<string>, amounts: seq<string>, units: seq<string>)
    ensures |KeptRows(Zip(foods, amounts, units))| > 0 <==>
      exists k :: 0 <= k < |foods| && k < |amounts| && k < |units| &&
                  !AllSpace(foods[k]) && !AllSpace(amounts[k])
  {
    var rows := Zip(foods, amounts, units);
    var kept := KeptRows(rows);
    if |kept| > 0 {
      assert kept[0] in kept;
      var k :| 0 <= k < |rows| && rows[k] == kept[0];
      assert !AllSpace(foods[k]) && !AllSpace(amounts[k]);
    }
    if exists k :: 0 <= k < |foods| && k < |amounts| && k < |units| &&
                   !AllSpace(foods[k]) && !AllSpace(amounts[k]) {
      var k :| 0 <= k < |foods| && k < |amounts| && k < |units| &&
               !AllSpace(foods[k]) && !AllSpace(amounts[k]);
      assert rows[k] in rows && Kept(rows[k]);
    }
  }

  /** The list without its element at `i`. */
  function RemoveAt<T>(xs: seq<T>, i: nat): (ys: seq<T>)
    requires i < |xs|
    ensures |ys| == |xs| - 1
    ensures forall j :: 0 <= j < i ==> ys[j] == xs[j]
    ensures forall j :: i <= j < |ys| ==> ys[j] == xs[j + 1]
  {
    xs[..i] + xs[i + 1..]
  }

  /**
   * `delete_meal` on `day`: an index inside the day's list removes that
   * meal and saves; any other index, or a day without meals, changes
   * nothing. No profile is needed.
   */
  function DeleteMeal(s: State, day: string, index: int): (o: Outcome)
    ensures o.saved <==> day in s.meals && 0 <= index < |s.meals[day]|
    ensures !o.saved ==> o.state == s
    ensures o.state.profile == s.profile && o.state.meals.Keys == s.meals.Keys
    ensures o.saved ==> o.state.meals[day] == RemoveAt(s.meals[day], index)
    ensures forall d :: d != day && d in s.meals ==> o.state.meals[d] == s.meals[d]
  {
    if day in s.meals && 0 <= index < |s.meals[day]| then
      Outcome(s.(meals := s.meals[day := RemoveAt(s.meals[day], index)]), true)
    else
      Outcome(s, false)
  }

  /** Deleting the meal just logged gives back the day's earlier meals. */
  lemma DeleteUndoesLog(s: State, day: string, timestamp: string, mealName: string,
                        foods: seq<string>, amounts: seq<string>, units: seq<string>,
                        parse: string -> Option<real>)
    requires LogMeal(s, day, timestamp, mealName, foods, amounts, units, parse).saved
    ensures var logged := LogMeal(s, day, timestamp, mealName, foods, amounts, units, parse).state;
            var o := DeleteMeal(logged, day, |DayMeals(s, day)|);
            o.saved && DayMeals(o.state, day) == DayMeals(s, day) &&
            (day in s.meals ==> o.state == s)
  {
    DeleteUndoesAdd(s, day, NewEntry(mealName, timestamp, MealItems(Zip(foods, amounts, units), parse)));
  }

  /** Removing the last meal of a day undoes appending it. */
  lemma DeleteUndoesAdd(s: State, day: string, e: MealEntry)
    ensures var o := DeleteMeal(AddMeal(s, day, e), day, |DayMeals(s, day)|);
            o.saved && DayMeals(o.state, day) == DayMeals(s, day) &&
            (day in s.meals ==> o.state == s)
  {
    var t := AddMeal(s, day, e);
    var o := DeleteMeal(t, day, |DayMeals(s, day)|);
    assert RemoveAt(t.meals[day], |DayMeals(s, day)|) == DayMeals(s, day);
    if day in s.meals {
      assert o.state.meals == s.meals;
    }
  }

  /** What the dashboard shows for `day`. */
  datatype Summary = Summary(target: real, meals: seq<MealEntry>, consumed: real, remaining: real, progress: real)

  /** `min(100, consumed / target * 100)` when the target is positive, else 0; to one decimal. */
  function Progress(consumed: real, target: real): (p: real)
    ensures p <= 100.0
    ensures target <= 0.0 ==> p == 0.0
    ensures target > 0.0 && consumed >= 0.0 ==> p >= 0.0
    ensures target > 0.0 && consumed <= target ==> consumed / target * 100.0 - 0.05 < p <= consumed / target * 100.0 + 0.05
    ensures target > 0.0 && consumed >= target ==> p == 100.0
    ensures IsTenths(p)
  {
    Round1Integer(0);
    Round1Integer(100);
    if target > 0.0 then
      var pct := consumed / target * 100.0;
      Round1Monotone(Min100(pct), 100.0);
      PercentAtMostHundred(consumed, target);
      if consumed >= 0.0 then
        Round1NonNegative(Min100(pct));
        Round1(Min100(pct))
      else
        Round1(Min100(pct))
    else
      0.0
  }

  /**
   * A part no larger than the whole is at most 100 percent of it, and one
   * at least as large is at least 100 percent.
   */
  lemma PercentAtMostHundred(part: real, whole: real)
    requires whole > 0.0
    ensures part <= whole ==> part / whole * 100.0 <= 100.0
    ensures part >= whole ==> part / whole * 100.0 >= 100.0
    ensures part >= 0.0 ==> part / whole * 100.0 >= 0.0
  {
    assert whole / whole - part / whole == (whole - part) / whole;
  }

  /** Python's `min(100, x)`. */
  function Min100(x: real): (r: real)
    ensures r <= 100.0 && r <= x && (r == x || r == 100.0)
  {
    if x < 100.0 then x else 100.0
  }

  /** `dashboard`: nothing without a profile, else the day's meals against the stored target. */
  function Dashboard(s: State, day: string): (r: Option<Summary>)
    ensures r.Some? <==> s.profile.Some?
    ensures r.Some? ==> r.value.target == s.profile.value.dailyTarget
    ensures r.Some? ==> r.value.meals == DayMeals(s, day) && r.value.consumed == Consumed(DayMeals(s, day))
    ensures r.Some? ==> r.value.consumed + r.value.remaining == r.value.target
    ensures r.Some? ==> r.value.progress == Progress(r.value.consumed, r.value.target)
    ensures r.Some? ==> r.value.progress <= 100.0
    ensures r.Some? && day !in s.meals ==> r.value.consumed == 0.0 && r.value.remaining == r.value.target
    ensures r.Some? && r.value.target > 0.0 &&
            (forall i :: 0 <= i < |r.value.meals| ==> r.value.meals[i].totalCalories >= 0.0) ==>
            0.0 <= r.value.progress
  {
    match s.profile
    case None => None
    case Some(p) =>
      var meals := DayMeals(s, day);
      var consumed := Consumed(meals);
      Some(Summary(p.dailyTarget, meals, consumed, p.dailyTarget - consumed, Progress(consumed, p.dailyTarget)))
  }

  /** A logged meal adds its rounded total to the day's calories and takes it off what remains. */
  lemma LogMealAddsToDashboard(s: State, day: string, timestamp: string, mealName: string,
                               foods: seq<string>, amounts: seq<string>, units: seq<string>,
                               parse: string -> Option<real>)
    requires LogMeal(s, day, timestamp, mealName, foods, amounts, units, parse).saved
    ensures var logged := LogMeal(s, day, timestamp, mealName, foods, amounts, units, parse).state;
            var e := NewEntry(mealName, timestamp, MealItems(Zip(foods, amounts, units), parse));
            Dashboard(logged, day).value.consumed == Dashboard(s, day).value.consumed + e.totalCalories &&
            Dashboard(logged, day).value.remaining == Dashboard(s, day).value.remaining - e.totalCalories
  {
    var e := NewEntry(mealName, timestamp, MealItems(Zip(foods, amounts, units), parse));
    ConsumedAppend(DayMeals(s, day), e);
  }

  /** Deleting a meal takes its total off the day's calories. */
  lemma DeleteMealSubtractsFromDashboard(s: State, day: string, index: int)
    requires s.profile.Some? && DeleteMeal(s, day, index).saved
    ensures Dashboard(DeleteMeal(s, day, index).state, day).value.consumed
            == Dashboard(s, day).value.consumed - s.meals[day][index].totalCalories
  {
    ConsumedRemoveAt(s.meals[day], index);
  }

  /** After a profile is saved the dashboard opens, with a target of at least 1200 kcal. */
  lemma SetupOpensDashboard(s: State, i: ProfileInput, day: string)
    ensures var o := SetupProfile(s, Some(i));
            Dashboard(o.state, day).Some? && Dashboard(o.state, day).value.target >= 1200.0
            && Dashboard(o.state, day).value.meals == DayMeals(s, day)
  {
  }
}
