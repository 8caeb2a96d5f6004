# Calorie deficit engine, modelled in Dafny

This project models the decision logic of a calorie-deficit tracker: a Flask web app with a console twin. It proves properties of that model. The model has four parts.

- **Metabolic calculator** (`CalorieCalculator`, module `Calculator`).
  - Mifflin-St Jeor BMR.
  - TDEE from a case-insensitive activity-multiplier table.
  - The daily deficit for each weight-loss rate.
  - The library target with its 1200 kcal floor.
  - Maintenance calories at the goal weight.
- **Profile setup** (the arithmetic inside the web app's `setup_profile`, module `Setup`).
  - The gender-aware floor: 1200 kcal for "female", 1500 kcal otherwise.
  - The planned target and the actual deficit.
  - Whether the floor was applied.
  - The estimated days and weeks to the goal weight.
- **Food estimator** (`FoodDatabase`, module `Foods`).
  - `parse_amount` turns an amount and a unit into grams through the serving table.
  - `estimate_calories` prices a food by a three-tier match:
    - the exact normalised name;
    - otherwise the first table key, in declaration order, that contains the name or is contained in it;
    - otherwise a generic 150 kcal per 100 g.
- **Tracker state** (module `Tracker`).
  - The `{user_profile, meals}` record of `load_data`: a profile and a map from date to meals.
  - The pages that change that record: profile setup, meal logging, meal deletion.
  - The dashboard summary.

Python dictionaries are ordered `seq`s of pairs, looked up by first match (module `Tables`). Python's `str.lower()`, `str.strip()`, `round(x, 1)` and `int(x)` are written out in modules `Text` and `Decimal`.

Inputs the program reads from outside are parameters:
- the date;
- the timestamp;
- the form lists;
- `float()` of an amount, as a function `string -> Option<real>`;
- the JSON reader, as a function `string -> Option<State>`.

Each page returns the new state together with a flag. The flag says whether the page saves the data file.

The model keeps these behaviours of the code, including those that look unintended:
- **Unreadable or negative amounts.** A meal row is dropped only when its food or its amount is blank (app.py:175). A negative amount is kept. An amount that does not parse counts as 1 of its unit, because `parse_amount` falls back to `amount = 1` (calories_app.py:198-201).
- **Days to goal.** This figure is `int(x + 0.9999)` (app.py:69), not a true ceiling. `Setup.RoundUpDaysNearCeiling` bounds the difference, and `Setup.RoundUpDaysShortJustAboveInteger` shows it.
- **The library floor ignores gender.** `calculate_target_calories` floors at `1200 if True else 1500`, which is always 1200, although its comment reads `# 1200 for female, 1500 for male` (calories_app.py:79). `Calculator.TargetCalories` keeps the 1200. The web page computes this target only "for reference" (app.py:52-53) and stores the gender-aware floor of app.py:59-63 instead. The console `setup_profile` stores the library target (calories_app.py:336, 351); that path is left out below.
- **An empty food name.** It matches "chicken breast" approximately, because the empty string occurs in every key (calories_app.py:243-244; `FoodFacts.BlankNameApproximate`). The docstring's "or None if not found" (calories_app.py:226) never happens: every name gets an estimate.

## Model

| member | source | states |
|---|---|---|
| Text.Lower | calories_app.py:203 | `str.lower()` keeps the length and folds each ASCII capital to its small letter, leaving every other character alone |
| Text.Strip | calories_app.py:228 | `str.strip()` gives the empty string exactly when the text is all whitespace; otherwise it is the slice of the text that starts and ends on a non-whitespace character with only whitespace before and after it |
| Decimal.Round1 | calories_app.py:236 | `round(x, 1)` is a whole number of tenths within 0.05 of x, which fixes it uniquely (halves go up) |
| Decimal.Truncate | app.py:69 | `int(x)` is the integer part: for x ≥ 0 it lies in (x − 1, x], for x < 0 in [x, x + 1) |
| Calculator.Bmr | calories_app.py:30-34 | Mifflin-St Jeor: 10w + 6.25h − 5a + 5 when the lower-cased gender is "male", and −161 instead of +5 for every other string |
| Calculator.BmrSexGap | calories_app.py:30-33 | for equal measurements, the male BMR exceeds any other gender's by exactly 166 |
| Calculator.BmrWeightSlope | calories_app.py:31-33 | each extra kilogram adds exactly 10 kcal to the BMR |
| Calculator.BmrExamples | test_calories_app.py:16-26 | 80 kg, 180 cm, 30 y, male gives 1780; 60 kg, 165 cm, 25 y, female gives 1345.25 |
| Calculator.Multiplier | calories_app.py:48-55 | the multiplier lies between 1.2 and 1.9; an unknown level gets 1.2; a known level gets its table entry |
| Calculator.Tdee | calories_app.py:37-56 | TDEE is the BMR times the level's multiplier, so for a non-negative BMR it lies between 1.2·BMR and 1.9·BMR |
| Calculator.MultiplierTable | test_calories_app.py:28-38 | sedentary, light and moderate give 1.2, 1.375 and 1.55, in any letter case |
| Calculator.MultiplierTableActive | calories_app.py:48-55 | active gives 1.725, very_active gives 1.9, and an unlisted level falls back to 1.2 |
| Calculator.DeficitTablesAgree | calories_app.py:71-92 | the weekly and daily deficit tables list the same three rates; each weekly value is seven times the daily one |
| Calculator.DailyDeficitForRate | calories_app.py:82-92 | slow, moderate and fast give 275, 550 and 825 kcal a day in any case; an unknown rate gives 550 |
| Calculator.DeficitIncreasesWithRate | calories_app.py:87-91 | the daily deficit strictly increases from slow to moderate to fast |
| Calculator.TargetCalories | calories_app.py:59-79 | the target is never below 1200; a known rate gives max(tdee − daily deficit, 1200); an unknown rate gives max(tdee − 550/7, 1200) |
| Calculator.IntendedTargetCalories | calories_app.py:76-79 | corrected target: at least 1200 and at least tdee − daily deficit; an unknown rate takes the 550 kcal deficit; known rates agree with the library |
| Calculator.UnknownRateDeficitDividedTwice | calories_app.py:76 | for the unknown rate "steady" and a TDEE of 2000, the library target is 2000 − 550/7, while the corrected target is 1450 |
| Calculator.IdealWeightTdee | calories_app.py:95-112 | goal-weight maintenance equals the current TDEE less 10 kcal per kilogram to lose, times the multiplier; it is never above the current TDEE when the goal is lower |
| Calculator.IdealWeightTdeeIgnoresCurrentWeight | calories_app.py:110-112 | goal-weight maintenance does not depend on the current weight |
| Foods.Normalize | calories_app.py:203 | normalising never lengthens a name, and gives the empty string exactly when the name is all whitespace |
| Foods.NormalizePadded | calories_app.py:228 | surrounding whitespace is dropped and letters are lower-cased |
| Foods.UnitKindOf | calories_app.py:205-214 | a unit is a gram unit exactly when it is in the gram list; it is unknown exactly when it is in neither table; a serving word weighs its table entry |
| Foods.UnitKindSizes | calories_app.py:119-131 | every serving word has a first table entry and weighs at least 1 g |
| Foods.ClassifyUnit | calories_app.py:203-214 | after lower-casing and stripping, a unit is a gram unit exactly when it is in the gram list, a serving word exactly when it is not and is a serving key, weighing that entry; anything else weighs 100 g; every unit weighs at least 1 g |
| Foods.Scaled | calories_app.py:198-214 | grams are the amount (1 when it does not parse) times the unit's weight; gram units keep the amount unchanged |
| Foods.ScaledLinear | calories_app.py:211-214 | grams scale linearly with the amount |
| Foods.ParseAmount | calories_app.py:187-214 | gram units return the amount; an unparseable amount counts as one unit |
| Foods.ClassifyUnitPadded | calories_app.py:203 | unit classification ignores surrounding whitespace and letter case |
| Foods.ParseAmountUnitNormalized | calories_app.py:203-214 | the grams do not depend on the unit's case or surrounding whitespace |
| Foods.ParseAmountExamples | calories_app.py:119-131 | two slices are 60 g; an unreadable number of cups is 240 g; 150 g stay 150 g; three of an unknown unit are 300 g |
| Foods.Kcal | calories_app.py:236 | calories are a whole number of tenths, within 0.05 of rate × grams / 100 |
| Foods.KcalHundreds | calories_app.py:236 | n hundred grams cost exactly n times the rate |
| Foods.KcalMonotone | calories_app.py:236 | for a non-negative rate, more grams never cost fewer calories |
| Foods.PartialFrom | calories_app.py:243-244 | returns the first entry at or after the start whose key contains the name or lies in it, or the end of the table when none does |
| Foods.FirstPartial | calories_app.py:243-244 | returns the first entry whose key partially matches, or the end of the table |
| Foods.Resolve | calories_app.py:231-261 | the tier is exact if and only if the name is a key; approximate if and only if it is no key but some key partially matches; the generic tier has rate 150; `Foods.ResolveSpec` pins the whole answer |
| Foods.ResolveSpec | calories_app.py:231-261 | the lookup gives a result if and only if the result meets the entry-wise description: the first exact key; else the first partial match, in table order; else rate 150 with no key matching at all |
| Foods.DisplayFor | calories_app.py:229 | the given display text is kept exactly when it is present and non-empty; otherwise the grams are shown |
| Foods.Estimate | calories_app.py:217-261 | the food name and grams are kept as given; the tier is exact if and only if the normalised name is a key; the calories are the rounded price at a rate the three-tier description allows |
| Foods.EstimateNormalized | calories_app.py:228 | the tier and calories depend only on the lower-cased, stripped name |
| Foods.ResolveRateNonNegative | calories_app.py:134-184 | every name is priced at a non-negative rate |
| Foods.EstimateMonotone | calories_app.py:236-257 | for one food, a larger amount never has fewer calories |
| FoodFacts.ChickenBreastExact | test_calories_app.py:57-62 | "chicken breast", in any case and padding, is an exact match at 165 kcal per 100 g |
| FoodFacts.RiceScales | test_calories_app.py:64-68 | 200 g of rice is an exact match worth 260 kcal |
| FoodFacts.KeysShort | calories_app.py:134-184 | every food key has 3 to 14 characters |
| FoodFacts.LongNameNotKey | calories_app.py:232 | a normalised name longer than 14 characters is never an exact match |
| FoodFacts.GrilledChickenBreastResolves | calories_app.py:243-244 | "grilled chicken breast" resolves approximately to "chicken breast" at 165 |
| FoodFacts.GrilledChickenBreastApproximate | test_calories_app.py:70-75 | the estimate for "grilled chicken breast" is approximate, matched to "chicken breast" |
| FoodFacts.BlankResolves | calories_app.py:243-244 | in any table with non-empty keys, the empty name approximately matches the first entry |
| FoodFacts.BlankNameApproximate | calories_app.py:228-249 | an all-whitespace name is an approximate match to "chicken breast" at 165 kcal per 100 g |
| FoodFacts.ForeignResolves | calories_app.py:231-261 | a non-empty name sharing no character with any key falls through to the generic tier |
| FoodFacts.ForeignNameGeneric | test_calories_app.py:77-82 | a name with no character used by any key is a generic estimate at 150 kcal per 100 g |
| FoodFacts.SushiGeneric | test_calories_app.py:77-82 | a name that normalises to "寿司" gets the generic estimate: 150 kcal for 100 g |
| FoodFacts.SushiNormal | calories_app.py:228 | "寿司" is already lower-case and stripped |
| Setup.MinSafeCalories | app.py:60 | the floor is 1200 exactly when the lower-cased gender is "female", and 1500 exactly when it is not |
| Setup.MinSafeAtLeastLibraryFloor | app.py:60 | neither web floor is below the library's 1200 kcal, and neither exceeds 1500 |
| Setup.PlanTarget | app.py:57-63 | the target is at least the floor; the floor applies if and only if the raw target is below it; without the floor the target is the raw one and the actual deficit equals the intended one; the actual deficit never exceeds the intended one |
| Setup.RoundUpDays | app.py:69 | `int(x + 0.9999)` is a non-negative day count within (x − 0.0001, x + 0.9999] |
| Setup.RoundUpDaysNearCeiling | app.py:69 | the day count is the ceiling of x, or one less, and only when x lies less than 0.0001 above an integer |
| Setup.RoundUpDaysShortJustAboveInteger | app.py:69 | for x = 10.00005 the page counts 10 days where the ceiling is 11 |
| Setup.TimeToGoal | app.py:66-75 | an estimate exists if and only if the actual deficit is positive and the weight exceeds the goal; the days cover weight-to-lose × 7700 / deficit; the weeks are the days over 7, to one decimal |
| Setup.TimeToGoalGrowsWithWeight | app.py:66-69 | at the same deficit, more weight to lose never shortens the estimate |
| Setup.FloorExample | app.py:57-70 | from maintenance 1704.3 (70 kg, 165 cm, 30 y, female, sedentary) with the moderate rate and goal 60 kg: the 1154.3 raw target is lifted to 1200; the deficit is 504.3; the goal is 153 days or 21.9 weeks away |
| Setup.FloorExampleProfile | app.py:50-98 | from the form (70 kg, 165 cm, 30 y, female, sedentary, moderate, goal 60 kg): maintenance 1704.3, floor applied, target 1200, intended deficit 550, actual 504.3, goal 153 days or 21.9 weeks |
| Setup.BuildProfile | app.py:50-98 | the stored profile keeps the form; its target is at least the gender floor, equals the floor when the floor applies, and is the rounded raw target otherwise; the floor applies if and only if the raw target is below the floor; the actual deficit never exceeds the intended one and equals it without the floor; with the floor, the actual deficit is maintenance minus the floor, to one decimal; the goal estimate exists exactly when the actual deficit is positive and there is weight to lose; the stored BMR, maintenance and goal-weight maintenance are the calculator's figures to one decimal |
| Setup.UnrecognisedGender | app.py:60 | a gender other than male or female gets the non-male BMR and the 1500 floor |
| Setup.RateDeficitTenths | app.py:57 | rounding the rate's deficit to one decimal leaves it unchanged |
| Setup.TargetIgnoresIdealWeight | app.py:50-63 | the target, the deficits, the floor flag, BMR and TDEE do not depend on the goal weight |
| Tracker.LoadData | calories_app.py:271-284 | a missing or blank file gives no profile and no meals; a file with content that decodes gives the decoded state; content the reader rejects gives the empty state |
| Tracker.LoadAfterSave | calories_app.py:271-284 | a state whose saved text decodes back is what the next load returns |
| Tracker.DayMeals | app.py:144 | `meals.get(day, [])`: the stored list when the date is present, the empty list when it is not |
| Tracker.SumAppend | app.py:145 | the sum of a concatenation is the sum of the parts |
| Tracker.SumRemoveAt | app.py:280 | removing one value lowers the sum by exactly that value |
| Tracker.Zip | app.py:174 | the rows are as many as the shortest form list, and row k pairs the k-th entries |
| Tracker.Kept | app.py:175 | a row is used if and only if neither its food nor its amount is all whitespace |
| Tracker.KeptRows | app.py:175 | a row is kept if and only if it is in the form and neither its food nor its amount is blank |
| Tracker.KeptRowsAppend | app.py:174-175 | filtering two parts and concatenating gives the filtered whole, so form order is kept |
| Tracker.ItemFor | app.py:177-179 | an item keeps the food as typed; its grams come from `parse_amount`; its display is the amount, a space and the unit; its tier is exact if and only if the normalised food is a key, and its calories are the rounded price at a rate the three-tier description allows |
| Tracker.UnparsedAmountCountsOne | app.py:175-177 | a kept row whose amount does not parse counts as one of its unit |
| Tracker.MealItems | app.py:173-182 | there is one item per kept row, in order |
| Tracker.NewEntry | app.py:185-196 | the entry's total is a whole number of tenths within 0.05 of the sum of its items' calories, which pins `round(total, 1)` |
| Tracker.SetupProfile | app.py:40-99 | a readable form replaces the profile wholesale, leaves the meals alone, saves, and gives a target of at least 1200; an unreadable form changes nothing |
| Tracker.LogMeal | app.py:164-199 | without a profile, or with no row having a non-blank food and amount, nothing changes and nothing is saved; otherwise exactly one entry is appended at the end of the day's meals, creating the date if needed, and every other date is untouched |
| Tracker.KeptIffSomeRow | app.py:174-175 | some row is kept if and only if some index within all three lists has a non-blank food and amount |
| Tracker.AddMeal | app.py:188-198 | appending adds the date to the keys, puts the entry last, and leaves the profile and other dates alone |
| Tracker.RemoveAt | app.py:280 | removing element i keeps the elements before it and shifts the later ones down by one |
| Tracker.DeleteMeal | app.py:276-281 | a meal is removed and the data saved if and only if the date exists and the index is in range; the date stays even when emptied; the profile and other dates are untouched |
| Tracker.DeleteUndoesAdd | app.py:188-198 | deleting the last meal of a date undoes appending it |
| Tracker.DeleteUndoesLog | app.py:276-281 | deleting the meal just logged restores the date's earlier meals |
| Tracker.ConsumedAppend | app.py:145 | appending a meal adds its total to the calories eaten |
| Tracker.ConsumedRemoveAt | app.py:145 | removing a meal subtracts its total from the calories eaten |
| Tracker.Consumed | app.py:145 | no meals eat 0; one meal eats its total; meals with non-negative totals eat a non-negative amount; with `Tracker.ConsumedAppend` this fixes the sum |
| Tracker.Progress | app.py:147 | progress is a whole number of tenths and at most 100; it is 0 for a non-positive target; it is exactly 100 when consumption reaches a positive target; below that it is within 0.05 of consumed/target·100; it is non-negative when consumption is |
| Tracker.Dashboard | app.py:137-147 | a summary exists exactly when there is a profile; consumed plus remaining is the stored target; a date without meals has consumed 0; the progress is the one `Tracker.Progress` describes for the consumed calories and the stored target, so it never exceeds 100 and is non-negative when every meal total is |
| Tracker.LogMealAddsToDashboard | app.py:145-146 | after a saved log, consumed rises and remaining falls by exactly the new entry's total |
| Tracker.DeleteMealSubtractsFromDashboard | app.py:145 | after a deletion, consumed falls by exactly the deleted meal's total |
| Tracker.SetupOpensDashboard | app.py:137-142 | after a profile is saved, the dashboard opens with a target of at least 1200 and the date's meals unchanged |

## Left out

- **Flask plumbing.** Routing, templates, redirects, `session`, `request.form`, `jsonify` and the per-user data file path are left out. Pages return a state and a saved flag instead.
- **The other pages.** The results page, the profile view, the estimate page and the food-estimate API route only render or forward values the modelled functions compute.
- **The console menu.** The console versions of setup, meal logging and the daily view in calories_app.py are a separate front end and are not modelled. They differ from the web pages. Console setup stores `round(calculate_target_calories(...), 1)` as the target (calories_app.py:336, 351): the library target with the 1200 floor for every gender, and no deficits or time to goal. Console meal logging reads grams with `float()` and skips a row that does not parse, without `parse_amount` (calories_app.py:386-399).
- **The JSON file.** Reading and writing is a decode-function parameter in `Tracker.LoadData`. `json.dump` is not modelled.
- Tracker.LoadData: `decode` returns a `State` or nothing, so every content the reader rejects gives the empty state. The program does otherwise in two cases (calories_app.py:276-280). It returns valid JSON that is not a `{user_profile, meals}` object, such as `null`, `[]` or `{}`, as the data, and later pages then fail: with `{}` on `data['meals']` (KeyError); with `null` or `[]` on `data.get(...)` (AttributeError) in the index, dashboard, log-meal, estimate and profile pages, and on `data['meals']` (TypeError) in `delete_meal` (app.py:279). A `UnicodeDecodeError` while reading is not caught and propagates. Neither case is modelled.
- **The clock.** The date, the timestamp and the calendar goal date (`datetime.now()` plus `timedelta`) are outside the model. The date and timestamp are parameters; the goal date is not stored in `Setup.Profile`.
- Tracker.SetupProfile: a goal date past year 9999 makes the program abort without saving, while the model saves. `datetime.now() + timedelta(days=days_to_goal)` (app.py:71) raises OverflowError, and the `except (ValueError, KeyError)` at app.py:126 does not catch it. Such a date needs a tiny actual deficit and a large weight to lose. For example: female, 51.11 kg, 160 cm, 70 years, sedentary, slow rate, goal 10 kg. The floor leaves a 0.1 kcal deficit, for about 3.2 million days.
- **Floats.** Numbers are exact reals, and `round(x, 1)` rounds halves upward. Python's half-even rounding of binary floats is not reproduced. The dashboard's whole-number display rounding is not modelled.
- **`str.lower()`** is modelled for ASCII letters only: every non-ASCII character passes through unchanged. Python also folds accented capitals such as "É", and folds the Kelvin sign U+212A to an ASCII "k". So "coo\u212Aie" is an exact match for "cookie" (488 kcal per 100 g) in the program, but the model gives it the generic 150.
- **Parsing the setup form.** `float()`/`int()` on the form fields and the `ValueError`/`KeyError` handler collapse into an `Option<ProfileInput>`. None stands for an unreadable form.
- **The `except ValueError` in meal logging.** It is unreachable, because `parse_amount` catches every parse error itself. The model has no such branch.
- **The library target in the web page.** The web `setup_profile` (app.py) computes `calculate_target_calories` and never uses the result, so `Setup.BuildProfile` does not compute it.
- **Concurrent requests** against one data file are not modelled.
- Foods.ParseAmount: its own ensures state only the gram-unit case and the unparsed-amount case. The serving-word product (amount × the word's size) and the unknown-unit product (amount × 100) are stated on `Foods.Scaled` and `Foods.ClassifyUnit`, which `ParseAmount` combines.
- FoodFacts.SushiGeneric: the test's "unknown exotic food" is not proved generic. That would take a negative substring fact for each of the 38 keys, and no lemma here states those facts. `FoodFacts.ForeignNameGeneric` states the generic tier for every name sharing no character with any key, and this lemma instantiates it.
- Foods.EstimateNormalized: the case-insensitivity test compares "BANANA" with "banana". The lemma states this for every name, and no literal instance is proved.

## Findings

| source | as written | input that shows it | evidently intended | confidence | as-written member | corrected member |
|---|---|---|---|---|---|---|
| calories_app.py:76 | `deficit_per_week.get(rate, 550) / 7`: the default 550 is already a daily figure but is divided by 7 again | rate "steady", TDEE 2000: target 2000 − 550/7 ≈ 1921.4 | the moderate deficit of 550 kcal a day, as in `daily_deficit_for_rate`, for a target of 1450 | not executed; high, the comment and `daily_deficit_for_rate` both say 550 a day | Calculator.UnknownRateDeficitDividedTwice | Calculator.IntendedTargetCalories |
