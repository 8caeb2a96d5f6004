/**
 * The food estimator (`FoodDatabase` in calories_app.py): unit-to-gram
 * conversion and the three-tier food-name match that prices an amount of
 * food in kilocalories.
 */
module Foods {
  import opened Wrappers
  import opened Text
  import opened Tables
  import opened Decimal

  /** Grams per serving word, in declaration order. */
  const ServingSizes: Table<real> := [
    ("small", 80.0), ("medium", 150.0), ("large", 250.0), ("serving", 100.0),
    ("piece", 50.0), ("slice", 30.0), ("cup", 240.0), ("bowl", 300.0),
    ("handful", 30.0), ("tbsp", 15.0), ("tsp", 5.0)
  ]

  /** Units taken as grams already (millilitres count as grams). */
  const GramUnits: seq<string> := ["g", "gram", "grams", "ml", "milliliter", "milliliters"]

  /** Grams per unit for a unit that is neither a gram unit nor a serving word. */
  const DefaultUnitGrams: real := 100.0

  /** Kilocalories per 100 g, in declaration order (the order partial matching scans). */
  const FoodCalories: Table<int> := [
    ("chicken breast", 165), ("salmon", 208), ("eggs", 155), ("tofu", 76),
    ("beef", 250), ("pork", 242), ("turkey", 135), ("tuna", 130),
    ("rice", 130), ("pasta", 131), ("bread", 265), ("potato", 77),
    ("oats", 389), ("quinoa", 120),
    ("broccoli", 34), ("spinach", 23), ("carrot", 41), ("tomato", 18),
    ("lettuce", 15), ("cucumber", 16),
    ("apple", 52), ("banana", 89), ("orange", 47), ("strawberry", 32), ("grape", 69),
    ("milk", 42), ("cheese", 402), ("yogurt", 59), ("butter", 717),
    ("pizza", 266), ("burger", 295), ("chocolate", 546), ("ice cream", 207),
    ("cookie", 488), ("chips", 536), ("soda", 41), ("coffee", 2), ("tea", 1)
  ]

  /** Kilocalories per 100 g assumed for a food nothing in the table matches. */
  const GenericRate: int := 150

  /** `s.lower().strip()`, the normalisation applied to units and food names. */
  function Normalize(s: string): (r: string)
    ensures |r| <= |s|
    ensures |r| == 0 <==> AllSpace(Lower(s))
  {
    Strip(Lower(s))
  }

  /** Surrounding whitespace and letter case do not survive normalisation. */
  lemma {:induction false} NormalizePadded(p: string, x: string, q: string)
    requires AllSpace(p) && AllSpace(q) && Trimmed(x)
    ensures Normalize(p + x + q) == Lower(x)
    ensures Normalize(x) == Lower(x)
  {
    assert Lower(p + x + q) == Lower(p) + Lower(x) + Lower(q);
    LowerAllSpace(p);
    LowerAllSpace(q);
    LowerTrimmed(x);
    StripPadded(Lower(p), Lower(x), Lower(q));
    NormalizeTrimmed(x);
  }

  /** A trimmed name is only lower-cased by normalisation. */
  lemma NormalizeTrimmed(x: string)
    requires Trimmed(x)
    ensures Normalize(x) == Lower(x)
  {
    LowerTrimmed(x);
    StripPadded("", Lower(x), "");
    assert "" + Lower(x) + "" == Lower(x);
  }

  /** Lower-casing whitespace leaves whitespace. */
  lemma LowerAllSpace(p: string)
    requires AllSpace(p)
    ensures AllSpace(Lower(p))
  {
    forall k | 0 <= k < |p| ensures IsSpace(Lower(p)[k]) {
      LowerKeepsSpace(p[k]);
    }
  }

  /** Lower-casing a trimmed string leaves it trimmed. */
  lemma LowerTrimmed(x: string)
    requires Trimmed(x)
    ensures Trimmed(Lower(x))
  {
    if |x| > 0 {
      LowerKeepsSpace(x[0]);
      LowerKeepsSpace(x[|x| - 1]);
    }
  }

  /** Lower-casing the input first changes nothing. */
  lemma NormalizeIgnoresCase(s: string)
    ensures Normalize(Lower(s)) == Normalize(s)
  {
    LowerIdempotent(s);
  }

  /** How `parse_amount` reads a unit once it is lower-cased and stripped. */
  datatype UnitKind = GramUnit | ServingWord(size: real) | UnknownUnit {
    /** Grams in one unit of this kind. */
    function Grams(): real {
      match this
      case GramUnit => 1.0
      case ServingWord(size) => size
      case UnknownUnit => DefaultUnitGrams
    }
  }

  /**
   * Reads a normalised unit: a gram or millilitre unit, else a serving
   * word with its tabulated size, else unknown.
   */
  function UnitKindOf(u: string): (k: UnitKind)
    ensures k.GramUnit? <==> u in GramUnits
    ensures k.UnknownUnit? <==> u !in GramUnits && !HasKey(ServingSizes, u)
    ensures k.ServingWord? ==> HasKey(ServingSizes, u) && k.size == Get(ServingSizes, u, DefaultUnitGrams)
  {
    if u in GramUnits then GramUnit
    else if HasKey(ServingSizes, u) then ServingWord(Get(ServingSizes, u, DefaultUnitGrams))
    else UnknownUnit
  }

  /** A serving word weighs what its first table entry says; every unit weighs at least a gram. */
  lemma UnitKindSizes(u: string)
    ensures UnitKindOf(u).ServingWord? ==>
      exists i :: 0 <= i < |ServingSizes| && ServingSizes[i] == (u, UnitKindOf(u).size) && KeyAbsentBefore(ServingSizes, u, i)
    ensures UnitKindOf(u).Grams() >= 1.0
  {
    if UnitKindOf(u).ServingWord? {
      GetPresent(ServingSizes, u, DefaultUnitGrams);
    }
  }

  /**
   * The unit as `parse_amount` reads it, after lower-casing and stripping:
   * a gram unit, else a serving word, else unknown at 100 g.
   */
  function ClassifyUnit(unit: string): (k: UnitKind)
    ensures k.GramUnit? <==> Normalize(unit) in GramUnits
    ensures k.ServingWord? <==> Normalize(unit) !in GramUnits && HasKey(ServingSizes, Normalize(unit))
    ensures k.ServingWord? ==> k.size == Get(ServingSizes, Normalize(unit), DefaultUnitGrams)
    ensures k.UnknownUnit? ==> k.Grams() == DefaultUnitGrams
    ensures k.Grams() >= 1.0
  {
    UnitKindSizes(Normalize(unit));
    UnitKindOf(Normalize(unit))
  }

  /** `amount` units of kind `k` in grams; an unreadable amount counts as one unit. */
  function Scaled(amount: Option<real>, k: UnitKind): (grams: real)
    ensures grams == amount.GetOr(1.0) * k.Grams()
    ensures k.GramUnit? ==> grams == amount.GetOr(1.0)
  {
    var a := amount.GetOr(1.0);
    match k
    case GramUnit => a
    case ServingWord(size) => a * size
    case UnknownUnit => a * DefaultUnitGrams
  }

  /** Grams scale linearly with the amount entered. */
  lemma ScaledLinear(a: real, c: real, k: UnitKind)
    ensures Scaled(Some(c * a), k) == c * Scaled(Some(a), k)
  {
  }

  /**
   * `parse_amount`: the amount in grams. `amount` is the outcome of
   * `float(amount_str)`, None when that raises; the amount then counts as 1.
   */
  function ParseAmount(amount: Option<real>, unit: string): (grams: real)
    ensures ClassifyUnit(unit).GramUnit? ==> grams == amount.GetOr(1.0)
    ensures amount.None? ==> grams == ClassifyUnit(unit).Grams()
  {
    Scaled(amount, ClassifyUnit(unit))
  }

  /** The unit is matched without regard to case or surrounding whitespace. */
  lemma {:induction false} ClassifyUnitPadded(p: string, unit: string, q: string)
    requires AllSpace(p) && AllSpace(q) && Trimmed(unit)
    ensures ClassifyUnit(p + unit + q) == UnitKindOf(Lower(unit))
    ensures ClassifyUnit(unit) == UnitKindOf(Lower(unit))
  {
    NormalizePadded(p, unit, q);
  }

  /** Grams do not depend on the case of the unit or the whitespace around it. */
  lemma {:induction false} ParseAmountUnitNormalized(amount: Option<real>, p: string, unit: string, q: string)
    requires AllSpace(p) && AllSpace(q) && Trimmed(unit)
    ensures ParseAmount(amount, p + unit + q) == ParseAmount(amount, Lower(unit))
  {
    assert ClassifyUnit(p + unit + q) == ClassifyUnit(Lower(unit)) by {
      ClassifyUnitPadded(p, unit, q);
      NormalizeIgnoresCase(unit);
    }
  }

  /** A slice is a 30 g serving word. */
  lemma SliceUnit()
    ensures UnitKindOf("slice") == ServingWord(30.0)
  {
    assert "slice" !in GramUnits;
    HasKeyIff(ServingSizes, "slice");
    GetFirst(ServingSizes, "slice", DefaultUnitGrams, 5);
  }

  /** A cup is a 240 g serving word. */
  lemma CupUnit()
    ensures UnitKindOf("cup") == ServingWord(240.0)
  {
    HasKeyIff(ServingSizes, "cup");
    GetFirst(ServingSizes, "cup", DefaultUnitGrams, 6);
  }

  /** "spoonful" is neither a gram unit nor a serving word. */
  lemma SpoonfulUnit()
    ensures UnitKindOf("spoonful") == UnknownUnit
  {
    assert "spoonful" !in GramUnits;
    HasKeyIff(ServingSizes, "spoonful");
  }

  /**
   * Worked conversions, for every spelling of the unit: two slices weigh
   * 60 g, an unreadable amount of cups counts as one cup of 240 g, 150 g
   * stay 150 g, and three of an unknown unit count 300 g.
   */
  lemma ParseAmountExamples(slice: string, cup: string, gram: string, spoonful: string)
    requires Normalize(slice) == "slice" && Normalize(cup) == "cup"
    requires Normalize(gram) == "g" && Normalize(spoonful) == "spoonful"
    ensures ParseAmount(Some(2.0), slice) == 60.0
    ensures ParseAmount(None, cup) == 240.0
    ensures ParseAmount(Some(150.0), gram) == 150.0
    ensures ParseAmount(Some(3.0), spoonful) == 300.0
  {
    SliceUnit();
    CupUnit();
    SpoonfulUnit();
  }

  /** `round(rate * grams / 100, 1)`: kilocalories in `grams` of a food of `rate` kcal per 100 g. */
  function Kcal(rate: int, grams: real): (c: real)
    ensures IsTenths(c)
    ensures rate as real * grams / 100.0 - 0.05 < c <= rate as real * grams / 100.0 + 0.05
  {
    Round1(rate as real * grams / 100.0)
  }

  /** A whole number of hundreds of grams costs exactly that many times the rate. */
  lemma KcalHundreds(rate: int, n: int)
    ensures Kcal(rate, 100.0 * n as real) == (rate * n) as real
  {
    assert rate as real * (100.0 * n as real) / 100.0 == (rate * n) as real;
    Round1Integer(rate * n);
  }

  /** For a non-negative rate, more food never costs fewer kilocalories. */
  lemma KcalMonotone(rate: int, g: real, h: real)
    requires rate >= 0 && g <= h
    ensures Kcal(rate, g) <= Kcal(rate, h)
  {
    var x := rate as real * g / 100.0;
    var y := rate as real * h / 100.0;
    PerHundredMonotone(rate as real, g, h);
    Round1Monotone(x, y);
    assert Kcal(rate, g) == Round1(x) && Kcal(rate, h) == Round1(y);
  }

  /** How a food name was matched (`'match'` and `'matched_to'` of the result). */
  datatype Match = Exact | Approximate(matchedTo: string) | GenericEstimate

  /** `key in food_lower or food_lower in key`. */
  predicate PartialHit(key: string, name: string) {
    Occurs(key, name) || Occurs(name, key)
  }

  /** Position of the first entry at or after `from` whose key partially matches `name`; `|t|` when none does. */
  function PartialFrom(t: Table<int>, name: string, from: nat): (i: nat)
    requires from <= |t|
    ensures from <= i <= |t|
    ensures i < |t| ==> PartialHit(t[i].0, name)
    ensures forall j :: from <= j < i ==> !PartialHit(t[j].0, name)
    decreases |t| - from
  {
    if from == |t| then |t|
    else if PartialHit(t[from].0, name) then from
    else PartialFrom(t, name, from + 1)
  }

  /** Position of the first entry whose key partially matches `name`; `|t|` when none does. */
  function FirstPartial(t: Table<int>, name: string): (i: nat)
    ensures i <= |t|
    ensures i < |t| ==> PartialHit(t[i].0, name)
    ensures forall j :: 0 <= j < i ==> !PartialHit(t[j].0, name)
  {
    PartialFrom(t, name, 0)
  }

  /** The tier a name falls in and the rate, in kcal per 100 g, that prices it. */
  datatype Resolution = Resolution(tier: Match, rate: int)

  /** The three-tier lookup of a normalised name: exact key, first partial match, generic rate. */
  function Resolve(t: Table<int>, name: string): (r: Resolution)
    ensures r.tier.Exact? <==> HasKey(t, name)
    ensures r.tier.Approximate? <==> !HasKey(t, name) && FirstPartial(t, name) < |t|
    ensures r.tier.GenericEstimate? ==> r.rate == GenericRate
  {
    if HasKey(t, name) then Resolution(Exact, Get(t, name, GenericRate))
    else
      var i := FirstPartial(t, name);
      if i < |t| then Resolution(Approximate(t[i].0), t[i].1)
      else Resolution(GenericEstimate, GenericRate)
  }

  /** What the lookup must answer, stated over the entries of the table. */
  predicate ResolvesTo(t: Table<int>, name: string, r: Resolution) {
    match r.tier
    case Exact =>
      exists i :: 0 <= i < |t| && t[i] == (name, r.rate) && KeyAbsentBefore(t, name, i)
    case Approximate(key) =>
      (forall j :: 0 <= j < |t| ==> t[j].0 != name) &&
      exists i :: 0 <= i < |t| && t[i] == (key, r.rate) && PartialHit(key, name) &&
        forall j :: 0 <= j < i ==> !PartialHit(t[j].0, name)
    case GenericEstimate =>
      r.rate == GenericRate &&
      forall j :: 0 <= j < |t| ==> t[j].0 != name && !PartialHit(t[j].0, name)
  }

  /** The lookup gives exactly the answer the entry-wise description allows. */
  lemma ResolveSpec(t: Table<int>, name: string, r: Resolution)
    ensures ResolvesTo(t, name, r) <==> r == Resolve(t, name)
  {
    HasKeyIff(t, name);
    var i := FirstPartial(t, name);
    if r == Resolve(t, name) {
      if HasKey(t, name) {
        GetPresent(t, name, GenericRate);
      } else if i < |t| {
        assert t[i] == (r.tier.matchedTo, r.rate);
      }
    }
    if ResolvesTo(t, name, r) {
      match r.tier
      case Exact =>
        var k :| 0 <= k < |t| && t[k] == (name, r.rate) && KeyAbsentBefore(t, name, k);
        GetFirst(t, name, GenericRate, k);
      case Approximate(key) =>
        var k :| 0 <= k < |t| && t[k] == (key, r.rate) && PartialHit(key, name) &&
          forall j :: 0 <= j < k ==> !PartialHit(t[j].0, name);
        assert i == k;
      case GenericEstimate =>
    }
  }

  /** The `'amount_display'` of an estimate: the text given, or the grams when there is none. */
  datatype Display = Shown(text: string) | GramsOf(grams: real)

  /** `amount_display if amount_display else f"{amount_g}g"`: an empty text counts as none. */
  function DisplayFor(amountDisplay: Option<string>, amountG: real): (d: Display)
    ensures d.Shown? <==> amountDisplay.Some? && |amountDisplay.value| > 0
    ensures d.Shown? ==> d.text == amountDisplay.value
    ensures d.GramsOf? ==> d.grams == amountG
  {
    if amountDisplay.Some? && |amountDisplay.value| > 0 then Shown(amountDisplay.value) else GramsOf(amountG)
  }

  /** The dictionary `estimate_calories` returns; it never returns None. */
  datatype FoodEstimate = FoodEstimate(
    food: string,
    calories: real,
    amountG: real,
    display: Display,
    tier: Match)

  /**
   * `estimate_calories`: prices `amountG` grams of the food named
   * `foodName` by the three-tier lookup of its normalised name.
   */
  function Estimate(foodName: string, amountG: real, amountDisplay: Option<string>): (e: FoodEstimate)
    ensures e.food == foodName && e.amountG == amountG
    ensures e.display == DisplayFor(amountDisplay, amountG)
    ensures e.tier.Exact? <==> HasKey(FoodCalories, Normalize(foodName))
    ensures exists rate ::
      && ResolvesTo(FoodCalories, Normalize(foodName), Resolution(e.tier, rate))
      && e.calories == Kcal(rate, amountG)
  {
    var r := Resolve(FoodCalories, Normalize(foodName));
    ResolveSpec(FoodCalories, Normalize(foodName), r);
    FoodEstimate(foodName, Kcal(r.rate, amountG), amountG, DisplayFor(amountDisplay, amountG), r.tier)
  }

  /** The tier and calories depend on the name only through its normalised form. */
  lemma EstimateNormalized(p: string, name: string, q: string, amountG: real, amountDisplay: Option<string>)
    requires AllSpace(p) && AllSpace(q) && Trimmed(name)
    ensures Estimate(p + name + q, amountG, amountDisplay).tier == Estimate(Lower(name), amountG, amountDisplay).tier
    ensures Estimate(p + name + q, amountG, amountDisplay).calories == Estimate(Lower(name), amountG, amountDisplay).calories
  {
    NormalizePadded(p, name, q);
    NormalizeIgnoresCase(name);
  }

  /** Every rate in the table is non-negative. */
  lemma RatesNonNegative()
    ensures forall i :: 0 <= i < |FoodCalories| ==> FoodCalories[i].1 >= 0
  {
  }

  /** The lookup prices every name at a non-negative rate. */
  lemma ResolveRateNonNegative(name: string)
    ensures Resolve(FoodCalories, name).rate >= 0
  {
    RatesNonNegative();
    if HasKey(FoodCalories, name) {
      GetPresent(FoodCalories, name, GenericRate);
    }
  }

  /** For one food, a larger amount is never estimated at fewer kilocalories. */
  lemma EstimateMonotone(foodName: string, g: real, h: real, d: Option<string>, d': Option<string>)
    requires g <= h
    ensures Estimate(foodName, g, d).calories <= Estimate(foodName, h, d').calories
  {
    var n := Normalize(foodName);
    ResolveRateNonNegative(n);
    KcalMonotone(Resolve(FoodCalories, n).rate, g, h);
  }
}
