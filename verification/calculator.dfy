/**
 * The metabolic calculator (`CalorieCalculator` in calories_app.py):
 * Mifflin-St Jeor basal metabolic rate, activity-scaled daily energy
 * expenditure, and the calorie deficit that goes with each weight-loss rate.
 */
module Calculator {
  import opened Text
  import opened Tables
  import opened Decimal

  /** Kilocalories in one kilogram of body fat. */
  const KcalPerKg: real := 7700.0

  /** The gender test used by the BMR formula: only "male", in any case. */
  predicate IsMale(gender: string) {
    Lower(gender) == "male"
  }

  /**
   * Mifflin-St Jeor basal metabolic rate. Any gender other than "male",
   * including unrecognised strings, gets the -161 formula.
   */
  function Bmr(weight: real, height: real, age: int, gender: string): (r: real)
    ensures IsMale(gender) ==> r == 10.0 * weight + 6.25 * height - 5.0 * age as real + 5.0
    ensures !IsMale(gender) ==> r == 10.0 * weight + 6.25 * height - 5.0 * age as real - 161.0
  {
    if Lower(gender) == "male" then
      10.0 * weight + 6.25 * height - 5.0 * age as real + 5.0
    else
      10.0 * weight + 6.25 * height - 5.0 * age as real - 161.0
  }

  /** For equal measurements the male BMR exceeds every other one by exactly 166. */
  lemma BmrSexGap(weight: real, height: real, age: int, male: string, other: string)
    requires IsMale(male) && !IsMale(other)
    ensures Bmr(weight, height, age, male) - Bmr(weight, height, age, other) == 166.0
  {
  }

  /** Each extra kilogram adds 10 kcal to the BMR, whatever the gender. */
  lemma BmrWeightSlope(weight: real, extra: real, height: real, age: int, gender: string)
    ensures Bmr(weight + extra, height, age, gender) == Bmr(weight, height, age, gender) + 10.0 * extra
  {
  }

  /** The two worked examples: 80 kg, 180 cm, 30 y male and 60 kg, 165 cm, 25 y female. */
  lemma BmrExamples()
    ensures Bmr(80.0, 180.0, 30, "male") == 1780.0
    ensures Bmr(60.0, 165.0, 25, "female") == 1345.25
  {
    assert Lower("male") == "male";
    assert |Lower("female")| == 6;
  }

  /** Activity multipliers, in declaration order. */
  const ActivityMultipliers: Table<real> := [
    ("sedentary", 1.2),
    ("light", 1.375),
    ("moderate", 1.55),
    ("active", 1.725),
    ("very_active", 1.9)
  ]

  /** The multiplier for an unrecognised activity level (sedentary). */
  const DefaultMultiplier: real := 1.2

  /** Case-insensitive multiplier lookup; unknown levels count as sedentary. */
  function Multiplier(level: string): (m: real)
    ensures 1.2 <= m <= 1.9
    ensures !HasKey(ActivityMultipliers, Lower(level)) ==> m == DefaultMultiplier
    ensures HasKey(ActivityMultipliers, Lower(level)) ==>
      exists i :: 0 <= i < |ActivityMultipliers| && ActivityMultipliers[i] == (Lower(level), m)
  {
    var k := Lower(level);
    if HasKey(ActivityMultipliers, k) then
      GetPresent(ActivityMultipliers, k, DefaultMultiplier);
      Get(ActivityMultipliers, k, DefaultMultiplier)
    else
      GetMissing(ActivityMultipliers, k, DefaultMultiplier);
      Get(ActivityMultipliers, k, DefaultMultiplier)
  }

  /** Total daily energy expenditure: the BMR scaled by the activity multiplier. */
  function Tdee(bmr: real, level: string): (r: real)
    ensures r == bmr * Multiplier(level)
    ensures bmr >= 0.0 ==> 1.2 * bmr <= r <= 1.9 * bmr
    ensures bmr <= 0.0 ==> 1.9 * bmr <= r <= 1.2 * bmr
  {
    var m := Multiplier(level);
    ScaleBetween(bmr, m);
    bmr * m
  }

  /** Scaling by a factor between 1.2 and 1.9 stays between the two extremes. */
  lemma ScaleBetween(x: real, m: real)
    requires 1.2 <= m <= 1.9
    ensures x >= 0.0 ==> 1.2 * x <= x * m <= 1.9 * x
    ensures x <= 0.0 ==> 1.9 * x <= x * m <= 1.2 * x
  {
    if x >= 0.0 {
      assert x * m - 1.2 * x == x * (m - 1.2);
      assert 1.9 * x - x * m == x * (1.9 - m);
    } else {
      assert x * m - 1.9 * x == (-x) * (1.9 - m);
      assert 1.2 * x - x * m == (-x) * (m - 1.2);
    }
  }

  /** The multipliers of the three least active levels, looked up case-insensitively. */
  lemma MultiplierTable()
    ensures Multiplier("sedentary") == 1.2
    ensures Multiplier("Light") == 1.375
    ensures Multiplier("MODERATE") == 1.55
  {
    assert Lower("sedentary") == "sedentary";
    GetFirst(ActivityMultipliers, "sedentary", DefaultMultiplier, 0);
    assert Lower("Light") == "light";
    GetFirst(ActivityMultipliers, "light", DefaultMultiplier, 1);
    assert Lower("MODERATE") == "moderate";
    GetFirst(ActivityMultipliers, "moderate", DefaultMultiplier, 2);
  }

  /** The two most active levels, and an unknown level falling back to the sedentary factor. */
  lemma MultiplierTableActive()
    ensures Multiplier("active") == 1.725
    ensures Multiplier("very_active") == 1.9
    ensures Multiplier("couch") == DefaultMultiplier
  {
    assert Lower("active") == "active";
    GetFirst(ActivityMultipliers, "active", DefaultMultiplier, 3);
    assert Lower("very_active") == "very_active";
    GetFirst(ActivityMultipliers, "very_active", DefaultMultiplier, 4);
    assert Lower("couch") == "couch";
    HasKeyIff(ActivityMultipliers, "couch");
  }

  /** Weekly deficit per weight-loss rate, as `calculate_target_calories` tabulates it. */
  const WeeklyDeficits: Table<real> := [
    ("slow", KcalPerKg * 0.25),
    ("moderate", KcalPerKg * 0.5),
    ("fast", KcalPerKg * 0.75)
  ]

  /** Daily deficit per weight-loss rate, as `daily_deficit_for_rate` tabulates it. */
  const DailyDeficits: Table<real> := [
    ("slow", KcalPerKg * 0.25 / 7.0),
    ("moderate", KcalPerKg * 0.5 / 7.0),
    ("fast", KcalPerKg * 0.75 / 7.0)
  ]

  /** Daily deficit for an unrecognised rate: the moderate one. */
  const DefaultDailyDeficit: real := KcalPerKg * 0.5 / 7.0

  /**
   * The fallback `calculate_target_calories` uses in place of a weekly
   * deficit. It is already a daily figure, yet it is divided by 7 with the
   * weekly values.
   */
  const TargetDefaultDeficit: real := 550.0

  /**
   * Floor of `calculate_target_calories`. The source writes
   * `1200 if True else 1500`, so the 1500 alternative is never taken.
   */
  const LibraryFloor: real := 1200.0

  /** The rate is one of "slow", "moderate", "fast", in any case. */
  predicate IsKnownRate(rate: string) {
    HasKey(DailyDeficits, Lower(rate))
  }

  /** Both deficit tables list the same rates, the weekly values being seven days' worth. */
  lemma DeficitTablesAgree(k: string)
    ensures HasKey(WeeklyDeficits, k) <==> HasKey(DailyDeficits, k)
    ensures k == "slow" ==> Get(DailyDeficits, k, DefaultDailyDeficit) == 275.0 && Get(WeeklyDeficits, k, TargetDefaultDeficit) == 1925.0
    ensures k == "moderate" ==> Get(DailyDeficits, k, DefaultDailyDeficit) == 550.0 && Get(WeeklyDeficits, k, TargetDefaultDeficit) == 3850.0
    ensures k == "fast" ==> Get(DailyDeficits, k, DefaultDailyDeficit) == 825.0 && Get(WeeklyDeficits, k, TargetDefaultDeficit) == 5775.0
    ensures HasKey(DailyDeficits, k) <==> k == "slow" || k == "moderate" || k == "fast"
    ensures !HasKey(DailyDeficits, k) ==>
      Get(DailyDeficits, k, DefaultDailyDeficit) == DefaultDailyDeficit &&
      Get(WeeklyDeficits, k, TargetDefaultDeficit) == TargetDefaultDeficit
  {
    HasKeyIff(WeeklyDeficits, k);
    HasKeyIff(DailyDeficits, k);
    if k == "slow" {
      GetFirst(DailyDeficits, k, DefaultDailyDeficit, 0);
      GetFirst(WeeklyDeficits, k, TargetDefaultDeficit, 0);
    } else if k == "moderate" {
      GetFirst(DailyDeficits, k, DefaultDailyDeficit, 1);
      GetFirst(WeeklyDeficits, k, TargetDefaultDeficit, 1);
    } else if k == "fast" {
      GetFirst(DailyDeficits, k, DefaultDailyDeficit, 2);
      GetFirst(WeeklyDeficits, k, TargetDefaultDeficit, 2);
    } else {
      GetMissing(DailyDeficits, k, DefaultDailyDeficit);
      GetMissing(WeeklyDeficits, k, TargetDefaultDeficit);
    }
  }

  /**
   * The intended daily deficit: 275, 550 or 825 kcal for slow, moderate or
   * fast, and the moderate 550 for any other rate.
   */
  function DailyDeficitForRate(rate: string): (d: real)
    ensures Lower(rate) == "slow" ==> d == 275.0
    ensures Lower(rate) == "moderate" ==> d == 550.0
    ensures Lower(rate) == "fast" ==> d == 825.0
    ensures !IsKnownRate(rate) ==> d == 550.0
  {
    DeficitTablesAgree(Lower(rate));
    Get(DailyDeficits, Lower(rate), DefaultDailyDeficit)
  }

  /** Faster rates mean strictly larger deficits. */
  lemma DeficitIncreasesWithRate()
    ensures DailyDeficitForRate("slow") < DailyDeficitForRate("moderate") < DailyDeficitForRate("fast")
  {
    assert Lower("slow") == "slow";
    assert Lower("moderate") == "moderate";
    assert Lower("fast") == "fast";
  }

  /**
   * `calculate_target_calories`: the TDEE less the rate's daily deficit,
   * never below 1200 kcal. For an unrecognised rate the deficit is 550/7,
   * not 550.
   */
  function TargetCalories(tdee: real, rate: string): (r: real)
    ensures r >= LibraryFloor
    ensures IsKnownRate(rate) ==> r == Max(tdee - DailyDeficitForRate(rate), LibraryFloor)
    ensures !IsKnownRate(rate) ==> r == Max(tdee - TargetDefaultDeficit / 7.0, LibraryFloor)
  {
    DeficitTablesAgree(Lower(rate));
    var deficit := Get(WeeklyDeficits, Lower(rate), TargetDefaultDeficit) / 7.0;
    Max(tdee - deficit, LibraryFloor)
  }

  /**
   * The target `calculate_target_calories` evidently means to compute: the
   * TDEE less `daily_deficit_for_rate`, so that an unrecognised rate gets the
   * moderate 550 kcal deficit.
   */
  function IntendedTargetCalories(tdee: real, rate: string): (r: real)
    ensures r >= LibraryFloor
    ensures r == tdee - DailyDeficitForRate(rate) || r == LibraryFloor
    ensures r >= tdee - DailyDeficitForRate(rate)
    ensures !IsKnownRate(rate) ==> r == Max(tdee - 550.0, LibraryFloor)
    ensures IsKnownRate(rate) ==> r == TargetCalories(tdee, rate)
  {
    Max(tdee - DailyDeficitForRate(rate), LibraryFloor)
  }

  /**
   * With an unrecognised rate and a TDEE of 2000, the library target keeps
   * 2000 - 550/7 (about 1921) where a moderate deficit gives 1450.
   */
  lemma UnknownRateDeficitDividedTwice()
    ensures !IsKnownRate("steady")
    ensures TargetCalories(2000.0, "steady") == 2000.0 - 550.0 / 7.0
    ensures IntendedTargetCalories(2000.0, "steady") == 1450.0
  {
    assert |Lower("steady")| == 6;
    DeficitTablesAgree(Lower("steady"));
  }

  /**
   * `calculate_ideal_weight_tdee`: the TDEE at the goal weight. It ignores
   * the current weight; compared with the current TDEE it is lower by
   * 10 kcal per kilogram to lose, scaled by the activity multiplier.
   */
  function IdealWeightTdee(currentWeight: real, idealWeight: real, height: real, age: int,
                           gender: string, level: string): (r: real)
    ensures r == Tdee(Bmr(currentWeight, height, age, gender), level)
                 - 10.0 * (currentWeight - idealWeight) * Multiplier(level)
    ensures idealWeight <= currentWeight ==> r <= Tdee(Bmr(currentWeight, height, age, gender), level)
  {
    var m := Multiplier(level);
    BmrWeightSlope(idealWeight, currentWeight - idealWeight, height, age, gender);
    assert (Bmr(idealWeight, height, age, gender) + 10.0 * (currentWeight - idealWeight)) * m
        == Bmr(idealWeight, height, age, gender) * m + 10.0 * (currentWeight - idealWeight) * m;
    ScaleBetween(10.0 * (currentWeight - idealWeight), m);
    Tdee(Bmr(idealWeight, height, age, gender), level)
  }

  /** Maintenance at the goal weight does not depend on the current weight. */
  lemma IdealWeightTdeeIgnoresCurrentWeight(w1: real, w2: real, idealWeight: real, height: real,
                                            age: int, gender: string, level: string)
    ensures IdealWeightTdee(w1, idealWeight, height, age, gender, level)
         == IdealWeightTdee(w2, idealWeight, height, age, gender, level)
  {
  }
}
