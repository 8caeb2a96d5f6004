/**
 * The profile the setup page stores: the calculator's figures, the daily
 * target after the gender-aware calorie floor, and the time-to-goal
 * estimate driven by the deficit that is actually planned.
 */
module Setup {
  import opened Wrappers
  import opened Text
  import opened Decimal
  import opened Calculator
  import opened Tables

  /** Lowest daily intake the page allows for a woman. */
  const FemaleFloor: int := 1200
  /** Lowest daily intake the page allows for everyone else. */
  const DefaultFloor: int := 1500

  /** The floor depends only on whether the gender reads "female", in any case. */
  function MinSafeCalories(gender: string): (m: int)
    ensures m == FemaleFloor <==> Lower(gender) == "female"
    ensures m == DefaultFloor <==> Lower(gender) != "female"
  {
    if Lower(gender) == "female" then FemaleFloor else DefaultFloor
  }

  /** Neither floor is below the calculator's own 1200 kcal limit. */
  lemma MinSafeAtLeastLibraryFloor(gender: string)
    ensures MinSafeCalories(gender) as real >= LibraryFloor
    ensures MinSafeCalories(gender) <= DefaultFloor
  {
  }

  /**
   * The planned day: the target as stored (rounded to one decimal), the
   * intended and the actual daily deficit, and whether the floor bit.
   */
  datatype Plan = Plan(target: real, intendedDeficit: real, actualDeficit: real, floorApplied: bool)

  /**
   * From a maintenance figure, the deficit a rate asks for and the floor:
   * the raw target is maintenance minus the intended deficit, raised to the
   * floor when it falls below it.
   */
  function PlanTarget(tdee: real, rateDeficit: real, minSafe: int): (p: Plan)
    ensures p.intendedDeficit == Round1(rateDeficit)
    ensures p.floorApplied <==> tdee - p.intendedDeficit < minSafe as real
    ensures p.target >= minSafe as real
    ensures p.target >= Round1(tdee - p.intendedDeficit)
    ensures p.floorApplied ==> p.target == minSafe as real
    ensures !p.floorApplied ==> p.target == Round1(tdee - p.intendedDeficit)
    ensures !p.floorApplied ==> p.actualDeficit == p.intendedDeficit
    ensures p.actualDeficit <= p.intendedDeficit
    ensures p.floorApplied ==> p.actualDeficit == Round1(tdee - minSafe as real)
  {
    var intended := Round1(rateDeficit);
    var raw := tdee - intended;
    var actual := Max(raw, minSafe as real);
    Round1Monotone(minSafe as real, actual);
    Round1Integer(minSafe);
    Round1Monotone(raw, actual);
    Round1Monotone(tdee - actual, intended);
    Round1Idempotent(rateDeficit);
    Plan(Round1(actual), intended, Round1(tdee - actual), actual != raw)
  }

  /** `int(x + 0.9999)`, the page's way of rounding a day count up. */
  function RoundUpDays(x: real): (n: int)
    ensures x >= 0.0 ==> 0 <= n && x - 0.0001 < n as real <= x + 0.9999
  {
    Truncate(x + 0.9999)
  }

  /** The least integer not below `x`. */
  function Ceiling(x: real): (n: int)
    ensures n as real - 1.0 < x <= n as real
  {
    if x.Floor as real == x then x.Floor else x.Floor + 1
  }

  /**
   * `RoundUpDays` is the ceiling unless `x` lies above an integer by less
   * than 0.0001, and even then it is only one day short.
   */
  lemma RoundUpDaysNearCeiling(x: real)
    requires x >= 0.0
    ensures Ceiling(x) - 1 <= RoundUpDays(x) <= Ceiling(x)
    ensures x.Floor as real == x || x - x.Floor as real >= 0.0001 ==> RoundUpDays(x) == Ceiling(x)
  {
  }

  /** Just above a whole number the page's rounding comes out a day short. */
  lemma RoundUpDaysShortJustAboveInteger()
    ensures RoundUpDays(10.00005) == 10
    ensures Ceiling(10.00005) == 11
  {
  }

  /** The time-to-goal estimate: whole days, and weeks to one decimal. */
  datatype Goal = Goal(days: int, weeks: real)

  /**
   * An estimate exists only when there is weight to lose and the actual
   * deficit is positive; the days cover the 7700 kcal per kilogram at that
   * deficit.
   */
  function TimeToGoal(weight: real, idealWeight: real, actualDeficit: real): (g: Option<Goal>)
    ensures g.Some? <==> actualDeficit > 0.0 && weight > idealWeight
    ensures g.Some? ==>
      var days := (weight - idealWeight) * KcalPerKg / actualDeficit;
      0 <= g.value.days && days - 0.0001 < g.value.days as real <= days + 0.9999
    ensures g.Some? ==> g.value.days as real / 7.0 - 0.05 < g.value.weeks <= g.value.days as real / 7.0 + 0.05
    ensures g.Some? ==> IsTenths(g.value.weeks)
  {
    var toLose := Max(0.0, weight - idealWeight);
    var needed := toLose * KcalPerKg;
    if actualDeficit > 0.0 && toLose > 0.0 then
      assert needed / actualDeficit >= 0.0;
      var days := RoundUpDays(needed / actualDeficit);
      Some(Goal(days, Round1(days as real / 7.0)))
    else
      None
  }

  /** More weight to lose at the same deficit never shortens the estimate. */
  lemma TimeToGoalGrowsWithWeight(w: real, w': real, idealWeight: real, deficit: real)
    requires idealWeight < w <= w'
    requires deficit > 0.0
    ensures TimeToGoal(w, idealWeight, deficit).value.days <= TimeToGoal(w', idealWeight, deficit).value.days
  {
    var x := (w - idealWeight) * KcalPerKg;
    var y := (w' - idealWeight) * KcalPerKg;
    DivideMonotone(x, y, deficit);
  }

  /** Dividing by the same positive amount keeps the order. */
  lemma DivideMonotone(x: real, y: real, d: real)
    requires x <= y && d > 0.0
    ensures x / d <= y / d
  {
    assert y / d - x / d == (y - x) / d;
  }

  /**
   * A 70 kg woman of 165 cm and 30 years, sedentary (maintenance 1704.3),
   * asking for the moderate 550 kcal deficit toward 60 kg: the raw target
   * 1154.3 is raised to 1200, the deficit shrinks to 504.3 and the goal is
   * 153 days, or 21.9 weeks, away.
   */
  lemma FloorExample()
    ensures PlanTarget(1704.3, 550.0, FemaleFloor) == Plan(1200.0, 550.0, 504.3, true)
    ensures TimeToGoal(70.0, 60.0, 504.3) == Some(Goal(153, 21.9))
  {
    Round1Integer(550);
    Round1Integer(1200);
    Round1Exact(504.3);
    var x := 10.0 * KcalPerKg / 504.3;
    assert 152.0 < x < 153.0;
    assert RoundUpDays(x) == 153;
    var w := 153.0 / 7.0;
    assert 21.85 <= w < 21.95;
    assert (w * 10.0 + 0.5).Floor == 219;
  }

  /** The values read from the setup form. */
  datatype ProfileInput = ProfileInput(
    weight: real, height: real, age: int, gender: string,
    activityLevel: string, weightLossRate: string, idealWeight: real)

  /** The stored user profile; the calendar goal date is not modelled. */
  datatype Profile = Profile(
    input: ProfileInput,
    bmr: real, tdee: real, dailyTarget: real, idealWeightTdee: real,
    intendedDailyDeficit: real, actualDailyDeficit: real,
    safetyFloorApplied: bool, minSafeCalories: int,
    goal: Option<Goal>)

  /** Maintenance calories for the form's measurements, unrounded. */
  function InputTdee(i: ProfileInput): real {
    Tdee(Bmr(i.weight, i.height, i.age, i.gender), i.activityLevel)
  }

  /** Everything the setup page computes from a readable form. */
  function BuildProfile(i: ProfileInput): (p: Profile)
    ensures p.input == i
    ensures p.minSafeCalories == MinSafeCalories(i.gender)
    ensures p.dailyTarget >= p.minSafeCalories as real
    ensures p.intendedDailyDeficit == DailyDeficitForRate(i.weightLossRate)
    ensures p.safetyFloorApplied <==> InputTdee(i) - p.intendedDailyDeficit < p.minSafeCalories as real
    ensures p.safetyFloorApplied ==> p.dailyTarget == p.minSafeCalories as real
    ensures !p.safetyFloorApplied ==> p.actualDailyDeficit == p.intendedDailyDeficit
    ensures p.actualDailyDeficit <= p.intendedDailyDeficit
    ensures p.goal.Some? <==> p.actualDailyDeficit > 0.0 && i.weight > i.idealWeight
    ensures !p.safetyFloorApplied ==> p.dailyTarget == Round1(InputTdee(i) - p.intendedDailyDeficit)
    ensures p.goal == TimeToGoal(i.weight, i.idealWeight, p.actualDailyDeficit)
    ensures p.safetyFloorApplied ==> p.actualDailyDeficit == Round1(InputTdee(i) - p.minSafeCalories as real)
    ensures p.bmr == Round1(Bmr(i.weight, i.height, i.age, i.gender)) && p.tdee == Round1(InputTdee(i))
    ensures p.idealWeightTdee == Round1(IdealWeightTdee(i.weight, i.idealWeight, i.height, i.age, i.gender, i.activityLevel))
    ensures IsTenths(p.bmr) && IsTenths(p.tdee) && IsTenths(p.dailyTarget) && IsTenths(p.idealWeightTdee)
  {
    var tdee := InputTdee(i);
    var rateDeficit := DailyDeficitForRate(i.weightLossRate);
    RateDeficitTenths(i.weightLossRate);
    var minSafe := MinSafeCalories(i.gender);
    var plan := PlanTarget(tdee, rateDeficit, minSafe);
    Profile(
      i,
      Round1(Bmr(i.weight, i.height, i.age, i.gender)), Round1(tdee), plan.target,
      Round1(IdealWeightTdee(i.weight, i.idealWeight, i.height, i.age, i.gender, i.activityLevel)),
      plan.intendedDeficit, plan.actualDeficit, plan.floorApplied, minSafe,
      TimeToGoal(i.weight, i.idealWeight, plan.actualDeficit))
  }

  /**
   * The same woman as `FloorExample`, from the form: 70 kg, 165 cm, 30
   * years, sedentary, moderate rate, goal 60 kg. Her BMR is 1420.25, her
   * maintenance 1704.3, and the stored profile carries the 1200 kcal floor,
   * the 504.3 kcal deficit and the 153-day estimate.
   */
  lemma FloorExampleProfile(i: ProfileInput)
    requires i == ProfileInput(70.0, 165.0, 30, "female", "sedentary", "moderate", 60.0)
    ensures InputTdee(i) == 1704.3
    ensures BuildProfile(i).safetyFloorApplied && BuildProfile(i).minSafeCalories == FemaleFloor
    ensures BuildProfile(i).dailyTarget == 1200.0 && BuildProfile(i).intendedDailyDeficit == 550.0
    ensures BuildProfile(i).actualDailyDeficit == 504.3
    ensures BuildProfile(i).goal == Some(Goal(153, 21.9))
  {
    assert Lower(i.gender) == "female";
    assert Bmr(i.weight, i.height, i.age, i.gender) == 1420.25;
    assert Lower(i.activityLevel) == "sedentary";
    GetFirst(ActivityMultipliers, "sedentary", DefaultMultiplier, 0);
    assert Lower(i.weightLossRate) == "moderate";
    FloorExample();
  }

  /**
   * A gender that is neither "male" nor "female" gets the non-male BMR
   * formula together with the 1500 kcal floor.
   */
  lemma UnrecognisedGender(i: ProfileInput)
    requires Lower(i.gender) != "male" && Lower(i.gender) != "female"
    ensures BuildProfile(i).minSafeCalories == DefaultFloor
    ensures BuildProfile(i).bmr == Round1(10.0 * i.weight + 6.25 * i.height - 5.0 * i.age as real - 161.0)
    ensures BuildProfile(i).dailyTarget >= DefaultFloor as real
  {
  }

  /** Each rate's daily deficit is already a whole number of tenths. */
  lemma RateDeficitTenths(rate: string)
    ensures Round1(DailyDeficitForRate(rate)) == DailyDeficitForRate(rate)
  {
    var d := DailyDeficitForRate(rate);
    assert d == 275.0 || d == 550.0 || d == 825.0 by {
      DeficitTablesAgree(Lower(rate));
    }
    Round1Integer(d.Floor);
  }

  /**
   * The goal weight only feeds the time-to-goal estimate and the goal-weight
   * maintenance figure: the target and the deficits do not depend on it.
   */
  lemma TargetIgnoresIdealWeight(i: ProfileInput, idealWeight: real)
    ensures var p := BuildProfile(i);
            var q := BuildProfile(i.(idealWeight := idealWeight));
            p.dailyTarget == q.dailyTarget && p.actualDailyDeficit == q.actualDailyDeficit
            && p.safetyFloorApplied == q.safetyFloorApplied && p.bmr == q.bmr && p.tdee == q.tdee
  {
  }
}
