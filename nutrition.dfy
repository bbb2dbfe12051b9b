/** The nutrition arithmetic of lib/utils.ts: basal metabolic rate, total
    daily energy expenditure, the U.S. Navy body-fat method, per-serving
    scaling, daily totals, the progress colour and the macro split. */
module Nutrition {
  import opened JsRuntime
  import opened Types
  import opened Constants

  // ---------------------------------------------------------------------
  // Energy expenditure

  /** calculateBMR: the Mifflin-St Jeor equation, in kcal per day. */
  function Bmr(weight: real, height: real, age: real, gender: Gender): (r: real)
    ensures r == 10.0 * weight + 6.25 * height - 5.0 * age + (if gender == Male then 5.0 else -161.0)
  {
    var base := 10.0 * weight + 6.25 * height - 5.0 * age;
    if gender == Male then base + 5.0 else base - 161.0
  }

  /** For the same measurements a man's rate is 166 kcal above a woman's. */
  lemma BmrGenderGap(weight: real, height: real, age: real)
    ensures Bmr(weight, height, age, Male) - Bmr(weight, height, age, Female) == 166.0
  {
  }

  /** The rate grows with weight and height and falls with age. */
  lemma BmrMonotone(w1: real, h1: real, a1: real, w2: real, h2: real, a2: real, g: Gender)
    requires w1 <= w2 && h1 <= h2 && a1 >= a2
    ensures Bmr(w1, h1, a1, g) <= Bmr(w2, h2, a2, g)
  {
  }

  /** calculateTDEE: the rate scaled by the activity multiplier, with the
      500 kcal deficit and surplus targets, all rounded. */
  function Tdee(weight: real, height: real, age: real, gender: Gender, activity: ActivityLevel): (r: TdeeResult)
    ensures NearestInt(r.bmr, Bmr(weight, height, age, gender))
    ensures NearestInt(r.tdee, Bmr(weight, height, age, gender) * ActivityMultiplier(activity))
    ensures r.deficit == r.tdee - 500 && r.surplus == r.tdee + 500
  {
    var bmr := Bmr(weight, height, age, gender);
    var tdee := bmr * ActivityMultiplier(activity);
    RoundShift(tdee, -500);
    RoundShift(tdee, 500);
    TdeeResult(Round(bmr), Round(tdee), Round(tdee - 500.0), Round(tdee + 500.0))
  }

  /** With a positive basal rate, expenditure is never below the basal rate. */
  lemma TdeeAtLeastBmr(weight: real, height: real, age: real, gender: Gender, activity: ActivityLevel)
    requires Bmr(weight, height, age, gender) > 0.0
    ensures Tdee(weight, height, age, gender, activity).tdee >= Tdee(weight, height, age, gender, activity).bmr
  {
    var bmr := Bmr(weight, height, age, gender);
    assert bmr <= bmr * ActivityMultiplier(activity);
    RoundMonotone(bmr, bmr * ActivityMultiplier(activity));
  }

  /** A 70 kg, 175 cm, 30 year old moderately active man. */
  lemma TdeeExample()
    ensures Tdee(70.0, 175.0, 30.0, Male, Moderate) == TdeeResult(1649, 2556, 2056, 3056)
  {
    assert Bmr(70.0, 175.0, 30.0, Male) == 1648.75;
    assert 1648.75 * 1.55 == 2555.5625;
  }

  // ---------------------------------------------------------------------
  // Body fat

  /** Math.max(0, Math.min(100, p)). */
  function Clamp(p: real): (r: real)
    ensures 0.0 <= r <= 100.0
    ensures 0.0 <= p <= 100.0 ==> r == p
    ensures p < 0.0 ==> r == 0.0
    ensures p > 100.0 ==> r == 100.0
  {
    var capped := if p < 100.0 then p else 100.0;
    if 0.0 > capped then 0.0 else capped
  }

  /** Index of the first band whose max is at least p (|bands| if none is). */
  function FirstBand(bands: seq<BodyFatBand>, p: real): (i: nat)
    ensures i <= |bands|
    ensures i < |bands| ==> p <= bands[i].max
    ensures forall j | 0 <= j < i :: bands[j].max < p
  {
    if bands == [] then 0
    else if p <= bands[0].max then 0
    else 1 + FirstBand(bands[1..], p)
  }

  /** categories.find(c => p <= c.max)?.category || 'Unknown'. */
  function Category(gender: Gender, p: real): (r: string)
    ensures r == "Unknown" <==> p > 100.0
    ensures r != "Unknown" ==> exists i | 0 <= i < |BodyFatCategories(gender)| ::
      r == BodyFatCategories(gender)[i].category && p <= BodyFatCategories(gender)[i].max
  {
    BodyFatTablesWellFormed(gender);
    var bands := BodyFatCategories(gender);
    var i := FirstBand(bands, p);
    if i < |bands| && bands[i].category != "" then bands[i].category else "Unknown"
  }

  /** Every percentage from 0 to 100 falls in a band of the table: the
      category is never 'Unknown', and it is the band that the percentage
      exceeds the previous maximum of and does not exceed the maximum of. */
  lemma CategoryInTable(gender: Gender, p: real)
    requires 0.0 <= p <= 100.0
    ensures Category(gender, p) != "Unknown"
    ensures exists i | 0 <= i < 5 ::
      && Category(gender, p) == BodyFatCategories(gender)[i].category
      && p <= BodyFatCategories(gender)[i].max
      && (i == 0 || BodyFatCategories(gender)[i - 1].max < p)
  {
    var bands := BodyFatCategories(gender);
    BodyFatTablesWellFormed(gender);
    var i := FirstBand(bands, p);
    assert i < 5;
    assert Category(gender, p) == bands[i].category;
    assert i == 0 || bands[i - 1].max < p;
  }

  /** The result for a raw estimate: clamped to [0, 100], classified, and
      rounded to one decimal place (the category is taken before rounding). */
  function Classify(gender: Gender, raw: real): (r: BodyFatResult)
    ensures 0.0 <= r.percentage <= 100.0
    ensures r.category != "Unknown" && r.category == Category(gender, Clamp(raw))
    ensures r.percentage * 10.0 == Round(Clamp(raw) * 10.0) as real
  {
    var p := Clamp(raw);
    CategoryInTable(gender, p);
    RoundTenthMonotone(0.0, p);
    RoundTenthMonotone(p, 100.0);
    BodyFatResult(RoundTenth(p), Category(gender, p))
  }

  /** The U.S. Navy circumference formula; log10 is Math.log10. */
  function NavyEstimate(gender: Gender, waist: real, neck: real, height: real, hip: real, log10: real -> real): real {
    if gender == Male then
      86.01 * log10(waist - neck) - 70.041 * log10(height) + 36.76
    else
      163.205 * log10(waist + hip - neck) - 97.684 * log10(height) - 78.387
  }

  const HipRequired := "Hip measurement required for female body fat calculation"

  /** calculateBodyFat: a woman's estimate needs a hip measurement (`!hip`
      rejects both a missing and a zero one); a man's never does. */
  function BodyFat(gender: Gender, waist: real, neck: real, height: real, hip: Option<real>, log10: real -> real)
    : (r: Result<BodyFatResult>)
    ensures r.Err? <==> gender == Female && (hip.None? || hip.value == 0.0)
    ensures r.Err? ==> r.message == HipRequired
    ensures r.Ok? ==> 0.0 <= r.value.percentage <= 100.0 && r.value.category != "Unknown"
    ensures r.Ok? ==> r.value == Classify(gender, NavyEstimate(gender, waist, neck, height, hip.GetOr(0.0), log10))
  {
    if gender == Male then
      Ok(Classify(Male, NavyEstimate(Male, waist, neck, height, hip.GetOr(0.0), log10)))
    else if hip.None? || hip.value == 0.0 then
      Err(HipRequired)
    else
      Ok(Classify(Female, NavyEstimate(Female, waist, neck, height, hip.value, log10)))
  }

  // ---------------------------------------------------------------------
  // Per-serving nutrients and daily totals

  /** calculateCaloriesFromFood: the per-100 g values scaled to the serving
      weight, calories to a whole number and macros to one decimal. */
  function CaloriesFromFood(food: FoodItem, weightGrams: real): (r: Nutrients)
    ensures NearestInt(r.calories.Floor, Serving(food.caloriesPer100g, weightGrams))
    ensures r.calories == r.calories.Floor as real
    ensures r.protein * 10.0 == Round(Serving(food.proteinPer100g, weightGrams) * 10.0) as real
    ensures r.carbs * 10.0 == Round(Serving(food.carbsPer100g, weightGrams) * 10.0) as real
    ensures r.fat * 10.0 == Round(Serving(food.fatPer100g, weightGrams) * 10.0) as real
    ensures Serving(food.proteinPer100g, weightGrams) - 0.05 < r.protein <= Serving(food.proteinPer100g, weightGrams) + 0.05
    ensures Serving(food.carbsPer100g, weightGrams) - 0.05 < r.carbs <= Serving(food.carbsPer100g, weightGrams) + 0.05
    ensures Serving(food.fatPer100g, weightGrams) - 0.05 < r.fat <= Serving(food.fatPer100g, weightGrams) + 0.05
  {
    Nutrients(
      Round(Serving(food.caloriesPer100g, weightGrams)) as real,
      RoundTenth(Serving(food.proteinPer100g, weightGrams)),
      RoundTenth(Serving(food.carbsPer100g, weightGrams)),
      RoundTenth(Serving(food.fatPer100g, weightGrams)))
  }

  /** A per-100 g value scaled to a serving: value * (weightGrams / 100). */
  function Serving(per100g: real, weightGrams: real): real {
    per100g * (weightGrams / 100.0)
  }

  ghost predicate NonNegative(n: Nutrients) {
    n.calories >= 0.0 && n.protein >= 0.0 && n.carbs >= 0.0 && n.fat >= 0.0
  }

  ghost predicate NonNegativeFood(food: FoodItem) {
    food.caloriesPer100g >= 0.0 && food.proteinPer100g >= 0.0 && food.carbsPer100g >= 0.0 && food.fatPer100g >= 0.0
  }

  /** A non-negative food at a non-negative weight gives non-negative nutrients. */
  lemma CaloriesFromFoodNonNegative(food: FoodItem, weightGrams: real)
    requires NonNegativeFood(food) && weightGrams >= 0.0
    ensures NonNegative(CaloriesFromFood(food, weightGrams))
  {
    var m := weightGrams / 100.0;
    RoundMonotone(0.0, food.caloriesPer100g * m);
    RoundTenthMonotone(0.0, food.proteinPer100g * m);
    RoundTenthMonotone(0.0, food.carbsPer100g * m);
    RoundTenthMonotone(0.0, food.fatPer100g * m);
  }

  /** Doubling the serving doubles the calories, up to one kcal of rounding. */
  lemma CaloriesFromFoodNearlyLinear(food: FoodItem, weightGrams: real)
    ensures -1.0 <= CaloriesFromFood(food, 2.0 * weightGrams).calories - 2.0 * CaloriesFromFood(food, weightGrams).calories <= 1.0
  {
    var one := CaloriesFromFood(food, weightGrams).calories.Floor;
    var two := CaloriesFromFood(food, 2.0 * weightGrams).calories.Floor;
    assert food.caloriesPer100g * (2.0 * weightGrams) / 100.0 == 2.0 * (food.caloriesPer100g * weightGrams / 100.0);
    assert -1 <= two - 2 * one <= 1;
  }

  function LogNutrients(entry: LoggedFood): Nutrients {
    CaloriesFromFood(entry.foodItem, entry.log.weightGrams)
  }

  /** calculateDailyTotals: logs.reduce from zero, adding each log's
      already-rounded nutrients. */
  function DailyTotals(logs: seq<LoggedFood>): Nutrients {
    if logs == [] then ZeroNutrients
    else AddNutrients(DailyTotals(logs[..|logs| - 1]), LogNutrients(logs[|logs| - 1]))
  }

  /** x is a whole number. */
  ghost predicate Whole(x: real) {
    x == x.Floor as real
  }

  /** Whole kcal and whole tenths of a gram: the values calculateCaloriesFromFood rounds to. */
  ghost predicate OnGrid(n: Nutrients) {
    Whole(n.calories) && Whole(n.protein * 10.0) && Whole(n.carbs * 10.0) && Whole(n.fat * 10.0)
  }

  /** Adding values on the grid stays on the grid. */
  lemma SumOnGrid(a: Nutrients, b: Nutrients)
    requires OnGrid(a) && OnGrid(b)
    ensures OnGrid(AddNutrients(a, b))
  {
    WholeAdd(a.calories, b.calories);
    WholeAdd(a.protein * 10.0, b.protein * 10.0);
    WholeAdd(a.carbs * 10.0, b.carbs * 10.0);
    WholeAdd(a.fat * 10.0, b.fat * 10.0);
  }

  lemma WholeAdd(x: real, y: real)
    requires Whole(x) && Whole(y)
    ensures Whole(x + y)
  {
    var k := x.Floor + y.Floor;
    assert x + y == k as real;
  }

  /** calculateDailyTotals adds values already rounded, so its calories are
      a whole number and its macros whole tenths of a gram. */
  lemma {:induction false} DailyTotalsOnGrid(logs: seq<LoggedFood>)
    ensures OnGrid(DailyTotals(logs))
  {
    if logs != [] {
      var last := LogNutrients(logs[|logs| - 1]);
      DailyTotalsOnGrid(logs[..|logs| - 1]);
      assert OnGrid(last);
      SumOnGrid(DailyTotals(logs[..|logs| - 1]), last);
    }
  }

  lemma {:induction false} DailyTotalsAppend(a: seq<LoggedFood>, b: seq<LoggedFood>)
    ensures DailyTotals(a + b) == AddNutrients(DailyTotals(a), DailyTotals(b))
  {
    if b == [] {
      assert a + b == a;
    } else {
      var last := |b| - 1;
      assert (a + b)[..|a + b| - 1] == a + b[..last];
      DailyTotalsAppend(a, b[..last]);
    }
  }

  /** The first log of one arrangement sits somewhere in the other, and
      the remaining logs of both are again arrangements of each other. */
  lemma MatchFirst(a: seq<LoggedFood>, b: seq<LoggedFood>) returns (i: nat)
    requires a != [] && multiset(a) == multiset(b)
    ensures i < |b| && b[i] == a[0]
    ensures multiset(a[1..]) == multiset(b[..i] + b[i + 1..])
  {
    var x := a[0];
    assert x in multiset(b);
    i :| 0 <= i < |b| && b[i] == x;
    assert a == [x] + a[1..];
    assert multiset(a[1..]) == multiset(a) - multiset{x};
    assert b == b[..i] + [x] + b[i + 1..];
  }

  lemma DailyTotalsMiddle(p: seq<LoggedFood>, x: LoggedFood, q: seq<LoggedFood>)
    ensures DailyTotals(p + [x] + q) == AddNutrients(DailyTotals([x]), DailyTotals(p + q))
  {
    DailyTotalsAppend(p + [x], q);
    DailyTotalsAppend(p, [x]);
    DailyTotalsAppend(p, q);
  }

  /** The totals do not depend on the order of the logs. */
  lemma {:induction false} DailyTotalsPermutation(a: seq<LoggedFood>, b: seq<LoggedFood>)
    requires multiset(a) == multiset(b)
    ensures DailyTotals(a) == DailyTotals(b)
  {
    if a == [] {
      assert |b| == |multiset(b)| == 0;
    } else {
      var i := MatchFirst(a, b);
      DailyTotalsPermutation(a[1..], b[..i] + b[i + 1..]);
      DailyTotalsAppend([a[0]], a[1..]);
      assert [a[0]] + a[1..] == a;
      assert b[..i] + [a[0]] + b[i + 1..] == b;
      DailyTotalsMiddle(b[..i], a[0], b[i + 1..]);
    }
  }

  /** Logs of non-negative foods at non-negative weights total non-negative amounts. */
  lemma {:induction false} DailyTotalsNonNegative(logs: seq<LoggedFood>)
    requires forall i | 0 <= i < |logs| :: NonNegativeFood(logs[i].foodItem) && logs[i].log.weightGrams >= 0.0
    ensures NonNegative(DailyTotals(logs))
  {
    if logs != [] {
      DailyTotalsNonNegative(logs[..|logs| - 1]);
      var e := logs[|logs| - 1];
      CaloriesFromFoodNonNegative(e.foodItem, e.log.weightGrams);
    }
  }

  // ---------------------------------------------------------------------
  // Progress colour

  datatype ProgressColor = Emerald | Teal | Cyan | Amber | Red {
    function ClassName(): string {
      match this
      case Emerald => "text-emerald-500"
      case Teal => "text-teal-500"
      case Cyan => "text-cyan-500"
      case Amber => "text-amber-500"
      case Red => "text-red-500"
    }
  }

  /** For a positive goal, current / goal * 100 < k exactly when current
      is below k percent of the goal. */
  lemma PercentageBelow(current: real, goal: real, k: real)
    ensures goal > 0.0 ==> (current / goal * 100.0 < k <==> current < k / 100.0 * goal)
  {
    if goal <= 0.0 { return; }
    var q := current / goal;
    assert current == q * goal;
    if q * 100.0 < k {
      assert q * goal < (k / 100.0) * goal;
    }
    if current < k / 100.0 * goal {
      assert q * goal < (k / 100.0) * goal;
    }
  }

  /** getProgressColor: the colour band of current / goal as a percentage;
      a zero goal gives -Infinity, +Infinity or NaN, so red unless current
      is negative. */
  function ProgressColorOf(current: real, goal: real): (c: ProgressColor)
    ensures goal > 0.0 ==>
      && (c == Emerald <==> current < 0.5 * goal)
      && (c == Teal <==> 0.5 * goal <= current < 0.75 * goal)
      && (c == Cyan <==> 0.75 * goal <= current < goal)
      && (c == Amber <==> goal <= current < 1.1 * goal)
      && (c == Red <==> 1.1 * goal <= current)
    ensures goal == 0.0 ==> (c == Emerald <==> current < 0.0) && (c == Red <==> current >= 0.0)
  {
    var percentage := Scale(Divide(current, goal), 100.0);
    PercentageBelow(current, goal, 50.0);
    PercentageBelow(current, goal, 75.0);
    PercentageBelow(current, goal, 100.0);
    PercentageBelow(current, goal, 110.0);
    if Below(percentage, 50.0) then Emerald
    else if Below(percentage, 75.0) then Teal
    else if Below(percentage, 100.0) then Cyan
    else if Below(percentage, 110.0) then Amber
    else Red
  }

  // ---------------------------------------------------------------------
  // Macro split

  datatype MacroRatios = MacroRatios(protein: real, carbs: real, fat: real)

  /** MACRO_RATIOS: the share of the calorie target for each macronutrient. */
  function RatiosFor(goal: Goal): (r: MacroRatios)
    ensures r.protein + r.carbs + r.fat == 1.0
    ensures r.protein > 0.0 && r.carbs > 0.0 && r.fat > 0.0
  {
    match goal
    case Lose => MacroRatios(0.40, 0.35, 0.25)
    case Maintain => MacroRatios(0.30, 0.40, 0.30)
    case Gain => MacroRatios(0.30, 0.45, 0.25)
  }

  /** The daily calorie target: 500 kcal under expenditure to lose weight,
      500 over to gain it, expenditure itself to maintain. */
  function TargetCalories(tdee: real, goal: Goal): real {
    match goal
    case Lose => tdee - 500.0
    case Gain => tdee + 500.0
    case Maintain => tdee
  }

  /** One macronutrient's share of the target: its calories, the grams
      they amount to, and the ratio as a whole percentage, each rounded to
      the nearest integer. */
  function Share(target: real, ratio: real, kcalPerGram: real): (s: MacroShare)
    requires kcalPerGram > 0.0
    ensures NearestInt(s.calories, target * ratio)
    ensures NearestInt(s.grams, s.calories as real / kcalPerGram)
    ensures NearestInt(s.percentage, ratio * 100.0)
  {
    var calories := Round(target * ratio);
    MacroShare(Round(calories as real / kcalPerGram), calories, Round(ratio * 100.0))
  }

  /** A calorie target split by given ratios; protein and carbs count
      4 kcal per gram and fat 9. */
  function MacroSplit(target: real, ratios: MacroRatios, goal: Goal): (r: MacroRecommendation)
    ensures r.goal == goal && r.calories == target
    ensures NearestInt(r.protein.calories, target * ratios.protein)
    ensures NearestInt(r.carbs.calories, target * ratios.carbs)
    ensures NearestInt(r.fat.calories, target * ratios.fat)
    ensures NearestInt(r.protein.grams, r.protein.calories as real / 4.0)
    ensures NearestInt(r.carbs.grams, r.carbs.calories as real / 4.0)
    ensures NearestInt(r.fat.grams, r.fat.calories as real / 9.0)
  {
    MacroRecommendation(
      target,
      Share(target, ratios.protein, 4.0),
      Share(target, ratios.carbs, 4.0),
      Share(target, ratios.fat, 9.0),
      goal)
  }

  /** calculateMacros: the goal's calorie target split by the goal's ratios. */
  function CalculateMacros(tdee: real, goal: Goal): (r: MacroRecommendation)
    ensures r.goal == goal
    ensures r.calories == TargetCalories(tdee, goal)
    ensures r == MacroSplit(r.calories, RatiosFor(goal), goal)
  {
    MacroSplit(TargetCalories(tdee, goal), RatiosFor(goal), goal)
  }

  /** The percentages are 40/35/25 to lose, 30/40/30 to maintain and
      30/45/25 to gain, so they always add up to 100. */
  lemma MacroPercentages(tdee: real, goal: Goal)
    ensures var r := CalculateMacros(tdee, goal);
      r.protein.percentage + r.carbs.percentage + r.fat.percentage == 100
    ensures var r := CalculateMacros(tdee, goal);
      match goal
      case Lose => (r.protein.percentage, r.carbs.percentage, r.fat.percentage) == (40, 35, 25)
      case Maintain => (r.protein.percentage, r.carbs.percentage, r.fat.percentage) == (30, 40, 30)
      case Gain => (r.protein.percentage, r.carbs.percentage, r.fat.percentage) == (30, 45, 25)
  {
    match goal
    case Lose =>
      assert 0.40 * 100.0 == 40 as real && 0.35 * 100.0 == 35 as real && 0.25 * 100.0 == 25 as real;
      RoundOfInt(40); RoundOfInt(35); RoundOfInt(25);
    case Maintain =>
      assert 0.30 * 100.0 == 30 as real && 0.40 * 100.0 == 40 as real;
      RoundOfInt(30); RoundOfInt(40);
    case Gain =>
      assert 0.30 * 100.0 == 30 as real && 0.45 * 100.0 == 45 as real && 0.25 * 100.0 == 25 as real;
      RoundOfInt(30); RoundOfInt(45); RoundOfInt(25);
  }

  /** The three macros' calories add up to the target to within the
      rounding of each (strictly less than 1.5 kcal either way). */
  lemma MacroCaloriesNearTarget(tdee: real, goal: Goal)
    ensures var r := CalculateMacros(tdee, goal);
      var sum := (r.protein.calories + r.carbs.calories + r.fat.calories) as real;
      r.calories - 1.5 < sum <= r.calories + 1.5
  {
    var target := TargetCalories(tdee, goal);
    var ratios := RatiosFor(goal);
    SharesNear(target, ratios.protein, ratios.carbs, ratios.fat);
  }

  /** Calories shared out by ratios that add up to one add up to the
      target to within 1.5 kcal. */
  lemma SharesNear(target: real, protein: real, carbs: real, fat: real)
    requires protein + carbs + fat == 1.0
    ensures var sum := Share(target, protein, 4.0).calories + Share(target, carbs, 4.0).calories
      + Share(target, fat, 9.0).calories;
      target - 1.5 < sum as real <= target + 1.5
  {
    assert target * protein + target * carbs + target * fat == target * (protein + carbs + fat);
    RoundedSharesNear(target, target * protein, target * carbs, target * fat,
      Round(target * protein), Round(target * carbs), Round(target * fat));
  }

  /** Three parts of a whole, each rounded to the nearest integer, add up
      to within 1.5 of the whole. */
  lemma RoundedSharesNear(whole: real, a: real, b: real, c: real, ra: int, rb: int, rc: int)
    requires a + b + c == whole
    requires NearestInt(ra, a) && NearestInt(rb, b) && NearestInt(rc, c)
    ensures whole - 1.5 < (ra + rb + rc) as real <= whole + 1.5
  {
  }
}
