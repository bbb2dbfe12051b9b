/** The day's summary card (components/log/daily-summary.tsx): which goals
    apply, how much of the calorie goal is used, what is left, and the
    colour of the progress ring. */
module DailySummaryView {
  import opened JsRuntime
  import opened Types
  import opened CalorieWarning

  const DefaultCalorieGoal: real := 2000.0
  const DefaultProteinGoal: real := 150.0
  const DefaultCarbsGoal: real := 250.0
  const DefaultFatGoal: real := 65.0

  datatype Goals = Goals(calories: real, protein: real, carbs: real, fat: real)

  /** `target || fallback` for a target that may be absent; a zero target
      falls back too. */
  function OrElse(target: Option<real>, fallback: real): (r: real)
    ensures target.Some? && target.value != 0.0 ==> r == target.value
    ensures target.None? || target.value == 0.0 ==> r == fallback
  {
    if target.Some? && target.value != 0.0 then target.value else fallback
  }

  /** The goals the card uses: the macro targets where present and
      non-zero, otherwise the calorie goal passed in (2000 when none is)
      and 150 / 250 / 65 g. */
  function GoalsFor(calorieGoal: Option<real>, targets: Option<MacroRecommendation>): (g: Goals)
    ensures targets.None? ==>
      g == Goals(calorieGoal.GetOr(DefaultCalorieGoal), DefaultProteinGoal, DefaultCarbsGoal, DefaultFatGoal)
    ensures targets.Some? ==>
      && g.calories == (if targets.value.calories != 0.0 then targets.value.calories else calorieGoal.GetOr(DefaultCalorieGoal))
      && g.protein == (if targets.value.protein.grams != 0 then targets.value.protein.grams as real else DefaultProteinGoal)
      && g.carbs == (if targets.value.carbs.grams != 0 then targets.value.carbs.grams as real else DefaultCarbsGoal)
      && g.fat == (if targets.value.fat.grams != 0 then targets.value.fat.grams as real else DefaultFatGoal)
  {
    var t := targets;
    Goals(
      OrElse(if t.Some? then Some(t.value.calories) else None, calorieGoal.GetOr(DefaultCalorieGoal)),
      OrElse(if t.Some? then Some(t.value.protein.grams as real) else None, DefaultProteinGoal),
      OrElse(if t.Some? then Some(t.value.carbs.grams as real) else None, DefaultCarbsGoal),
      OrElse(if t.Some? then Some(t.value.fat.grams as real) else None, DefaultFatGoal))
  }

  /** Every goal is positive when the calorie goal passed in is and the
      targets, if any, are not negative. */
  lemma GoalsPositive(calorieGoal: Option<real>, targets: Option<MacroRecommendation>)
    requires calorieGoal.GetOr(DefaultCalorieGoal) > 0.0
    requires targets.Some? ==>
      && targets.value.calories >= 0.0 && targets.value.protein.grams >= 0
      && targets.value.carbs.grams >= 0 && targets.value.fat.grams >= 0
    ensures var g := GoalsFor(calorieGoal, targets);
      g.calories > 0.0 && g.protein > 0.0 && g.carbs > 0.0 && g.fat > 0.0
  {
  }

  /** min(total / goal * 100, 100). */
  function Percentage(total: real, goal: real): (p: JsNumber)
    ensures p.NaN? <==> goal == 0.0 && total == 0.0
    ensures !p.NaN? ==> p.Finite? || p.NegInfinity?
    ensures p.Finite? ==> p.value <= 100.0
    ensures goal > 0.0 ==> p == Finite(if total < goal then total / goal * 100.0 else 100.0)
  {
    Nutrition.PercentageBelow(total, goal, 100.0);
    Min(Scale(Divide(total, goal), 100.0), 100.0)
  }

  /** max(goal - total, 0). */
  function Remaining(total: real, goal: real): (r: real)
    ensures r >= 0.0
    ensures total < goal ==> r == goal - total
    ensures total >= goal ==> r == 0.0
  {
    if goal - total > 0.0 then goal - total else 0.0
  }

  datatype Ring = Sage | Coral | Honey | Destructive

  /** The ring colour: sage below 75 %, coral below 100 %, honey below
      110 %, destructive otherwise. */
  function RingColor(total: real, goal: real): (c: Ring)
    ensures goal > 0.0 ==>
      && (c == Sage <==> total < 0.75 * goal)
      && (c == Coral <==> 0.75 * goal <= total < goal)
      && (c == Honey <==> goal <= total)
    ensures c == Destructive <==> goal == 0.0 && total == 0.0
  {
    var p := Percentage(total, goal);
    Nutrition.PercentageBelow(total, goal, 75.0);
    if Below(p, 75.0) then Sage
    else if Below(p, 100.0) then Coral
    else if Below(p, 110.0) then Honey
    else Destructive
  }

  /** Because the percentage is capped at 100, the destructive colour needs
      a NaN percentage: with the card's own goals (the 2000 default or
      positive targets) it never appears. */
  lemma NeverDestructive(total: real, calorieGoal: Option<real>, targets: Option<MacroRecommendation>)
    requires calorieGoal.GetOr(DefaultCalorieGoal) > 0.0
    requires targets.Some? ==> targets.value.calories >= 0.0
    ensures RingColor(total, GoalsFor(calorieGoal, targets).calories) != Destructive
  {
  }

  /** The line under the ring. */
  datatype CalorieText = KcalRemaining(amount: real) | KcalOver(amount: real)

  /** "N kcal remaining" while something is left, "N kcal over" otherwise,
      with N the distance to the goal (so exactly on the goal reads
      "0 kcal over"). */
  function RemainingText(total: real, goal: real): (t: CalorieText)
    ensures t.KcalRemaining? <==> total < goal
    ensures t.KcalRemaining? ==> t.amount == goal - total
    ensures t.KcalOver? ==> t.amount == total - goal && t.amount >= 0.0
  {
    var remaining := Remaining(total, goal);
    if remaining > 0.0 then KcalRemaining(remaining)
    else KcalOver(if goal - total >= 0.0 then goal - total else total - goal)
  }

  /** What the card computes from a summary. The warning banner appears
      only with macro targets and never counts an entry about to be
      logged. */
  datatype Card = Card(goals: Goals, percentage: JsNumber, ring: Ring, text: CalorieText, warning: Option<Warning>)

  function SummaryCard(summary: DailySummary, calorieGoal: Option<real>, targets: Option<MacroRecommendation>): (c: Card)
    ensures c.goals == GoalsFor(calorieGoal, targets)
    ensures c.percentage == Percentage(summary.totalCalories as real, c.goals.calories)
    ensures c.warning.Some? ==> targets.Some?
    ensures targets.Some? ==> c.warning == Warn(summary.totalCalories as real, c.goals.calories, None)
    ensures c.ring == RingColor(summary.totalCalories as real, c.goals.calories)
    ensures c.text == RemainingText(summary.totalCalories as real, c.goals.calories)
  {
    var g := GoalsFor(calorieGoal, targets);
    var total := summary.totalCalories as real;
    Card(g, Percentage(total, g.calories), RingColor(total, g.calories), RemainingText(total, g.calories),
         if targets.Some? then Warn(total, g.calories, None) else None)
  }
}
