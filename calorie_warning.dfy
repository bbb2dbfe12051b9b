/** The calorie warning banner (components/ui/calorie-warning.tsx): how
    close the day's calories, with an entry about to be logged, come to
    the calorie target. */
module CalorieWarning {
  import opened JsRuntime
  import opened Nutrition

  /** The three warning levels, each with the number its message shows. */
  datatype Warning =
    | Approaching(caloriesLeft: int)
    | AtLimit(target: real)
    | Exceeded(caloriesOver: int)

  /** The calories after logging; the extra amount defaults to zero. */
  function Projected(current: real, additional: Option<real>): (p: real)
    ensures additional.None? ==> p == current
    ensures additional.Some? ==> p - current == additional.value
  {
    current + additional.GetOr(0.0)
  }

  /** projected / target * 100 with JavaScript's division. */
  function PercentageOfTarget(current: real, target: real, additional: Option<real>): JsNumber {
    Scale(Divide(Projected(current, additional), target), 100.0)
  }

  /** The banner, or None when nothing is shown. Below 85 % nothing is
      shown; a NaN percentage (0 of a 0 target) falls through every test
      to "approaching". */
  function Warn(current: real, target: real, additional: Option<real>): (w: Option<Warning>)
    ensures var p := Projected(current, additional);
      target > 0.0 ==>
        && (w.None? <==> p < 0.85 * target)
        && (w.Some? && w.value.Approaching? <==> 0.85 * target <= p < target)
        && (w.Some? && w.value.AtLimit? <==> target <= p < 1.1 * target)
        && (w.Some? && w.value.Exceeded? <==> 1.1 * target <= p)
    ensures var p := Projected(current, additional);
      target == 0.0 ==>
        && (w.None? <==> p < 0.0)
        && (p > 0.0 ==> w.Some? && w.value.Exceeded?)
        && (p == 0.0 ==> w == Some(Approaching(0)))
    ensures w.Some? && w.value.Exceeded? ==> w.value.caloriesOver == Round(Projected(current, additional) - target)
    ensures w.Some? && w.value.Approaching? ==> w.value.caloriesLeft == Round(target - Projected(current, additional))
    ensures w.Some? && w.value.AtLimit? ==> w.value.target == target
  {
    var projected := Projected(current, additional);
    var percentage := PercentageOfTarget(current, target, additional);
    PercentageBelow(projected, target, 85.0);
    PercentageBelow(projected, target, 100.0);
    PercentageBelow(projected, target, 110.0);
    if Below(percentage, 85.0) then None
    else if AtLeast(percentage, 110.0) then Some(Exceeded(Round(projected - target)))
    else if AtLeast(percentage, 100.0) then Some(AtLimit(target))
    else Some(Approaching(Round(target - projected)))
  }

  /** The severity of a banner: none, approaching, at the limit, exceeded. */
  function Severity(w: Option<Warning>): nat {
    match w
    case None => 0
    case Some(Approaching(_)) => 1
    case Some(AtLimit(_)) => 2
    case Some(Exceeded(_)) => 3
  }

  /** With a positive target, eating more never lowers the warning. */
  lemma WarningMonotone(current: real, target: real, less: real, more: real)
    requires target > 0.0 && less <= more
    ensures Severity(Warn(current, target, Some(less))) <= Severity(Warn(current, target, Some(more)))
  {
  }

  /** With a positive target the numbers the messages show are never
      negative: the calories left while approaching and the calories over
      once exceeded. */
  lemma WarningNumbersNonNegative(current: real, target: real, additional: Option<real>)
    requires target > 0.0
    ensures var w := Warn(current, target, additional);
      && (w.Some? && w.value.Approaching? ==> w.value.caloriesLeft >= 0)
      && (w.Some? && w.value.Exceeded? ==> w.value.caloriesOver >= Round(0.1 * target) >= 0)
  {
    var p := Projected(current, additional);
    var w := Warn(current, target, additional);
    if w.Some? && w.value.Approaching? {
      RoundMonotone(0.0, target - p);
      RoundOfInt(0);
    }
    if w.Some? && w.value.Exceeded? {
      RoundMonotone(0.1 * target, p - target);
      RoundMonotone(0.0, 0.1 * target);
      RoundOfInt(0);
    }
  }

  /** The "current → after logging" line appears only for a positive extra
      amount; the default of zero never shows it. */
  predicate ShowsProjection(additional: Option<real>): (shown: bool)
    ensures shown <==> additional.Some? && additional.value > 0.0
  {
    additional.GetOr(0.0) > 0.0
  }
}
