/** The mixed-vegetables customiser (components/food/vegetable-mix-customizer.tsx):
    which vegetables are in the mix, and the per-100 g nutrients of the mix
    as the average of the chosen ones. The option list itself is defined
    outside this model and is a parameter here. */
module VegetableMix {
  import opened JsRuntime
  import opened Types

  datatype VegOption = VegOption(name: string, caloriesPer100g: real, proteinPer100g: real,
                                 carbsPer100g: real, fatPer100g: real)

  function Calories(v: VegOption): real { v.caloriesPer100g }
  function Protein(v: VegOption): real { v.proteinPer100g }
  function Carbs(v: VegOption): real { v.carbsPer100g }
  function Fat(v: VegOption): real { v.fatPer100g }

  /** The options whose name is selected, in option order. */
  function Chosen(options: seq<VegOption>, selected: set<string>): (r: seq<VegOption>)
    ensures forall i | 0 <= i < |r| :: r[i].name in selected
    ensures forall i | 0 <= i < |options| :: options[i].name in selected ==> options[i] in r
  {
    Filter(options, (v: VegOption) => v.name in selected)
  }

  /** reduce((sum, v) => sum + f(v), 0). */
  function Total(vs: seq<VegOption>, f: VegOption -> real): real {
    if vs == [] then 0.0 else Total(vs[..|vs| - 1], f) + f(vs[|vs| - 1])
  }

  /** The sum of n values in [lo, hi] lies in [n·lo, n·hi]. */
  lemma {:induction false} TotalBounds(vs: seq<VegOption>, f: VegOption -> real, lo: real, hi: real)
    requires forall i | 0 <= i < |vs| :: lo <= f(vs[i]) <= hi
    ensures lo * |vs| as real <= Total(vs, f) <= hi * |vs| as real
  {
    if vs != [] {
      var init := vs[..|vs| - 1];
      assert forall i | 0 <= i < |init| :: init[i] == vs[i];
      TotalBounds(init, f, lo, hi);
      var n := |init| as real;
      assert |vs| as real == n + 1.0;
      assert lo * (n + 1.0) == lo * n + lo && hi * (n + 1.0) == hi * n + hi;
      assert Total(vs, f) == Total(init, f) + f(vs[|vs| - 1]);
      assert lo <= f(vs[|vs| - 1]) <= hi;
    }
  }

  /** The mean of f over a non-empty list. */
  function Mean(vs: seq<VegOption>, f: VegOption -> real): real
    requires vs != []
  {
    Total(vs, f) / |vs| as real
  }

  lemma MeanBounds(vs: seq<VegOption>, f: VegOption -> real, lo: real, hi: real)
    requires vs != []
    requires forall i | 0 <= i < |vs| :: lo <= f(vs[i]) <= hi
    ensures lo <= Mean(vs, f) <= hi
  {
    TotalBounds(vs, f, lo, hi);
    var n := |vs| as real;
    assert Mean(vs, f) * n == Total(vs, f);
  }

  /** getAveragedNutrients: zeros when nothing is chosen, otherwise the
      mean calories rounded to a whole number and the mean macros rounded
      to one decimal place. */
  function AveragedNutrients(options: seq<VegOption>, selected: set<string>): (r: Nutrients)
    ensures Chosen(options, selected) == [] ==> r == ZeroNutrients
    ensures Chosen(options, selected) != [] ==> r.calories == Round(Mean(Chosen(options, selected), Calories)) as real
    ensures Chosen(options, selected) != [] ==>
      && r.protein == RoundTenth(Mean(Chosen(options, selected), Protein))
      && r.carbs == RoundTenth(Mean(Chosen(options, selected), Carbs))
      && r.fat == RoundTenth(Mean(Chosen(options, selected), Fat))
  {
    var vs := Chosen(options, selected);
    if |vs| == 0 then ZeroNutrients
    else Nutrients(Round(Mean(vs, Calories)) as real, RoundTenth(Mean(vs, Protein)),
                   RoundTenth(Mean(vs, Carbs)), RoundTenth(Mean(vs, Fat)))
  }

  /** A selection that names no option averages to zeros. */
  lemma NoMatchAveragesZero(options: seq<VegOption>, selected: set<string>)
    requires forall i | 0 <= i < |options| :: options[i].name !in selected
    ensures AveragedNutrients(options, selected) == ZeroNutrients
  {
    FilterNone(options, (v: VegOption) => v.name in selected);
  }

  /** The mix lies between the bounds of the chosen vegetables: when every
      chosen option's values lie between lo and hi, each averaged value
      lies between the same rounding of lo and of hi. */
  lemma AverageBetweenBounds(options: seq<VegOption>, selected: set<string>, lo: Nutrients, hi: Nutrients)
    requires Chosen(options, selected) != []
    requires forall i | 0 <= i < |Chosen(options, selected)| ::
      var v := Chosen(options, selected)[i];
      lo.calories <= v.caloriesPer100g <= hi.calories && lo.protein <= v.proteinPer100g <= hi.protein
      && lo.carbs <= v.carbsPer100g <= hi.carbs && lo.fat <= v.fatPer100g <= hi.fat
    ensures var r := AveragedNutrients(options, selected);
      && Round(lo.calories) as real <= r.calories <= Round(hi.calories) as real
      && RoundTenth(lo.protein) <= r.protein <= RoundTenth(hi.protein)
      && RoundTenth(lo.carbs) <= r.carbs <= RoundTenth(hi.carbs)
      && RoundTenth(lo.fat) <= r.fat <= RoundTenth(hi.fat)
  {
    var vs := Chosen(options, selected);
    MeanBounds(vs, Calories, lo.calories, hi.calories);
    RoundMonotone(lo.calories, Mean(vs, Calories));
    RoundMonotone(Mean(vs, Calories), hi.calories);
    MeanBounds(vs, Protein, lo.protein, hi.protein);
    RoundTenthMonotone(lo.protein, Mean(vs, Protein));
    RoundTenthMonotone(Mean(vs, Protein), hi.protein);
    MeanBounds(vs, Carbs, lo.carbs, hi.carbs);
    RoundTenthMonotone(lo.carbs, Mean(vs, Carbs));
    RoundTenthMonotone(Mean(vs, Carbs), hi.carbs);
    MeanBounds(vs, Fat, lo.fat, hi.fat);
    RoundTenthMonotone(lo.fat, Mean(vs, Fat));
    RoundTenthMonotone(Mean(vs, Fat), hi.fat);
  }

  /** handleToggle: copies the selection and removes or adds the name;
      removing the last selected name is refused (None: no change is
      reported). */
  method Toggle(selected: set<string>, name: string) returns (next: Option<set<string>>)
    ensures next.None? <==> name in selected && |selected| <= 1
    ensures next.Some? ==> (name in next.value <==> name !in selected)
    ensures next.Some? ==> forall n | n != name :: n in next.value <==> n in selected
    ensures selected != {} && next.Some? ==> next.value != {}
  {
    var copy := selected;
    if name in copy {
      if |copy| <= 1 {
        return None;
      }
      assert |copy - {name}| == |copy| - 1;
      copy := copy - {name};
    } else {
      copy := copy + {name};
    }
    return Some(copy);
  }

  /** The names of all options. */
  function Names(options: seq<VegOption>): set<string> {
    set i | 0 <= i < |options| :: options[i].name
  }

  predicate AllSelected(options: seq<VegOption>, selected: set<string>) {
    |selected| == |options|
  }

  /** handleToggleAll: back to the first vegetable alone when all are
      selected, otherwise every vegetable. */
  function ToggleAll(options: seq<VegOption>, selected: set<string>): (r: set<string>)
    requires options != []
    ensures AllSelected(options, selected) ==> r == {options[0].name}
    ensures !AllSelected(options, selected) ==> forall i | 0 <= i < |options| :: options[i].name in r
    ensures r != {} && r <= Names(options)
  {
    assert options[0].name in Names(options);
    if AllSelected(options, selected) then {options[0].name} else Names(options)
  }

  ghost predicate DistinctNames(options: seq<VegOption>) {
    forall i, j | 0 <= i < j < |options| :: options[i].name != options[j].name
  }

  lemma {:induction false} NamesCount(options: seq<VegOption>)
    requires DistinctNames(options)
    ensures |Names(options)| == |options|
  {
    if options != [] {
      var init := options[..|options| - 1];
      var last := options[|options| - 1];
      assert DistinctNames(init);
      NamesCount(init);
      NamesSnoc(options);
      LastNameIsNew(options);
    }
  }

  /** The names of a list are those of all but its last option, plus the
      last one's. */
  lemma NamesSnoc(options: seq<VegOption>)
    requires options != []
    ensures Names(options) == Names(options[..|options| - 1]) + {options[|options| - 1].name}
  {
    var init := options[..|options| - 1];
    forall n | n in Names(options) ensures n in Names(init) + {options[|options| - 1].name} {
      var i :| 0 <= i < |options| && options[i].name == n;
      if i < |options| - 1 { assert init[i] == options[i]; }
    }
    forall n | n in Names(init) ensures n in Names(options) {
      var i :| 0 <= i < |init| && init[i].name == n;
      assert options[i] == init[i];
    }
  }

  /** With distinct names, the last option's name is not among the others. */
  lemma LastNameIsNew(options: seq<VegOption>)
    requires options != [] && DistinctNames(options)
    ensures options[|options| - 1].name !in Names(options[..|options| - 1])
  {
    var init := options[..|options| - 1];
    forall i | 0 <= i < |init| ensures init[i].name != options[|options| - 1].name {
      assert init[i] == options[i];
    }
  }

  /** With distinct option names, a selection of option names counts as
      "all selected" exactly when it is every name. */
  lemma AllSelectedMeansEveryName(options: seq<VegOption>, selected: set<string>)
    requires DistinctNames(options)
    requires selected <= Names(options)
    ensures AllSelected(options, selected) <==> selected == Names(options)
  {
    NamesCount(options);
    if |selected| == |Names(options)| {
      SameSizeSubset(selected, Names(options));
    }
  }

  /** A subset as large as its superset is the superset. */
  lemma SameSizeSubset(a: set<string>, b: set<string>)
    requires a <= b && |a| == |b|
    ensures a == b
  {
    assert a + b == b && a * b == a && a - b == {};
    assert |b - a| == 0;
  }

  /** With more than one distinct option, toggling all twice from the full
      selection comes back to it. */
  lemma ToggleAllTwice(options: seq<VegOption>)
    requires DistinctNames(options) && |options| > 1
    ensures ToggleAll(options, ToggleAll(options, Names(options))) == Names(options)
  {
    NamesCount(options);
    assert AllSelected(options, Names(options));
    assert |{options[0].name}| == 1;
  }
}
