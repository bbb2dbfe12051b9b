/** The food-log access layer of lib/hooks/use-food-log.ts: in-memory
    caches of the day's logs, the food catalogue and the categories, kept
    in step with the guest store for a guest and with the hosted backend
    for a signed-in user. */
module FoodLogAccess {
  import opened JsRuntime
  import opened Types
  import opened Constants
  import opened Nutrition
  import opened GuestStore
  import opened Remote

  // ---------------------------------------------------------------------
  // The guest catalogue

  /** A DEFAULT_FOODS entry as the guest catalogue presents it. */
  function CatalogueItem(food: DefaultFood, index: nat, now: string): FoodItem {
    FoodItem("default-" + NatToString(index), None, food.categoryId, food.name,
      food.caloriesPer100g, food.proteinPer100g, food.carbsPer100g, food.fatPer100g,
      Some(food.imageUrl), food.isDefault, now)
  }

  /** The default foods with ids default-0, default-1, ..., no owner and
      the current time as creation time. */
  function DefaultFoodItems(now: string): (r: seq<FoodItem>)
    ensures |r| == |DefaultFoods|
    ensures forall i | 0 <= i < |r| :: r[i] == CatalogueItem(DefaultFoods[i], i, now)
  {
    seq(|DefaultFoods|, i requires 0 <= i < |DefaultFoods| => CatalogueItem(DefaultFoods[i], i, now))
  }

  /** The guest catalogue: the default foods followed by the custom ones. */
  function GuestCatalogue(now: string, customFoods: seq<FoodItem>): (r: seq<FoodItem>)
    ensures |r| == |DefaultFoods| + |customFoods|
    ensures r[..|DefaultFoods|] == DefaultFoodItems(now)
    ensures r[|DefaultFoods|..] == customFoods
  {
    DefaultFoodItems(now) + customFoods
  }

  /** The default part of the guest catalogue: distinct ids, all shared
      (no owner), all flagged default. */
  lemma DefaultFoodItemsWellFormed(now: string)
    ensures forall i, j | 0 <= i < j < |DefaultFoodItems(now)| :: DefaultFoodItems(now)[i].id != DefaultFoodItems(now)[j].id
    ensures forall i | 0 <= i < |DefaultFoodItems(now)| :: DefaultFoodItems(now)[i].userId == None && DefaultFoodItems(now)[i].isDefault
  {
    var r := DefaultFoodItems(now);
    DefaultFoodsWellFormed();
    forall i, j | 0 <= i < j < |r| ensures r[i].id != r[j].id {
      if r[i].id == r[j].id {
        PrefixCancel("default-", NatToString(i), NatToString(j));
        NatToStringInjective(i, j);
      }
    }
  }

  // ---------------------------------------------------------------------
  // Joining logs to foods

  /** Index of the first food with the id (|foods| when there is none). */
  function FoodIndex(foods: seq<FoodItem>, id: string): (i: nat)
    ensures i <= |foods|
    ensures i < |foods| ==> foods[i].id == id
    ensures forall j | 0 <= j < i :: foods[j].id != id
  {
    if foods == [] then 0
    else if foods[0].id == id then 0
    else 1 + FoodIndex(foods[1..], id)
  }

  /** foods.find(f => f.id === id). */
  function FindFood(foods: seq<FoodItem>, id: string): (r: Option<FoodItem>)
    ensures r.Some? ==> r.value in foods && r.value.id == id
    ensures r.None? <==> forall i | 0 <= i < |foods| :: foods[i].id != id
  {
    var i := FoodIndex(foods, id);
    if i < |foods| then Some(foods[i]) else None
  }

  /** Each log paired with its food, dropping the logs whose food is not
      in the list, in log order. */
  function JoinLogs(logs: seq<FoodLog>, foods: seq<FoodItem>): (r: seq<LoggedFood>)
    ensures |r| <= |logs|
    ensures forall i | 0 <= i < |r| ::
      && r[i].log in logs
      && r[i].foodItem in foods
      && r[i].foodItem.id == r[i].log.foodItemId
  {
    if logs == [] then []
    else
      var head := match FindFood(foods, logs[0].foodItemId)
        case Some(f) => [LoggedFood(logs[0], f)]
        case None => [];
      head + JoinLogs(logs[1..], foods)
  }

  lemma {:induction false} JoinLogsAppend(a: seq<FoodLog>, b: seq<FoodLog>, foods: seq<FoodItem>)
    ensures JoinLogs(a + b, foods) == JoinLogs(a, foods) + JoinLogs(b, foods)
  {
    if a != [] {
      assert (a + b)[1..] == a[1..] + b;
      JoinLogsAppend(a[1..], b, foods);
    } else {
      assert a + b == b;
    }
  }

  /** No log whose food is found is dropped, and nothing else is kept. */
  lemma {:induction false} JoinLogsComplete(logs: seq<FoodLog>, foods: seq<FoodItem>)
    ensures forall i | 0 <= i < |logs| && FindFood(foods, logs[i].foodItemId).Some? ::
      LoggedFood(logs[i], FindFood(foods, logs[i].foodItemId).value) in JoinLogs(logs, foods)
    ensures |JoinLogs(logs, foods)| == |logs| <==> forall i | 0 <= i < |logs| :: FindFood(foods, logs[i].foodItemId).Some?
  {
    if logs != [] {
      JoinLogsComplete(logs[1..], foods);
      var rest := JoinLogs(logs[1..], foods);
      forall i | 0 <= i < |logs| && FindFood(foods, logs[i].foodItemId).Some?
        ensures LoggedFood(logs[i], FindFood(foods, logs[i].foodItemId).value) in JoinLogs(logs, foods)
      {
        if i > 0 {
          assert logs[i] == logs[1..][i - 1];
        }
      }
      if FindFood(foods, logs[0].foodItemId).None? {
        assert |rest| <= |logs[1..]|;
      } else {
        forall i | 1 <= i < |logs| ensures logs[i] == logs[1..][i - 1] { }
      }
    }
  }

  // ---------------------------------------------------------------------
  // The daily summary

  /** A log's unrounded nutrients: the per-100 g values times weight / 100. */
  function RawNutrients(entry: LoggedFood): Nutrients {
    var multiplier := entry.log.weightGrams / 100.0;
    Nutrients(
      entry.foodItem.caloriesPer100g * multiplier,
      entry.foodItem.proteinPer100g * multiplier,
      entry.foodItem.carbsPer100g * multiplier,
      entry.foodItem.fatPer100g * multiplier)
  }

  /** The reduce of getDailySummary: unrounded nutrients added from zero. */
  function RawTotals(entries: seq<LoggedFood>): (r: Nutrients)
    ensures (forall i | 0 <= i < |entries| :: NonNegativeFood(entries[i].foodItem) && entries[i].log.weightGrams >= 0.0)
      ==> NonNegative(r)
  {
    if entries == [] then ZeroNutrients
    else
      var last := entries[|entries| - 1];
      var before := RawTotals(entries[..|entries| - 1]);
      assert NonNegativeFood(last.foodItem) && last.log.weightGrams >= 0.0 ==> NonNegative(RawNutrients(last)) by {
        if NonNegativeFood(last.foodItem) && last.log.weightGrams >= 0.0 {
          var m := last.log.weightGrams / 100.0;
          assert m >= 0.0;
          assert last.foodItem.caloriesPer100g * m >= 0.0;
          assert last.foodItem.proteinPer100g * m >= 0.0;
          assert last.foodItem.carbsPer100g * m >= 0.0;
          assert last.foodItem.fatPer100g * m >= 0.0;
        }
      }
      AddNutrients(before, RawNutrients(last))
  }

  function OnDate(entries: seq<LoggedFood>, date: string): (r: seq<LoggedFood>)
    ensures forall i | 0 <= i < |r| :: r[i].log.date == date
    ensures forall i | 0 <= i < |entries| :: entries[i].log.date == date ==> entries[i] in r
  {
    Filter(entries, (e: LoggedFood) => e.log.date == date)
  }

  function AtMeal(entries: seq<LoggedFood>, m: MealTime): (r: seq<LoggedFood>)
    ensures forall i | 0 <= i < |r| :: r[i].log.mealTime == m
    ensures forall i | 0 <= i < |entries| :: entries[i].log.mealTime == m ==> entries[i] in r
  {
    Filter(entries, (e: LoggedFood) => e.log.mealTime == m)
  }

  /** getDailySummary: the day's logs split by meal in cache order, and the
      day's totals summed unrounded and rounded once: calories to a whole
      number, macros to one decimal. */
  function DaySummary(entries: seq<LoggedFood>, date: string): (s: DailySummary)
    ensures s.date == date
    ensures forall m: MealTime :: s.meals.Bucket(m) == AtMeal(OnDate(entries, date), m)
    ensures NearestInt(s.totalCalories, RawTotals(OnDate(entries, date)).calories)
    ensures RawTotals(OnDate(entries, date)).protein - 0.05 < s.totalProtein <= RawTotals(OnDate(entries, date)).protein + 0.05
    ensures RawTotals(OnDate(entries, date)).carbs - 0.05 < s.totalCarbs <= RawTotals(OnDate(entries, date)).carbs + 0.05
    ensures RawTotals(OnDate(entries, date)).fat - 0.05 < s.totalFat <= RawTotals(OnDate(entries, date)).fat + 0.05
    ensures s.totalProtein * 10.0 == Round(RawTotals(OnDate(entries, date)).protein * 10.0) as real
    ensures s.totalCarbs * 10.0 == Round(RawTotals(OnDate(entries, date)).carbs * 10.0) as real
    ensures s.totalFat * 10.0 == Round(RawTotals(OnDate(entries, date)).fat * 10.0) as real
  {
    var day := OnDate(entries, date);
    var totals := RawTotals(day);
    DailySummary(
      date,
      Round(totals.calories),
      RoundTenth(totals.protein),
      RoundTenth(totals.carbs),
      RoundTenth(totals.fat),
      MealBuckets(AtMeal(day, Breakfast), AtMeal(day, Lunch), AtMeal(day, Dinner), AtMeal(day, Snack)))
  }

  /** Every log lands in exactly one meal bucket. */
  lemma {:induction false} MealBucketsPartition(entries: seq<LoggedFood>)
    ensures |AtMeal(entries, Breakfast)| + |AtMeal(entries, Lunch)| + |AtMeal(entries, Dinner)| + |AtMeal(entries, Snack)| == |entries|
  {
    if entries != [] {
      MealBucketsPartition(entries[1..]);
    }
  }

  /** The bucket sizes of a day's summary add up to the day's log count. */
  lemma SummaryBucketsCoverDay(entries: seq<LoggedFood>, date: string)
    ensures var s := DaySummary(entries, date);
      |s.meals.breakfast| + |s.meals.lunch| + |s.meals.dinner| + |s.meals.snack| == |OnDate(entries, date)|
  {
    MealBucketsPartition(OnDate(entries, date));
  }

  /** Rounding each log (calculateDailyTotals) and rounding the raw sum once
      (getDailySummary) differ by at most half a kilocalorie per log. */
  lemma {:induction false} PerLogRoundingDrift(entries: seq<LoggedFood>)
    ensures var n := |entries| as real;
      RawTotals(entries).calories - 0.5 * n <= DailyTotals(entries).calories <= RawTotals(entries).calories + 0.5 * n
  {
    if entries != [] {
      var init := entries[..|entries| - 1];
      var last := entries[|entries| - 1];
      PerLogRoundingDrift(init);
      LogRoundingDrift(last);
      assert RawTotals(entries).calories == RawTotals(init).calories + RawNutrients(last).calories;
      assert DailyTotals(entries).calories == DailyTotals(init).calories + LogNutrients(last).calories;
      assert 0.5 * |entries| as real == 0.5 * |init| as real + 0.5;
    }
  }

  /** One log's rounded calories lie within half a kilocalorie of its raw
      calories. */
  lemma LogRoundingDrift(entry: LoggedFood)
    ensures RawNutrients(entry).calories - 0.5 <= LogNutrients(entry).calories <= RawNutrients(entry).calories + 0.5
  {
    var food := entry.foodItem;
    var w := entry.log.weightGrams;
    assert food.caloriesPer100g * w / 100.0 == food.caloriesPer100g * (w / 100.0);
    assert NearestInt(LogNutrients(entry).calories.Floor, food.caloriesPer100g * w / 100.0);
  }

  lemma TwoEntryTotals(a: LoggedFood, b: LoggedFood)
    ensures RawTotals([a, b]).calories == RawNutrients(a).calories + RawNutrients(b).calories
    ensures DailyTotals([a, b]).calories == LogNutrients(a).calories + LogNutrients(b).calories
  {
    assert [a, b][..1] == [a];
    assert [a][..0] == [];
    assert RawTotals([a]) == AddNutrients(ZeroNutrients, RawNutrients(a));
    assert RawTotals([a, b]) == AddNutrients(RawTotals([a]), RawNutrients(b));
    assert DailyTotals([a]) == AddNutrients(ZeroNutrients, LogNutrients(a));
    assert DailyTotals([a, b]) == AddNutrients(DailyTotals([a]), LogNutrients(b));
  }

  lemma OnDateAll(entries: seq<LoggedFood>, date: string)
    requires forall i | 0 <= i < |entries| :: entries[i].log.date == date
    ensures OnDate(entries, date) == entries
  {
    FilterAll(entries, (e: LoggedFood) => e.log.date == date);
  }

  /** The drift is real: two half-kilocalorie logs of the same day count as
      one kilocalorie in the summary but two in the per-log totals. */
  lemma SummaryRoundsOnce(day: string)
    ensures var food := FoodItem("f", None, "cat-carbs", "f", 50.0, 0.0, 0.0, 0.0, None, false, "");
      var a := LoggedFood(FoodLog("a", GuestId, "f", 1.0, Lunch, day, ""), food);
      var b := LoggedFood(FoodLog("b", GuestId, "f", 1.0, Lunch, day, ""), food);
      DaySummary([a, b], day).totalCalories == 1 && DailyTotals([a, b]).calories == 2.0
  {
    var food := FoodItem("f", None, "cat-carbs", "f", 50.0, 0.0, 0.0, 0.0, None, false, "");
    var a := LoggedFood(FoodLog("a", GuestId, "f", 1.0, Lunch, day, ""), food);
    var b := LoggedFood(FoodLog("b", GuestId, "f", 1.0, Lunch, day, ""), food);
    OnDateAll([a, b], day);
    TwoEntryTotals(a, b);
    assert RawNutrients(a).calories == 0.5 && RawNutrients(b).calories == 0.5;
    assert Round(1.0) == 1 && Round(0.5) == 1;
    assert LogNutrients(a).calories == 1.0 && LogNutrients(b).calories == 1.0;
  }

  // ---------------------------------------------------------------------
  // Weekly calories

  /** One day of fetchWeeklyCalories' answer. */
  datatype DayCalories = DayCalories(date: string, calories: int)

  /** A row of the weekly query: a log's date and weight with the calories
      per 100 g of its food, absent when the food could not be joined. */
  datatype WeekRow = WeekRow(date: string, weightGrams: real, caloriesPer100g: Option<real>)

  /** The guest reduce: calories of the logs whose food is found, unrounded. */
  function GuestDayCalories(logs: seq<FoodLog>, foods: seq<FoodItem>): real {
    if logs == [] then 0.0
    else
      var last := logs[|logs| - 1];
      var add := match FindFood(foods, last.foodItemId)
        case Some(f) => f.caloriesPer100g * last.weightGrams / 100.0
        case None => 0.0;
      GuestDayCalories(logs[..|logs| - 1], foods) + add
  }

  /** The total the remote loop accumulates for one date, in row order. */
  function RowsTotal(rows: seq<WeekRow>, date: string): real {
    if rows == [] then 0.0
    else
      var last := rows[|rows| - 1];
      var add := if last.date == date && last.caloriesPer100g.Some? then last.caloriesPer100g.value * last.weightGrams / 100.0 else 0.0;
      RowsTotal(rows[..|rows| - 1], date) + add
  }

  /** A date no resolved row carries totals zero. */
  lemma {:induction false} RowsTotalAbsent(rows: seq<WeekRow>, date: string)
    requires forall i | 0 <= i < |rows| :: rows[i].date == date ==> rows[i].caloriesPer100g.None?
    ensures RowsTotal(rows, date) == 0.0
  {
    if rows != [] {
      RowsTotalAbsent(rows[..|rows| - 1], date);
    }
  }

  /** The rows the backend's join gives for a list of logs. */
  function WeekRows(logs: seq<FoodLog>, foods: seq<FoodItem>): (r: seq<WeekRow>)
    ensures |r| == |logs|
    ensures forall i | 0 <= i < |r| :: r[i].date == logs[i].date && r[i].weightGrams == logs[i].weightGrams
  {
    seq(|logs|, i requires 0 <= i < |logs| =>
      WeekRow(logs[i].date, logs[i].weightGrams,
        match FindFood(foods, logs[i].foodItemId)
        case Some(f) => Some(f.caloriesPer100g)
        case None => None))
  }

  /** What one log adds to its day's guest total. */
  function LogCalories(log: FoodLog, foods: seq<FoodItem>): real {
    match FindFood(foods, log.foodItemId)
    case Some(f) => f.caloriesPer100g * log.weightGrams / 100.0
    case None => 0.0
  }

  lemma GuestDayCaloriesSnoc(day: seq<FoodLog>, last: FoodLog, foods: seq<FoodItem>)
    ensures GuestDayCalories(day + [last], foods) == GuestDayCalories(day, foods) + LogCalories(last, foods)
  {
    assert (day + [last])[..|day|] == day;
  }

  lemma RowsTotalSnoc(logs: seq<FoodLog>, foods: seq<FoodItem>, date: string)
    requires logs != []
    ensures var last := logs[|logs| - 1];
      RowsTotal(WeekRows(logs, foods), date)
      == RowsTotal(WeekRows(logs[..|logs| - 1], foods), date) + (if last.date == date then LogCalories(last, foods) else 0.0)
  {
    var rows := WeekRows(logs, foods);
    assert rows[..|rows| - 1] == WeekRows(logs[..|logs| - 1], foods);
  }

  /** The two branches of fetchWeeklyCalories agree: the remote per-date
      total over the joined rows equals the guest total over the day's logs. */
  lemma {:induction false} WeeklyBranchesAgree(logs: seq<FoodLog>, foods: seq<FoodItem>, date: string)
    requires date != ""
    ensures RowsTotal(WeekRows(logs, foods), date) == GuestDayCalories(LogsOn(logs, Some(date)), foods)
  {
    if logs != [] {
      var init, last := logs[..|logs| - 1], logs[|logs| - 1];
      WeeklyBranchesAgree(init, foods, date);
      RowsTotalSnoc(logs, foods, date);
      LogsOnLast(logs, Some(date));
      var day := LogsOn(init, Some(date));
      if last.date == date {
        GuestDayCaloriesSnoc(day, last, foods);
        assert GuestDayCalories(LogsOn(logs, Some(date)), foods) == GuestDayCalories(day, foods) + LogCalories(last, foods);
      } else {
        assert day + [] == day;
        assert GuestDayCalories(LogsOn(logs, Some(date)), foods) == GuestDayCalories(day, foods);
      }
      assert RowsTotal(WeekRows(logs, foods), date) == RowsTotal(WeekRows(init, foods), date) + (if last.date == date then LogCalories(last, foods) else 0.0);
    } else {
      assert WeekRows(logs, foods) == [];
      assert LogsOn(logs, Some(date)) == [];
    }
  }

  /** The remote answer: one entry per date, in the order given. */
  function RemoteWeek(dates: seq<string>, rows: seq<WeekRow>): (r: seq<DayCalories>)
    ensures |r| == |dates|
    ensures forall i | 0 <= i < |r| :: r[i].date == dates[i] && NearestInt(r[i].calories, RowsTotal(rows, dates[i]))
  {
    seq(|dates|, i requires 0 <= i < |dates| => DayCalories(dates[i], Round(RowsTotal(rows, dates[i]))))
  }

  /** The guest answer: one entry per date, in the order given. */
  function GuestWeek(dates: seq<string>, logs: seq<FoodLog>, foods: seq<FoodItem>): (r: seq<DayCalories>)
    ensures |r| == |dates|
    ensures forall i | 0 <= i < |r| :: r[i].date == dates[i] && NearestInt(r[i].calories, GuestDayCalories(LogsOn(logs, Some(dates[i])), foods))
  {
    seq(|dates|, i requires 0 <= i < |dates| => DayCalories(dates[i], Round(GuestDayCalories(LogsOn(logs, Some(dates[i])), foods))))
  }

  // ---------------------------------------------------------------------
  // The hook

  /** What the backend answers to fetchFoods' two queries. */
  datatype FoodsReply = FoodsReply(categories: Response<seq<FoodCategory>>, foods: Response<seq<FoodItem>>)

  /** The caches after fetchFoods, given those before it: a guest gets the
      guest catalogue and the default categories; a signed-in user gets the
      backend's rows, the defaults (categories) or nothing (foods) when a
      query fails, and keeps the old cache when a query returns no rows. */
  predicate FoodsFetched(isGuest: bool, catalogue: seq<FoodItem>, reply: FoodsReply,
                         oldFoods: seq<FoodItem>, oldCategories: seq<FoodCategory>,
                         foods: seq<FoodItem>, categories: seq<FoodCategory>)
  {
    if isGuest then
      foods == catalogue && categories == DefaultCategories
    else
      && foods == (match reply.foods
        case Failed => []
        case Rows(rows) => rows
        case NoRows => oldFoods)
      && categories == (match reply.categories
        case Failed => DefaultCategories
        case Rows(rows) => rows
        case NoRows => oldCategories)
  }

  class FoodLogHook {
    const isGuest: bool
    const userId: Option<string>
    const guest: GuestStorage
    const remote: RemoteStore
    var logs: seq<LoggedFood>
    var foods: seq<FoodItem>
    var categories: seq<FoodCategory>
    var isLoading: bool

    constructor(isGuest: bool, userId: Option<string>, guest: GuestStorage, remote: RemoteStore)
      ensures this.isGuest == isGuest && this.userId == userId && this.guest == guest && this.remote == remote
      ensures logs == [] && foods == [] && categories == DefaultCategories && isLoading
    {
      this.isGuest := isGuest;
      this.userId := userId;
      this.guest := guest;
      this.remote := remote;
      logs := [];
      foods := [];
      categories := DefaultCategories;
      isLoading := true;
    }

    /** fetchFoods: the guest catalogue for a guest; for a signed-in user the
        backend's categories (the defaults when that query fails) and foods
        (none when that query fails). */
    method FetchFoods(now: string, reply: FoodsReply) returns (r: seq<FoodItem>)
      modifies this
      ensures isGuest ==> r == GuestCatalogue(now, guest.GetGuestCustomFoods()) && foods == r && categories == DefaultCategories
      ensures !isGuest ==> match reply.foods
        case Failed => r == [] && foods == []
        case Rows(rows) => r == rows && foods == rows
        case NoRows => r == [] && foods == old(foods)
      ensures !isGuest ==> match reply.categories
        case Failed => categories == DefaultCategories
        case Rows(rows) => categories == rows
        case NoRows => categories == old(categories)
      ensures FoodsFetched(isGuest, GuestCatalogue(now, guest.GetGuestCustomFoods()), reply, old(foods), old(categories), foods, categories)
      ensures logs == old(logs) && !isLoading
    {
      isLoading := true;
      if isGuest {
        var customFoods := guest.GetGuestCustomFoods();
        r := DefaultFoodItems(now) + customFoods;
        foods := r;
        categories := DefaultCategories;
        isLoading := false;
        return;
      }
      match reply.categories {
        case Failed => categories := DefaultCategories;
        case Rows(rows) => categories := rows;
        case NoRows =>
      }
      match reply.foods {
        case Failed =>
          foods := [];
          r := [];
        case Rows(rows) =>
          foods := rows;
          r := rows;
        case NoRows =>
          r := [];
      }
      isLoading := false;
    }

    /** fetchLogs: refreshes the catalogue, then replaces the log cache with
        the guest's logs of the day joined to the catalogue, or with the
        backend's rows when it returns any. */
    method FetchLogs(date: string, now: string, reply: FoodsReply, rows: Option<seq<LoggedFood>>) returns (r: seq<LoggedFood>)
      modifies this
      ensures isGuest ==> foods == GuestCatalogue(now, guest.GetGuestCustomFoods())
      ensures isGuest ==> r == JoinLogs(guest.GetGuestFoodLogs(Some(date)), foods) && logs == r
      ensures !isGuest ==> r == rows.GetOr([]) && logs == rows.GetOr(old(logs))
      ensures FoodsFetched(isGuest, GuestCatalogue(now, guest.GetGuestCustomFoods()), reply, old(foods), old(categories), foods, categories)
      ensures !isLoading
    {
      isLoading := true;
      var allFoods := FetchFoods(now, reply);
      if isGuest {
        var guestLogs := guest.GetGuestFoodLogs(Some(date));
        r := JoinLogs(guestLogs, allFoods);
        logs := r;
        isLoading := false;
        return;
      }
      if rows.Some? {
        logs := rows.value;
      }
      isLoading := false;
      r := rows.GetOr([]);
    }

    /** addLog: a guest's log is always stored, and shown at once when its
        food is in the catalogue cache; a signed-in user's insert is sent and,
        when it succeeds, the day's logs are fetched again rather than
        appended. */
    method AddLog(foodItemId: string, weightGrams: real, mealTime: MealTime, date: string,
                  freshId: string, now: string, insertFailed: bool,
                  reply: FoodsReply, rows: Option<seq<LoggedFood>>) returns (error: bool)
      modifies this, guest, remote
      ensures isGuest ==> !error && remote.journal == old(remote.journal)
      ensures isGuest && guest.inBrowser ==>
        guest.GetGuestData() == old(guest.GetGuestData()).(foodLogs := old(guest.GetGuestData()).foodLogs + [FoodLog(freshId, GuestId, foodItemId, weightGrams, mealTime, date, now)])
      ensures isGuest ==> logs == old(logs) + match FindFood(old(foods), foodItemId)
        case Some(f) => [LoggedFood(FoodLog(freshId, GuestId, foodItemId, weightGrams, mealTime, date, now), f)]
        case None => []
      ensures !isGuest || !guest.inBrowser ==> guest.guestSlot == old(guest.guestSlot)
      ensures guest.macroSlot == old(guest.macroSlot)
      ensures !isGuest ==> remote.journal == old(remote.journal) + [InsertLog(userId, LogEntry(foodItemId, weightGrams, mealTime, date))]
      ensures !isGuest ==> error == insertFailed
      ensures !isGuest && insertFailed ==> logs == old(logs)
      ensures !isGuest && !insertFailed ==> logs == rows.GetOr(old(logs))
      ensures isGuest || insertFailed ==> foods == old(foods) && categories == old(categories)
      ensures !isGuest && !insertFailed ==> FoodsFetched(false, [], reply, old(foods), old(categories), foods, categories)
    {
      var entry := LogEntry(foodItemId, weightGrams, mealTime, date);
      if isGuest {
        var newLog := guest.AddGuestFoodLog(entry, freshId, now);
        var food := FindFood(foods, foodItemId);
        if food.Some? {
          logs := logs + [LoggedFood(newLog, food.value)];
        }
        return false;
      }
      remote.Send(InsertLog(userId, entry));
      if !insertFailed {
        var _ := FetchLogs(date, now, reply, rows);
      }
      return insertFailed;
    }

    /** removeLog: drops the log from the cache, after removing it from the
        guest store, or after the backend confirms the delete. */
    method RemoveLog(logId: string, deleteFailed: bool) returns (error: bool)
      modifies this, guest, remote
      ensures isGuest ==> !error && remote.journal == old(remote.journal)
      ensures isGuest && guest.inBrowser ==>
        guest.GetGuestData() == old(guest.GetGuestData()).(foodLogs := WithoutLog(old(guest.GetGuestData()).foodLogs, logId))
      ensures !isGuest || !guest.inBrowser ==> guest.guestSlot == old(guest.guestSlot)
      ensures guest.macroSlot == old(guest.macroSlot)
      ensures !isGuest ==> remote.journal == old(remote.journal) + [DeleteLog(logId)] && error == deleteFailed
      ensures logs == if error then old(logs) else WithoutEntry(old(logs), logId)
      ensures foods == old(foods) && categories == old(categories)
    {
      if isGuest {
        guest.RemoveGuestFoodLog(logId);
        logs := WithoutEntry(logs, logId);
        return false;
      }
      remote.Send(DeleteLog(logId));
      if !deleteFailed {
        logs := WithoutEntry(logs, logId);
      }
      return deleteFailed;
    }

    /** addCustomFood: a guest's food is stored and appended to the cache; a
        signed-in user's insert is sent and the returned row appended. */
    method AddCustomFood(entry: FoodEntry, freshId: string, now: string, reply: Response<FoodItem>)
      returns (data: Option<FoodItem>, error: bool)
      modifies this, guest, remote
      ensures isGuest ==> !error && remote.journal == old(remote.journal)
      ensures isGuest ==> data == Some(FoodItem(freshId, Some(GuestId), entry.categoryId, entry.name,
        entry.caloriesPer100g, entry.proteinPer100g, entry.carbsPer100g, entry.fatPer100g, entry.imageUrl, false, now))
      ensures isGuest && guest.inBrowser ==>
        guest.GetGuestData() == old(guest.GetGuestData()).(customFoods := old(guest.GetGuestData()).customFoods + [data.value])
      ensures !isGuest || !guest.inBrowser ==> guest.guestSlot == old(guest.guestSlot)
      ensures guest.macroSlot == old(guest.macroSlot)
      ensures !isGuest ==> remote.journal == old(remote.journal) + [InsertFood(userId, entry)]
      ensures !isGuest ==> (error <==> reply.Failed?) && (data.Some? <==> reply.Rows?)
      ensures !isGuest && reply.Rows? ==> data == Some(reply.rows)
      ensures foods == if data.Some? then old(foods) + [data.value] else old(foods)
      ensures logs == old(logs) && categories == old(categories)
    {
      if isGuest {
        var newFood := guest.AddGuestCustomFood(entry, freshId, now);
        foods := foods + [newFood];
        return Some(newFood), false;
      }
      remote.Send(InsertFood(userId, entry));
      match reply {
        case Failed =>
          data, error := None, true;
        case Rows(row) =>
          foods := foods + [row];
          data, error := Some(row), false;
        case NoRows =>
          data, error := None, false;
      }
    }

    /** getDailySummary over the log cache. */
    function GetDailySummary(date: string): (s: DailySummary)
      reads this
      ensures s == DaySummary(logs, date)
    {
      DaySummary(logs, date)
    }

    /** fetchWeeklyCalories: one entry per date in the order given. A guest's
        days are totalled from the store's logs of each day whose food is in
        the refreshed catalogue; a signed-in user's are accumulated, row by
        row, from the rows the backend returns, every date starting at zero. */
    method FetchWeeklyCalories(dates: seq<string>, now: string, reply: FoodsReply, weekRows: Option<seq<WeekRow>>)
      returns (r: seq<DayCalories>)
      modifies this
      ensures isGuest ==> foods == GuestCatalogue(now, guest.GetGuestCustomFoods())
      ensures isGuest ==> r == GuestWeek(dates, guest.GetGuestData().foodLogs, foods)
      ensures !isGuest ==> r == RemoteWeek(dates, weekRows.GetOr([]))
      ensures FoodsFetched(isGuest, GuestCatalogue(now, guest.GetGuestCustomFoods()), reply, old(foods), old(categories), foods, categories)
      ensures logs == old(logs)
    {
      var allFoods := FetchFoods(now, reply);
      if isGuest {
        var stored := guest.GetGuestData().foodLogs;
        r := seq(|dates|, i requires 0 <= i < |dates| => DayCalories(dates[i], Round(GuestDayCalories(LogsOn(stored, Some(dates[i])), allFoods))));
        return;
      }
      var rows := weekRows.GetOr([]);
      var caloriesByDate := CaloriesByDate(dates, rows);
      r := seq(|dates|, i requires 0 <= i < |dates| => DayCalories(dates[i], Round(caloriesByDate[dates[i]])));
    }
  }

  /** The signed-in branch of fetchWeeklyCalories: every date starts at
      zero, then each row whose food was joined adds its calories to its
      date (a date outside the week gets an entry of its own). */
  method CaloriesByDate(dates: seq<string>, rows: seq<WeekRow>) returns (caloriesByDate: map<string, real>)
    ensures forall i | 0 <= i < |dates| :: dates[i] in caloriesByDate
    ensures forall d | d in caloriesByDate :: caloriesByDate[d] == RowsTotal(rows, d)
  {
    caloriesByDate := map[];
    var k := 0;
    while k < |dates|
      invariant 0 <= k <= |dates|
      invariant caloriesByDate.Keys == set i | 0 <= i < k :: dates[i]
      invariant forall d | d in caloriesByDate :: caloriesByDate[d] == 0.0
    {
      caloriesByDate := caloriesByDate[dates[k] := 0.0];
      k := k + 1;
    }
    k := 0;
    while k < |rows|
      invariant 0 <= k <= |rows|
      invariant forall i | 0 <= i < |dates| :: dates[i] in caloriesByDate
      invariant forall d | d in caloriesByDate :: caloriesByDate[d] == RowsTotal(rows[..k], d)
      invariant forall d | d !in caloriesByDate :: RowsTotal(rows[..k], d) == 0.0
    {
      var row := rows[k];
      assert rows[..k + 1][..k] == rows[..k];
      if row.caloriesPer100g.Some? {
        var current := if row.date in caloriesByDate then caloriesByDate[row.date] else 0.0;
        caloriesByDate := caloriesByDate[row.date := current + row.caloriesPer100g.value * row.weightGrams / 100.0];
      }
      k := k + 1;
    }
    assert rows[..|rows|] == rows;
  }

  /** The log cache without the entries of the given log id. */
  function WithoutEntry(entries: seq<LoggedFood>, logId: string): (r: seq<LoggedFood>)
    ensures forall i | 0 <= i < |r| :: r[i].log.id != logId
    ensures forall i | 0 <= i < |entries| :: entries[i].log.id != logId ==> entries[i] in r
  {
    Filter(entries, (e: LoggedFood) => e.log.id != logId)
  }
}
