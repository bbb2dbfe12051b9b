/** The application's value types and its fixed lookup tables
    (types/index.ts, with the record shapes of types/database.ts). */
module Types {
  import opened JsRuntime

  datatype MealTime = Breakfast | Lunch | Dinner | Snack

  datatype ActivityLevel = Sedentary | Light | Moderate | Active | VeryActive

  datatype Gender = Male | Female

  datatype Goal = Lose | Maintain | Gain

  /** The four meal times, in the order a day's summary lists them. */
  const MealTimes: seq<MealTime> := [Breakfast, Lunch, Dinner, Snack]

  lemma MealTimesEnumerate()
    ensures |MealTimes| == 4
    ensures forall m: MealTime :: m in MealTimes
    ensures forall i, j | 0 <= i < j < |MealTimes| :: MealTimes[i] != MealTimes[j]
  {
    forall m: MealTime ensures m in MealTimes {
      match m
      case Breakfast => assert MealTimes[0] == m;
      case Lunch => assert MealTimes[1] == m;
      case Dinner => assert MealTimes[2] == m;
      case Snack => assert MealTimes[3] == m;
    }
  }

  /** Position of an activity level on the scale from sedentary upwards. */
  function ActivityRank(a: ActivityLevel): (r: nat)
    ensures r < 5
  {
    match a
    case Sedentary => 0
    case Light => 1
    case Moderate => 2
    case Active => 3
    case VeryActive => 4
  }

  /** ACTIVITY_MULTIPLIERS: the factor by which daily activity raises the
      basal metabolic rate. */
  function ActivityMultiplier(a: ActivityLevel): (m: real)
    ensures 1.0 < m < 2.0
  {
    match a
    case Sedentary => 1.2
    case Light => 1.375
    case Moderate => 1.55
    case Active => 1.725
    case VeryActive => 1.9
  }

  /** A more active level always has a strictly larger multiplier. */
  lemma ActivityMultiplierIncreasing(a: ActivityLevel, b: ActivityLevel)
    ensures ActivityRank(a) < ActivityRank(b) <==> ActivityMultiplier(a) < ActivityMultiplier(b)
  {
  }

  function GoalLabel(g: Goal): (s: string)
    ensures s != ""
  {
    match g
    case Lose => "Cut / Lose Weight"
    case Maintain => "Maintain Weight"
    case Gain => "Bulk / Gain Weight"
  }

  function GoalIcon(g: Goal): (s: string)
    ensures s != ""
  {
    match g
    case Lose => "\U{1F525}"
    case Maintain => "\U{2696}\U{FE0F}"
    case Gain => "\U{1F4AA}"
  }

  /** A row of food_categories. */
  datatype FoodCategory = FoodCategory(id: string, name: string, icon: string, color: string)

  /** A row of food_items: nutrient values are per 100 grams; userId is
      absent for the shared default foods. */
  datatype FoodItem = FoodItem(
    id: string,
    userId: Option<string>,
    categoryId: string,
    name: string,
    caloriesPer100g: real,
    proteinPer100g: real,
    carbsPer100g: real,
    fatPer100g: real,
    imageUrl: Option<string>,
    isDefault: bool,
    createdAt: string)

  /** A row of food_logs: one food eaten, by weight, at a meal on a day. */
  datatype FoodLog = FoodLog(
    id: string,
    userId: string,
    foodItemId: string,
    weightGrams: real,
    mealTime: MealTime,
    date: string,
    loggedAt: string)

  /** FoodLogWithItem: a log together with the food it refers to. */
  datatype LoggedFood = LoggedFood(log: FoodLog, foodItem: FoodItem)

  /** The fields of a profile row. */
  datatype ProfileField =
    | IdKey | EmailKey | CreatedAtKey
    | HeightKey | WeightKey | AgeKey | GenderKey | ActivityKey | GoalKey

  /** A profile field's value: a string, a number, or null. */
  datatype FieldValue = Text(text: string) | Number(number: real) | Null

  /** Partial<Profile>: whichever fields are present. */
  type PartialProfile = map<ProfileField, FieldValue>

  /** The four nutrient quantities the application adds up. */
  datatype Nutrients = Nutrients(calories: real, protein: real, carbs: real, fat: real)

  const ZeroNutrients := Nutrients(0.0, 0.0, 0.0, 0.0)

  function AddNutrients(a: Nutrients, b: Nutrients): Nutrients {
    Nutrients(a.calories + b.calories, a.protein + b.protein, a.carbs + b.carbs, a.fat + b.fat)
  }

  /** DailySummary.meals: one bucket of logs per meal time. */
  datatype MealBuckets = MealBuckets(
    breakfast: seq<LoggedFood>,
    lunch: seq<LoggedFood>,
    dinner: seq<LoggedFood>,
    snack: seq<LoggedFood>)
  {
    function Bucket(m: MealTime): seq<LoggedFood> {
      match m
      case Breakfast => breakfast
      case Lunch => lunch
      case Dinner => dinner
      case Snack => snack
    }
  }

  datatype DailySummary = DailySummary(
    date: string,
    totalCalories: int,
    totalProtein: real,
    totalCarbs: real,
    totalFat: real,
    meals: MealBuckets)

  datatype TdeeResult = TdeeResult(bmr: int, tdee: int, deficit: int, surplus: int)

  /** One macronutrient's share of a calorie target. */
  datatype MacroShare = MacroShare(grams: int, calories: int, percentage: int)

  datatype MacroRecommendation = MacroRecommendation(
    calories: real,
    protein: MacroShare,
    carbs: MacroShare,
    fat: MacroShare,
    goal: Goal)

  datatype BodyFatResult = BodyFatResult(percentage: real, category: string)

  /** Everything a guest has stored in the browser. */
  datatype GuestData = GuestData(foodLogs: seq<FoodLog>, customFoods: seq<FoodItem>, profile: PartialProfile)

  const EmptyGuestData := GuestData([], [], map[])
}
