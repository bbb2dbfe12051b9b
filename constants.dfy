/** The seeded catalogue and the body-fat reference tables (lib/constants.ts). */
module Constants {
  import opened Types

  /** A DEFAULT_FOODS entry: a food item without id, owner or timestamp. */
  datatype DefaultFood = DefaultFood(
    categoryId: string,
    name: string,
    caloriesPer100g: real,
    proteinPer100g: real,
    carbsPer100g: real,
    fatPer100g: real,
    imageUrl: string,
    isDefault: bool)

  const DefaultCategories: seq<FoodCategory> := [
    FoodCategory("cat-carbs", "Carbs", "\U{1F35A}", "#f59e0b"),
    FoodCategory("cat-proteins", "Proteins", "\U{1F969}", "#ef4444"),
    FoodCategory("cat-fats", "Fats", "\U{1F951}", "#84cc16"),
    FoodCategory("cat-fruits", "Fruits", "\U{1F34E}", "#22c55e"),
    FoodCategory("cat-vegetables", "Vegetables", "\U{1F96C}", "#10b981"),
    FoodCategory("cat-dairy", "Dairy", "\U{1F95B}", "#3b82f6"),
    FoodCategory("cat-snacks", "Snacks", "\U{1F37F}", "#8b5cf6")
  ]

  /** The catalogue's pictures: 200 by 200 crops of Unsplash photos. */
  function Unsplash(photo: string): string {
    "https://images.unsplash.com/photo-" + photo + "?w=200&h=200&fit=crop"
  }

  const DefaultFoods: seq<DefaultFood> := [
    DefaultFood("cat-carbs", "Basmati Rice", 150.0, 3.5, 32.0, 0.4,
      Unsplash("1586201375761-83865001e31c"), true),
    DefaultFood("cat-carbs", "Ripe Plantain", 122.0, 1.3, 32.0, 0.4,
      Unsplash("1603052875302-d376b7c0638a"), true),
    DefaultFood("cat-carbs", "Sweet Potato", 86.0, 1.6, 20.0, 0.1,
      Unsplash("1546039907-7fa05f864c02"), true),
    DefaultFood("cat-carbs", "Yam", 118.0, 1.5, 28.0, 0.2,
      Unsplash("1516747773440-e1417d61e89a"), true),
    DefaultFood("cat-proteins", "Chicken Breast", 165.0, 31.0, 0.0, 3.6,
      Unsplash("1604503468506-a8da13d82791"), true),
    DefaultFood("cat-proteins", "Chicken Thigh", 209.0, 26.0, 0.0, 11.0,
      Unsplash("1598103442097-8b74394b95c6"), true),
    DefaultFood("cat-proteins", "Turkey Wings", 197.0, 28.0, 0.0, 9.0,
      Unsplash("1574672280600-4accfa5b6f98"), true),
    DefaultFood("cat-proteins", "Lamb Steak", 250.0, 25.0, 0.0, 16.0,
      Unsplash("1603048297172-c92544798d5a"), true),
    DefaultFood("cat-proteins", "Beef Steak", 271.0, 26.0, 0.0, 18.0,
      Unsplash("1600891964092-4316c288032e"), true),
    DefaultFood("cat-proteins", "Eggs", 155.0, 13.0, 1.1, 11.0,
      Unsplash("1582722872445-44dc5f7e3c8f"), true),
    DefaultFood("cat-fats", "Avocado", 160.0, 2.0, 9.0, 15.0,
      Unsplash("1523049673857-eb18f1d7b578"), true),
    DefaultFood("cat-fats", "Groundnut", 567.0, 26.0, 16.0, 49.0,
      Unsplash("1543158181-1274e5362710"), true),
    DefaultFood("cat-fats", "Cashew Nuts", 553.0, 18.0, 30.0, 44.0,
      Unsplash("1604147706283-d7119b5b822c"), true),
    DefaultFood("cat-fruits", "Banana", 89.0, 1.1, 23.0, 0.3,
      Unsplash("1571771894821-ce9b6c11b08e"), true),
    DefaultFood("cat-fruits", "Apple", 52.0, 0.3, 14.0, 0.2,
      Unsplash("1584306670957-acf935f5033c"), true),
    DefaultFood("cat-fruits", "Kiwi", 61.0, 1.1, 15.0, 0.5,
      Unsplash("1585059895524-72359e06133a"), true),
    DefaultFood("cat-vegetables", "Broccoli", 34.0, 2.8, 7.0, 0.4,
      Unsplash("1459411552884-841db9b3cc2a"), true),
    DefaultFood("cat-vegetables", "Carrots", 41.0, 0.9, 10.0, 0.2,
      Unsplash("1598170845058-32b9d6a5da37"), true),
    DefaultFood("cat-vegetables", "Bell Pepper", 31.0, 1.0, 6.0, 0.3,
      Unsplash("1563565375-f3fdfdbefa83"), true),
    DefaultFood("cat-vegetables", "Peas", 81.0, 5.0, 14.0, 0.4,
      Unsplash("1587735243615-c03f25aaff15"), true),
    DefaultFood("cat-vegetables", "Green Beans", 31.0, 1.8, 7.0, 0.1,
      Unsplash("1567375698348-5d9d5ae99de0"), true),
    DefaultFood("cat-dairy", "Greek Yogurt", 97.0, 9.0, 3.6, 5.0,
      Unsplash("1488477181946-6428a0291777"), true),
    DefaultFood("cat-snacks", "Plantain Chips", 519.0, 2.0, 58.0, 31.0,
      Unsplash("1566478989037-eec170784d0b"), true),
    DefaultFood("cat-snacks", "Biscuit", 502.0, 6.0, 62.0, 25.0,
      Unsplash("1558961363-fa8fdf82db35"), true)
  ]

  /** The ids of the default categories, in catalogue order. */
  function CategoryIds(cats: seq<FoodCategory>): (ids: seq<string>)
    ensures |ids| == |cats|
    ensures forall i | 0 <= i < |cats| :: ids[i] == cats[i].id
  {
    seq(|cats|, i requires 0 <= i < |cats| => cats[i].id)
  }

  /** The seven default categories have seven different ids. */
  lemma DefaultCategoryIdsDistinct()
    ensures |DefaultCategories| == 7
    ensures forall i, j | 0 <= i < j < |DefaultCategories| :: DefaultCategories[i].id != DefaultCategories[j].id
  {
  }

  /** Every seeded food is marked default and has non-negative nutrient
      values. */
  lemma DefaultFoodsWellFormed()
    ensures |DefaultFoods| == 24
    ensures forall i | 0 <= i < |DefaultFoods| ::
      && DefaultFoods[i].isDefault
      && DefaultFoods[i].caloriesPer100g >= 0.0
      && DefaultFoods[i].proteinPer100g >= 0.0
      && DefaultFoods[i].carbsPer100g >= 0.0
      && DefaultFoods[i].fatPer100g >= 0.0
  {
  }

  /** Every seeded food belongs to one of the default categories. */
  lemma DefaultFoodsCategorised()
    ensures forall i | 0 <= i < |DefaultFoods| :: DefaultFoods[i].categoryId in CategoryIds(DefaultCategories)
  {
    var ids := CategoryIds(DefaultCategories);
    assert ids == ["cat-carbs", "cat-proteins", "cat-fats", "cat-fruits", "cat-vegetables", "cat-dairy", "cat-snacks"];
  }

  /** One row of a BODY_FAT_CATEGORIES table: percentages up to max fall in category. */
  datatype BodyFatBand = BodyFatBand(max: real, category: string)

  /** BODY_FAT_CATEGORIES, by gender. */
  function BodyFatCategories(g: Gender): seq<BodyFatBand> {
    match g
    case Male => [
      BodyFatBand(6.0, "Essential Fat"),
      BodyFatBand(14.0, "Athletes"),
      BodyFatBand(18.0, "Fitness"),
      BodyFatBand(25.0, "Average"),
      BodyFatBand(100.0, "Obese")]
    case Female => [
      BodyFatBand(14.0, "Essential Fat"),
      BodyFatBand(21.0, "Athletes"),
      BodyFatBand(25.0, "Fitness"),
      BodyFatBand(32.0, "Average"),
      BodyFatBand(100.0, "Obese")]
  }

  /** Both tables have five bands with strictly increasing maxima, the last
      being 100, so every percentage from 0 to 100 falls in some band. */
  lemma BodyFatTablesWellFormed(g: Gender)
    ensures |BodyFatCategories(g)| == 5
    ensures forall i, j | 0 <= i < j < 5 :: BodyFatCategories(g)[i].max < BodyFatCategories(g)[j].max
    ensures BodyFatCategories(g)[4].max == 100.0
    ensures BodyFatCategories(g)[0].max > 0.0
  {
  }
}
