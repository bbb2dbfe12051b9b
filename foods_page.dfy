/** The food database page (app/foods/page.tsx): the search and category
    filter over the foods, and the grouping of the result by category. */
module FoodsPage {
  import opened JsRuntime
  import opened Types
  import Constants

  /** A food is shown when its lower-cased name contains the lower-cased
      query and, if a category is selected, it belongs to it. */
  predicate Matches(food: FoodItem, query: string, category: Option<string>) {
    Includes(ToLower(food.name), ToLower(query)) && (!Truthy(category) || food.categoryId == category.value)
  }

  /** filteredFoods. */
  function FilterFoods(foods: seq<FoodItem>, query: string, category: Option<string>): (r: seq<FoodItem>)
    ensures |r| <= |foods|
    ensures forall i | 0 <= i < |r| :: Matches(r[i], query, category)
    ensures forall i | 0 <= i < |foods| :: Matches(foods[i], query, category) ==> foods[i] in r
  {
    Filter(foods, (f: FoodItem) => Matches(f, query, category))
  }

  /** With no query and no category every food is shown. */
  lemma EmptySearchKeepsAll(foods: seq<FoodItem>, category: Option<string>)
    requires !Truthy(category)
    ensures FilterFoods(foods, "", category) == foods
  {
    forall i | 0 <= i < |foods| ensures Matches(foods[i], "", category) {
      IncludesEmpty(ToLower(foods[i].name));
    }
    FilterAll(foods, (f: FoodItem) => Matches(f, "", category));
  }

  /** Filtering keeps the order of the list: the shown foods of two runs
      of the list are the shown foods of each run, one after the other. */
  lemma FilterKeepsOrder(a: seq<FoodItem>, b: seq<FoodItem>, query: string, category: Option<string>)
    ensures FilterFoods(a + b, query, category) == FilterFoods(a, query, category) + FilterFoods(b, query, category)
  {
    FilterAppend(a, b, (f: FoodItem) => Matches(f, query, category));
  }

  /** The foods of one category, in list order. */
  function InCategory(foods: seq<FoodItem>, id: string): (r: seq<FoodItem>)
    ensures forall i | 0 <= i < |r| :: r[i].categoryId == id
    ensures forall i | 0 <= i < |foods| :: foods[i].categoryId == id ==> foods[i] in r
  {
    Filter(foods, (f: FoodItem) => f.categoryId == id)
  }

  lemma InCategorySnoc(foods: seq<FoodItem>, f: FoodItem, id: string)
    ensures InCategory(foods + [f], id) == InCategory(foods, id) + (if f.categoryId == id then [f] else [])
  {
    FilterSnoc(foods, f, (x: FoodItem) => x.categoryId == id);
  }

  /** The category ids the foods carry. */
  function CategoryIdsOf(foods: seq<FoodItem>): set<string> {
    set i | 0 <= i < |foods| :: foods[i].categoryId
  }

  lemma InCategoryAbsent(foods: seq<FoodItem>, id: string)
    requires id !in CategoryIdsOf(foods)
    ensures InCategory(foods, id) == []
  {
    forall i | 0 <= i < |foods| ensures foods[i].categoryId != id {
      assert foods[i].categoryId in CategoryIdsOf(foods);
    }
    FilterNone(foods, (x: FoodItem) => x.categoryId == id);
  }

  /** The groups of a list: one per category id present, each holding the
      foods of that category in list order. */
  ghost predicate GroupsOf(groups: map<string, seq<FoodItem>>, foods: seq<FoodItem>) {
    && groups.Keys == CategoryIdsOf(foods)
    && forall k | k in groups :: groups[k] == InCategory(foods, k) && groups[k] != []
  }

  lemma CategoryIdsSnoc(foods: seq<FoodItem>, f: FoodItem)
    ensures CategoryIdsOf(foods + [f]) == CategoryIdsOf(foods) + {f.categoryId}
  {
    var all := foods + [f];
    forall c | c in CategoryIdsOf(all) ensures c in CategoryIdsOf(foods) + {f.categoryId} {
      var j :| 0 <= j < |all| && all[j].categoryId == c;
      if j < |foods| { assert foods[j] == all[j]; }
    }
    forall c | c in CategoryIdsOf(foods) ensures c in CategoryIdsOf(all) {
      var j :| 0 <= j < |foods| && foods[j].categoryId == c;
      assert all[j] == foods[j];
    }
    assert all[|foods|] == f;
  }

  /** Appending a food to its own group (opened empty if missing) gives
      the groups of the longer list. */
  lemma PushKeepsGroups(groups: map<string, seq<FoodItem>>, foods: seq<FoodItem>, f: FoodItem)
    requires GroupsOf(groups, foods)
    ensures var withGroup := if f.categoryId in groups then groups else groups[f.categoryId := []];
      GroupsOf(withGroup[f.categoryId := withGroup[f.categoryId] + [f]], foods + [f])
  {
    var withGroup := if f.categoryId in groups then groups else groups[f.categoryId := []];
    if f.categoryId !in groups {
      InCategoryAbsent(foods, f.categoryId);
    }
    var pushed := withGroup[f.categoryId := withGroup[f.categoryId] + [f]];
    forall k | k in pushed ensures pushed[k] == InCategory(foods + [f], k) && pushed[k] != [] {
      InCategorySnoc(foods, f, k);
    }
    CategoryIdsSnoc(foods, f);
  }

  /** The grouping groupedFoods computes: for each category id present,
      the foods of that category in list order. */
  function Grouping(filtered: seq<FoodItem>): (r: map<string, seq<FoodItem>>)
    ensures GroupsOf(r, filtered)
  {
    var r := map k | k in CategoryIdsOf(filtered) :: InCategory(filtered, k);
    forall k | k in r ensures r[k] != [] {
      var j :| 0 <= j < |filtered| && filtered[j].categoryId == k;
    }
    r
  }

  /** groupedFoods: one pass over the filtered foods, opening a group the
      first time a category id appears and appending each food to its own
      group. Each group is the foods of its category in list order, and
      there is a group exactly for each category id present. */
  method GroupFoods(filtered: seq<FoodItem>) returns (groups: map<string, seq<FoodItem>>)
    ensures groups.Keys == CategoryIdsOf(filtered)
    ensures forall k | k in groups :: groups[k] == InCategory(filtered, k) && groups[k] != []
    ensures groups == Grouping(filtered)
  {
    groups := map[];
    var i := 0;
    while i < |filtered|
      invariant 0 <= i <= |filtered|
      invariant GroupsOf(groups, filtered[..i])
    {
      var food := filtered[i];
      PushKeepsGroups(groups, filtered[..i], food);
      assert filtered[..i + 1] == filtered[..i] + [food];
      if food.categoryId !in groups {
        groups := groups[food.categoryId := []];
      }
      groups := groups[food.categoryId := groups[food.categoryId] + [food]];
      i := i + 1;
    }
    assert filtered[..i] == filtered;
  }

  // ---------------------------------------------------------------------
  // Counting the grouped foods

  /** The number of foods in the groups of the listed category ids. */
  function GroupedCount(foods: seq<FoodItem>, ids: seq<string>): nat {
    if ids == [] then 0 else |InCategory(foods, ids[0])| + GroupedCount(foods, ids[1..])
  }

  /** How many times id is listed. */
  function Occurrences(ids: seq<string>, id: string): nat {
    if ids == [] then 0 else (if ids[0] == id then 1 else 0) + Occurrences(ids[1..], id)
  }

  lemma {:induction false} GroupedCountSnoc(foods: seq<FoodItem>, f: FoodItem, ids: seq<string>)
    ensures GroupedCount(foods + [f], ids) == GroupedCount(foods, ids) + Occurrences(ids, f.categoryId)
  {
    if ids != [] {
      InCategorySnoc(foods, f, ids[0]);
      GroupedCountSnoc(foods, f, ids[1..]);
    }
  }

  ghost predicate Distinct(ids: seq<string>) {
    forall i, j | 0 <= i < j < |ids| :: ids[i] != ids[j]
  }

  lemma {:induction false} OccursOnce(ids: seq<string>, id: string)
    requires Distinct(ids) && id in ids
    ensures Occurrences(ids, id) == 1
  {
    if ids[0] == id {
      OccursNever(ids[1..], id);
    } else {
      assert Distinct(ids[1..]);
      OccursOnce(ids[1..], id);
    }
  }

  lemma {:induction false} OccursNever(ids: seq<string>, id: string)
    requires id !in ids
    ensures Occurrences(ids, id) == 0
  {
    if ids != [] {
      OccursNever(ids[1..], id);
    }
  }

  /** Grouping loses and duplicates nothing: over distinct category ids
      that cover every food's category, the group sizes add up to the
      number of foods. */
  lemma {:induction false} GroupSizesSum(foods: seq<FoodItem>, ids: seq<string>)
    requires Distinct(ids)
    requires forall i | 0 <= i < |foods| :: foods[i].categoryId in ids
    ensures GroupedCount(foods, ids) == |foods|
  {
    if foods == [] {
      GroupedCountEmpty(ids);
    } else {
      var init := foods[..|foods| - 1];
      var last := foods[|foods| - 1];
      assert foods == init + [last];
      assert forall i | 0 <= i < |init| :: init[i] == foods[i];
      GroupSizesSum(init, ids);
      GroupedCountSnoc(init, last, ids);
      OccursOnce(ids, last.categoryId);
    }
  }

  lemma {:induction false} GroupedCountEmpty(ids: seq<string>)
    ensures GroupedCount([], ids) == 0
  {
    if ids != [] {
      FilterNone([], (f: FoodItem) => f.categoryId == ids[0]);
      GroupedCountEmpty(ids[1..]);
    }
  }

  // ---------------------------------------------------------------------
  // What the page shows

  datatype Section = Section(category: FoodCategory, foods: seq<FoodItem>)

  datatype PageView =
    | Loading
    | NoFoods
    | Flat(foods: seq<FoodItem>)
    | Grouped(sections: seq<Section>)

  /** `groups[id] || []`. */
  function GroupOf(groups: map<string, seq<FoodItem>>, id: string): seq<FoodItem> {
    if id in groups then groups[id] else []
  }

  /** A category is shown when its group has foods. */
  function HasFoods(groups: map<string, seq<FoodItem>>): FoodCategory -> bool {
    (c: FoodCategory) => GroupOf(groups, c.id) != []
  }

  /** The categories the sections are headed by, in order. */
  function SectionCategories(sections: seq<Section>): seq<FoodCategory> {
    if sections == [] then [] else [sections[0].category] + SectionCategories(sections[1..])
  }

  /** One section per listed category with foods, in category order: the
      section headings are exactly the listed categories whose group is
      non-empty, in list order, and each section holds its group. */
  function Sections(categories: seq<FoodCategory>, groups: map<string, seq<FoodItem>>): (r: seq<Section>)
    ensures forall i | 0 <= i < |r| :: r[i].foods != [] && r[i].category in categories
    ensures forall i | 0 <= i < |r| :: r[i].foods == GroupOf(groups, r[i].category.id)
    ensures SectionCategories(r) == Filter(categories, HasFoods(groups))
  {
    if categories == [] then []
    else
      var foods := GroupOf(groups, categories[0].id);
      var rest := Sections(categories[1..], groups);
      var r := if foods == [] then rest else [Section(categories[0], foods)] + rest;
      assert foods != [] ==> r[1..] == rest;
      r
  }

  function SectionsSize(sections: seq<Section>): nat {
    if sections == [] then 0 else |sections[0].foods| + SectionsSize(sections[1..])
  }

  /** With the groups of the filtered foods, the sections hold as many
      foods as the groups of the listed categories. */
  lemma {:induction false} SectionsSizeIsGroupedCount(categories: seq<FoodCategory>, filtered: seq<FoodItem>,
                                                      groups: map<string, seq<FoodItem>>)
    requires forall k | k in groups :: groups[k] == InCategory(filtered, k)
    requires forall k | k !in groups :: InCategory(filtered, k) == []
    ensures SectionsSize(Sections(categories, groups)) == GroupedCount(filtered, Constants.CategoryIds(categories))
  {
    if categories != [] {
      assert Constants.CategoryIds(categories)[1..] == Constants.CategoryIds(categories[1..]);
      SectionsSizeIsGroupedCount(categories[1..], filtered, groups);
      assert GroupOf(groups, categories[0].id) == InCategory(filtered, categories[0].id);
      var foods := GroupOf(groups, categories[0].id);
      if foods != [] {
        assert ([Section(categories[0], foods)] + Sections(categories[1..], groups))[1..] == Sections(categories[1..], groups);
      }
    }
  }

  /** The page body: a loading note, the empty state, a flat list when a
      category is selected, otherwise the non-empty groups in category
      order. */
  method Render(isLoading: bool, foods: seq<FoodItem>, query: string, category: Option<string>,
                categories: seq<FoodCategory>) returns (view: PageView)
    ensures isLoading ==> view == Loading
    ensures !isLoading && FilterFoods(foods, query, category) == [] ==> view == NoFoods
    ensures view.Flat? ==> Truthy(category) && view.foods == FilterFoods(foods, query, category) && view.foods != []
    ensures !isLoading && FilterFoods(foods, query, category) != [] ==> (view.Flat? <==> Truthy(category))
    ensures view.Grouped? ==>
      SectionsSize(view.sections) == GroupedCount(FilterFoods(foods, query, category), Constants.CategoryIds(categories))
    ensures view.Grouped? ==> forall i | 0 <= i < |view.sections| ::
      view.sections[i].foods == InCategory(FilterFoods(foods, query, category), view.sections[i].category.id)
    ensures view.Grouped? ==> view.sections == Sections(categories, Grouping(FilterFoods(foods, query, category)))
  {
    if isLoading {
      return Loading;
    }
    var filtered := FilterFoods(foods, query, category);
    if |filtered| == 0 {
      return NoFoods;
    }
    if Truthy(category) {
      return Flat(filtered);
    }
    var groups := GroupFoods(filtered);
    forall k | k !in groups ensures InCategory(filtered, k) == [] {
      InCategoryAbsent(filtered, k);
    }
    SectionsSizeIsGroupedCount(categories, filtered, groups);
    var sections := Sections(categories, groups);
    return Grouped(sections);
  }

  /** When the category list has distinct ids and covers every shown
      food's category, the grouped page shows every filtered food once. */
  lemma GroupedShowsEveryFood(filtered: seq<FoodItem>, categories: seq<FoodCategory>, groups: map<string, seq<FoodItem>>)
    requires Distinct(Constants.CategoryIds(categories))
    requires forall i | 0 <= i < |filtered| :: filtered[i].categoryId in Constants.CategoryIds(categories)
    requires forall k | k in groups :: groups[k] == InCategory(filtered, k)
    requires forall k | k !in groups :: InCategory(filtered, k) == []
    ensures SectionsSize(Sections(categories, groups)) == |filtered|
  {
    SectionsSizeIsGroupedCount(categories, filtered, groups);
    GroupSizesSum(filtered, Constants.CategoryIds(categories));
  }
}
