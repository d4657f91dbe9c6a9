/**
 * The entities of app.py: the `MealType` enumeration, the `Meals` and `User_data` tables'
 * rows, and the seeded catalog `meals_details`.
 *
 * A table row is a `Row<T>`: its integer primary key and its other columns. SQLite gives
 * a new row of an INTEGER PRIMARY KEY table the largest key in the table plus one (one
 * for an empty table), so a new key is `MaxId(rows) + 1`.
 */
module Records {
  import opened Wrappers

  /** `MealType`; iterating over the Python enumeration yields the members in this order. */
  datatype MealType = Breakfast | Dinner | Supper
  {
    /** The member's `.value`. */
    function Value(): string
    {
      match this
      case Breakfast => "BREAKFAST"
      case Dinner => "DINNER"
      case Supper => "SUPPER"
    }
  }

  /** Distinct members have distinct values. */
  lemma ValueInjective(t: MealType, u: MealType)
    ensures t.Value() == u.Value() ==> t == u
  {
  }

  /** The members of `MealType` in iteration order. */
  const AllMealTypes: seq<MealType> := [Breakfast, Dinner, Supper]

  /** A `Meals` row without its key. */
  datatype Meal = Meal(name: string, instructions: string, kcal: real, mealType: MealType)

  /** A `User_data` row without its key; `bfat` is the nullable body-fat column. */
  datatype UserProfile = UserProfile(gender: int, age: int, weight: real, height: real,
                                     activity: real, bfat: Option<real>)

  /** One entry of `meals_details`: name, recipe link, energy and meal type. */
  datatype MealDetail = MealDetail(name: string, link: string, kcal: int, mealType: MealType)

  /** A row of a table: its primary key and its columns. */
  datatype Row<T> = Row(id: int, value: T)

  /** The keys strictly increase along the table, as they do when every row is added with `MaxId + 1`. */
  ghost predicate Increasing<T>(rows: seq<Row<T>>)
  {
    forall i, j :: 0 <= i < j < |rows| ==> rows[i].id < rows[j].id
  }

  /** The largest key in the table, 0 for an empty table. */
  function MaxId<T>(rows: seq<Row<T>>): (m: int)
    ensures forall r :: r in rows ==> r.id <= m
    ensures rows == [] ==> m == 0
    ensures rows != [] ==> exists r :: r in rows && r.id == m
  {
    if rows == [] then 0
    else
      var rest := MaxId(rows[1..]);
      if rows[1..] == [] || rows[0].id >= rest then rows[0].id else rest
  }

  /** The first row of the table ordered by descending key (`order_by(id.desc()).first()`), None for an empty table. */
  function LatestById<T>(rows: seq<Row<T>>): (latest: Option<Row<T>>)
    ensures latest.None? <==> rows == []
    ensures latest.Some? ==> latest.value in rows && forall r :: r in rows ==> r.id <= latest.value.id
  {
    if rows == [] then None
    else match LatestById(rows[1..])
      case None => Some(rows[0])
      case Some(later) => if rows[0].id >= later.id then Some(rows[0]) else Some(later)
  }

  /** In a table whose keys increase, the latest row by key is the last row. */
  lemma LatestIsLast<T>(rows: seq<Row<T>>)
    requires Increasing(rows) && rows != []
    ensures LatestById(rows) == Some(rows[|rows| - 1])
  {
  }

  /** Appending a row keyed `MaxId + 1` keeps the keys increasing. */
  lemma AppendKeepsIncreasing<T>(rows: seq<Row<T>>, value: T)
    requires Increasing(rows)
    ensures Increasing(rows + [Row(MaxId(rows) + 1, value)])
  {
  }

  /** A table keyed 1, 2, ..., n in order has largest key n. */
  lemma MaxIdOfConsecutive<T>(rows: seq<Row<T>>)
    requires forall k :: 0 <= k < |rows| ==> rows[k].id == k + 1
    ensures MaxId(rows) == |rows|
    ensures Increasing(rows)
  {
    if rows != [] {
      assert rows[|rows| - 1] in rows;
    }
  }

  /** The row `create_meal_records` builds from a catalog entry; the integer energy goes into a float column. */
  function ToMeal(detail: MealDetail): (meal: Meal)
    ensures meal.name == detail.name && meal.instructions == detail.link
    ensures meal.kcal == detail.kcal as real && meal.kcal.Floor == detail.kcal
    ensures meal.mealType == detail.mealType
  {
    Meal(detail.name, detail.link, detail.kcal as real, detail.mealType)
  }

  /** `meals_details`, the catalog loaded into the `Meals` table at start-up. */
  const MealsDetails: seq<MealDetail> := [
    MealDetail("Scrambled Eggs", "https://www.bbcgoodfood.com/recipes/perfect-scrambled-eggs-recipe", 405, Breakfast),
    MealDetail("Avocado Toast", "https://cookieandkate.com/avocado-toast-recipe/", 330, Breakfast),
    MealDetail("English Breakfast", "https://iamafoodblog.com/a-breakdown-of-the-full-english-breakfast/", 780, Breakfast),
    MealDetail("Fried Chicken", "https://cooking.nytimes.com/guides/25-how-to-make-fried-chicken", 600, Dinner),
    MealDetail("Sphagetti Bolognese", "https://www.bbcgoodfood.com/recipes/best-spaghetti-bolognese-recipe", 550, Dinner),
    MealDetail("Sushi", "https://www.justonecookbook.com/ultimate-sushi-guide/", 400, Dinner),
    MealDetail("Curry", "https://www.google.com/url?sa=t&rct=j&q=&esrc=s&source=web&cd=&ved=2ahUKEwjqjMj3n4eEAxUpVPEDHYD1CDMQFnoECBgQAQ&url=https%3A%2F%2Fcurryculture.co.uk%2Ftypes-of-curry%2F&usg=AOvVaw0H8_y_U8V5lvOUE3uTnUa5&opi=89978449", 630, Dinner),
    MealDetail("Salmon salad", "https://www.wyseguide.com/roasted-vegetable-salmon-salad/", 340, Supper),
    MealDetail("Cereal", "https://www.allrecipes.com/recipe/44162/homemade-cereal/", 440, Supper),
    MealDetail("Prawn Soup", "https://en.wikipedia.org/wiki/Prawn_soup", 470, Supper)
  ]

  /**
   * The shape of `meals_details`: ten entries, three breakfasts, then four dinners, then
   * three suppers, every name different, every energy between 330 and 780 kcal.
   */
  lemma MealsDetailsShape()
    ensures |MealsDetails| == 10
    ensures forall i :: 0 <= i < 3 ==> MealsDetails[i].mealType == Breakfast
    ensures forall i :: 3 <= i < 7 ==> MealsDetails[i].mealType == Dinner
    ensures forall i :: 7 <= i < 10 ==> MealsDetails[i].mealType == Supper
    ensures forall i, j :: 0 <= i < j < |MealsDetails| ==> MealsDetails[i].name != MealsDetails[j].name
    ensures forall i :: 0 <= i < |MealsDetails| ==> 330 <= MealsDetails[i].kcal <= 780
  {
  }

  /** The `Meals` table that seeding an empty table with `details` produces: keys 1, 2, ... in catalog order. */
  function SeededRows(details: seq<MealDetail>): seq<Row<Meal>>
  {
    seq(|details|, i requires 0 <= i < |details| => Row(i + 1, ToMeal(details[i])))
  }

  /** A table holding row i + 1 for each catalog entry i, in order, is the seeded table. */
  lemma IsSeededRows(rows: seq<Row<Meal>>, details: seq<MealDetail>)
    requires |rows| == |details|
    requires forall k :: 0 <= k < |details| ==> rows[k] == Row(k + 1, ToMeal(details[k]))
    ensures rows == SeededRows(details)
  {
  }
}
