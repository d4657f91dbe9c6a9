/**
 * The meal selector of app.py: `get_meal_by_criteria` picks one `Meals` row of a meal type
 * within a third of the daily energy budget, and `get_meals_by_criteria` does so once per
 * meal type.
 *
 * The table is passed in as the rows the query reads. `random.choice` is given as an
 * injected draw `pick`: the chosen match is the one at position `pick` modulo the number of
 * matches, so every match can be chosen and nothing else can.
 */
module MealSelector {
  import opened Wrappers
  import opened Records

  /** The query's filter: energy at most a third of `maxKcal`, and the given meal type. */
  predicate Fits(row: Row<Meal>, maxKcal: real, mealType: MealType)
  {
    row.value.kcal <= maxKcal / 3.0 && row.value.mealType == mealType
  }

  /** The rows the query returns, in table order. */
  function Matching(table: seq<Row<Meal>>, maxKcal: real, mealType: MealType): (matches: seq<Row<Meal>>)
    ensures |matches| <= |table|
    ensures forall row :: row in matches <==> row in table && Fits(row, maxKcal, mealType)
  {
    if table == [] then []
    else
      var rest := Matching(table[1..], maxKcal, mealType);
      if Fits(table[0], maxKcal, mealType) then [table[0]] + rest else rest
  }

  /** `get_meal_by_criteria`: one matching row, or None when the query returns nothing. */
  function GetMealByCriteria(table: seq<Row<Meal>>, maxKcal: real, mealType: MealType, pick: nat): (meal: Option<Row<Meal>>)
    ensures meal.None? <==> forall row :: row in table ==> !Fits(row, maxKcal, mealType)
    ensures meal.Some? ==> meal.value in table && Fits(meal.value, maxKcal, mealType)
  {
    var matches := Matching(table, maxKcal, mealType);
    if |matches| > 0 then
      assert matches[0] in matches;
      Some(matches[pick % |matches|])
    else None
  }

  /** Every row that satisfies the filter is the result for some draw. */
  lemma EveryMatchSelectable(table: seq<Row<Meal>>, maxKcal: real, mealType: MealType, row: Row<Meal>)
    requires row in table && Fits(row, maxKcal, mealType)
    ensures exists pick: nat :: GetMealByCriteria(table, maxKcal, mealType, pick) == Some(row)
  {
    var matches := Matching(table, maxKcal, mealType);
    var k :| 0 <= k < |matches| && matches[k] == row;
    assert k % |matches| == k;
    assert GetMealByCriteria(table, maxKcal, mealType, k) == Some(row);
  }

  /**
   * `get_meals_by_criteria`: for each meal type in enumeration order, store the selector's
   * result under the type's value; `picks` gives the draw used for each type.
   */
  method GetMealsByCriteria(table: seq<Row<Meal>>, maxKcal: real, picks: MealType -> nat)
    returns (selected: map<string, Option<Row<Meal>>>)
    ensures selected.Keys == {"BREAKFAST", "DINNER", "SUPPER"}
    ensures forall t: MealType :: selected[t.Value()] == GetMealByCriteria(table, maxKcal, t, picks(t))
  {
    selected := map[];
    for i := 0 to |AllMealTypes|
      invariant selected.Keys == set k | 0 <= k < i :: AllMealTypes[k].Value()
      invariant forall k :: 0 <= k < i ==>
        selected[AllMealTypes[k].Value()] == GetMealByCriteria(table, maxKcal, AllMealTypes[k], picks(AllMealTypes[k]))
    {
      var mealType := AllMealTypes[i];
      var meal := GetMealByCriteria(table, maxKcal, mealType, picks(mealType));
      forall k | 0 <= k < i
        ensures AllMealTypes[k].Value() != mealType.Value()
      {
        ValueInjective(AllMealTypes[k], mealType);
      }
      selected := selected[mealType.Value() := meal];
    }
    assert AllMealTypes[0].Value() == "BREAKFAST" && AllMealTypes[0].Value() in selected;
    assert AllMealTypes[1].Value() == "DINNER" && AllMealTypes[1].Value() in selected;
    assert AllMealTypes[2].Value() == "SUPPER" && AllMealTypes[2].Value() in selected;
    forall t: MealType
      ensures selected[t.Value()] == GetMealByCriteria(table, maxKcal, t, picks(t))
    {
      var k := match t case Breakfast => 0 case Dinner => 1 case Supper => 2;
      assert AllMealTypes[k] == t;
    }
  }

  /** Each slot of a plan is empty exactly when the table has no meal of that type within a third of the budget. */
  lemma PlanSlotEmptyIff(table: seq<Row<Meal>>, maxKcal: real, picks: MealType -> nat,
                         selected: map<string, Option<Row<Meal>>>, t: MealType)
    requires selected.Keys == {"BREAKFAST", "DINNER", "SUPPER"}
    requires forall u: MealType :: selected[u.Value()] == GetMealByCriteria(table, maxKcal, u, picks(u))
    ensures selected[t.Value()].None? <==> forall row :: row in table ==> !Fits(row, maxKcal, t)
    ensures selected[t.Value()].Some? ==> selected[t.Value()].value in table &&
                                           selected[t.Value()].value.value.kcal <= maxKcal / 3.0
  {
  }

  /** Two different slots never hold the same row, since each holds a row of its own type. */
  lemma PlanSlotsDistinct(table: seq<Row<Meal>>, maxKcal: real, t: MealType, u: MealType, pt: nat, pu: nat)
    requires t != u
    ensures GetMealByCriteria(table, maxKcal, t, pt).Some? && GetMealByCriteria(table, maxKcal, u, pu).Some? ==>
            GetMealByCriteria(table, maxKcal, t, pt).value != GetMealByCriteria(table, maxKcal, u, pu).value
  {
  }

  /** The cheapest meal of a type in the seeded catalog. */
  function CheapestSeeded(t: MealType): (kcal: real)
  {
    match t
    case Breakfast => 330.0
    case Dinner => 400.0
    case Supper => 340.0
  }

  /** With the seeded catalog, a type's slot is filled exactly when a third of the budget covers its cheapest meal. */
  lemma {:induction false} SeededSlotFilledIff(maxKcal: real, t: MealType, pick: nat)
    ensures GetMealByCriteria(SeededRows(MealsDetails), maxKcal, t, pick).Some? <==> CheapestSeeded(t) <= maxKcal / 3.0
  {
    var rows := SeededRows(MealsDetails);
    var cheapest := match t
      case Breakfast => rows[1]
      case Dinner => rows[5]
      case Supper => rows[7];
    assert cheapest.value.kcal == CheapestSeeded(t) && cheapest.value.mealType == t;
    assert cheapest in rows;
    forall row | row in rows && row.value.mealType == t
      ensures CheapestSeeded(t) <= row.value.kcal
    {
      var k :| 0 <= k < |rows| && rows[k] == row;
      assert rows[k].value == ToMeal(MealsDetails[k]);
    }
  }

  /** With the seeded catalog, all three slots are filled exactly when the budget is at least 1200 kcal. */
  lemma SeededPlanComplete(maxKcal: real, picks: MealType -> nat)
    ensures (forall t: MealType :: GetMealByCriteria(SeededRows(MealsDetails), maxKcal, t, picks(t)).Some?) <==> maxKcal >= 1200.0
  {
    SeededSlotFilledIff(maxKcal, Breakfast, picks(Breakfast));
    SeededSlotFilledIff(maxKcal, Dinner, picks(Dinner));
    SeededSlotFilledIff(maxKcal, Supper, picks(Supper));
  }
}
