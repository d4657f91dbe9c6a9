/**
 * The two tables of app.py's SQLite database, `User_data` and `Meals`, held in memory, and
 * the operations the application performs on them: `clear_user_data`, the insert in
 * `index`, the latest-profile read in `result_bmi`, and `create_meal_records`.
 */
module Store {
  import opened Wrappers
  import opened Records

  class Database {
    /** The `User_data` table, in insertion order. */
    var users: seq<Row<UserProfile>>
    /** The `Meals` table, in insertion order. */
    var meals: seq<Row<Meal>>

    /** Every row was keyed one above the largest key present, so keys increase along each table. */
    ghost predicate Valid()
      reads this
    {
      Increasing(users) && Increasing(meals)
    }

    /** A new in-memory store whose two tables hold no rows. */
    constructor ()
      ensures Valid()
      ensures users == [] && meals == []
    {
      users := [];
      meals := [];
    }

    /** The profile `result_bmi` reads: the user row with the largest key, None for an empty table. */
    function LatestUser(): (profile: Option<UserProfile>)
      reads this
      ensures profile.None? <==> users == []
      ensures profile.Some? ==> exists r :: r in users && r.value == profile.value &&
                                           forall s :: s in users ==> s.id <= r.id
    {
      match LatestById(users)
      case None => None
      case Some(row) => Some(row.value)
    }

    /** `clear_user_data`: delete every `User_data` row; the meals are untouched. */
    method ClearUserData()
      requires Valid()
      modifies this
      ensures Valid()
      ensures users == [] && meals == old(meals)
      ensures LatestUser() == None
    {
      users := [];
    }

    /** `db.session.add` of a profile: the new row is keyed one above the largest key and becomes the latest. */
    method AddUser(profile: UserProfile) returns (id: int)
      requires Valid()
      modifies this
      ensures Valid()
      ensures id == MaxId(old(users)) + 1
      ensures users == old(users) + [Row(id, profile)] && meals == old(meals)
      ensures LatestUser() == Some(profile)
    {
      id := MaxId(users) + 1;
      AppendKeepsIncreasing(users, profile);
      users := users + [Row(id, profile)];
      LatestIsLast(users);
    }

    /**
     * `index`: every request first clears the profiles; a submitted form (a POST, given
     * here as Some) is then stored as the only profile, under key 1, and is what the
     * following `result_bmi` reads.
     */
    method Index(submission: Option<UserProfile>)
      requires Valid()
      modifies this
      ensures Valid()
      ensures meals == old(meals)
      ensures users == if submission.Some? then [Row(1, submission.value)] else []
      ensures LatestUser() == submission
    {
      ClearUserData();
      if submission.Some? {
        var _ := AddUser(submission.value);
      }
    }

    /**
     * `create_meal_records`: delete every `Meals` row, then add the catalog entries one by
     * one, in order, copying name, link, energy and type. The session commits after each
     * added row, so the delete becomes permanent together with the first one; with an empty
     * catalog nothing is committed and the stored meals stay as they were.
     */
    method CreateMealRecords(details: seq<MealDetail>)
      requires Valid()
      modifies this
      ensures Valid()
      ensures users == old(users)
      ensures details == [] ==> meals == old(meals)
      ensures details != [] ==> |meals| == |details|
      ensures details != [] ==> forall i :: 0 <= i < |details| ==> meals[i] == Row(i + 1, ToMeal(details[i]))
      ensures details != [] ==> meals == SeededRows(details)
    {
      // The session's view of the table once the delete has run.
      var table: seq<Row<Meal>> := [];
      for i := 0 to |details|
        invariant users == old(users)
        invariant |table| == i
        invariant forall k :: 0 <= k < i ==> table[k] == Row(k + 1, ToMeal(details[k]))
        invariant i == 0 ==> meals == old(meals)
        invariant i > 0 ==> meals == table
        invariant Increasing(old(meals)) && Increasing(users)
      {
        MaxIdOfConsecutive(table);
        var id := MaxId(table) + 1;
        table := table + [Row(id, ToMeal(details[i]))];
        meals := table;
      }
      if details != [] {
        MaxIdOfConsecutive(table);
        IsSeededRows(table, details);
      }
    }
  }
}
