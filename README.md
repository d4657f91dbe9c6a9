# BMI calculator core, modelled in Dafny

This project models the logic of a small Flask BMI calculator (`app.py`) and its browser-side form check (`static/script.js`):

- the **metric calculator**: gender and activity labels, body-mass index (BMI) rounded to one decimal, the BMI class, the Mifflin–St Jeor calorie estimate and the Katch–McArdle (body-fat) calorie estimate;
- the **record store**: the `User_data` and `Meals` tables of the SQLite database, held in memory in the class `Store.Database`. It covers clearing the profiles, storing one profile per submission, reading the latest profile by key, and re-seeding the meal catalog;
- the **meal selector**: one random meal of a type within a third of the daily budget, and a three-slot plan (breakfast, dinner, supper);
- **`validateForm`**: the check that age, weight and height are filled in, and the alert that lists the empty ones.

Files:

- `wrappers.dfy`: `Option`, standing for Python's `None` result.
- `metrics.dfy` (module `Metrics`): the metric calculator.
- `records.dfy` (module `Records`): `MealType`, the row types, the `meals_details` catalog, and key and "latest row" helpers.
- `store.dfy` (module `Store`): the database class.
- `meal_selector.dfy` (module `MealSelector`): the selector.
- `form_validation.dfy` (module `FormValidation`): `validateForm`.

Modelling choices:

- **Numbers.** Python floats are exact `real`s. Python's `round(x)` and `round(x, 1)` round the exact value of their argument half-to-even. `RoundHalfEven` and `RoundTenth` state that in their contracts: nearest integer or tenth, with a tie going to the even neighbour. `RoundHalfEvenUnique` and `RoundTenthUnique` show that these contracts determine the result. `CalculateBmi` and `CaloriesBodyFat` carry the same tie rule.
- **Zero height.** A height of 0 makes `calculate_bmi` raise `ZeroDivisionError`. `CalculateBmi` returns `None` for that case.
- **`classify_bmi`.** The source builds a dictionary whose keys are four boolean range tests, then looks up `True`. When two tests have the same value, the later entry replaces the earlier one. `ClassifyBmi` builds that map with successive updates in the same order. Its contract shows:
  - the ranges are disjoint;
  - the result is "Unknown" exactly when 29.99 < bmi < 30.

  `CalculatedBmiIsClassified` proves this gap is never reached by a value from `calculate_bmi`, because that value has one decimal.
- **Row keys.** SQLite gives a new row of an `INTEGER PRIMARY KEY` table the largest key present plus one, or 1 in an empty table. A new key is therefore `MaxId(rows) + 1`, not a counter that survives deletions. After `index` clears the table, the new profile always gets key 1.
- **`random.choice`.** It becomes an injected draw `pick: nat`; the chosen match is the one at position `pick` modulo the number of matches. `EveryMatchSelectable` shows that every match can be chosen. The contract of `GetMealByCriteria` shows that nothing else can.
- **Reading the meal table.** The selector takes the table's rows as a parameter: the rows the query reads.
- **Body-fat rounding.** `calculate_calories_bfat` rounds once, after multiplying the basal rate by the activity factor.
- **Selector filter.** `get_meal_by_criteria` filters only on `kcal <= max_kcal / 3` and on the meal type.
- **Seeding commits.** `create_meal_records` commits inside its loop, after each added row. The delete of the old rows therefore becomes permanent together with the first new row. With an empty catalog nothing is committed, and `CreateMealRecords` leaves the meal table as it was.

## Model

| member | source | states |
|---|---|---|
| Metrics.GenderLabel | app.py:94-97 | "Male" exactly for code 1, "Female" exactly for code 2, "Unknown" for every other code |
| Metrics.ActivityLabel | app.py:99-108 | each of the five factors 1.2, 1.375, 1.55, 1.725, 1.9 gets its own label, and "Unknown" is returned exactly for values outside that set |
| Metrics.RoundHalfEven | app.py:140-141 | `int(round(x, 0))` is an integer within 1/2 of x, and on a tie it is the even one |
| Metrics.RoundHalfEvenUnique | app.py:140-141 | those two properties determine the rounded integer uniquely |
| Metrics.RoundHalfEvenMonotone | app.py:140-141 | rounding preserves order: x <= y implies round(x) <= round(y) |
| Metrics.RoundTenth | app.py:112 | `round(x, 1)` is within 0.05 of x, has exactly one decimal, and on a tie (exactly 0.05 away) is the tenth with an even last digit |
| Metrics.RoundTenthUnique | app.py:112 | those three properties determine the rounded tenth uniquely, so a half-up rounding would not satisfy them |
| Metrics.BmiUnroundedMeaning | app.py:111 | the unrounded BMI times height² (cm) is weight·10⁴; times height² in metres it is the weight; it is positive for a positive weight |
| Metrics.CalculateBmi | app.py:110-113 | None exactly when height is 0 (ZeroDivisionError); otherwise within 0.05 of weight·10⁴/height², with one decimal, a tie going to the even last digit |
| Metrics.ClassifyBmi | app.py:115-123 | each label holds exactly on its range; "Unknown" exactly when 29.99 < bmi < 30 |
| Metrics.ClassifyBmiUniqueRange | app.py:117-123 | the four range tests are pairwise disjoint; the result is the label of the test that holds, "Unknown" when none does |
| Metrics.OneDecimalIsClassified | app.py:115-123 | a value with one decimal never gets "Unknown" |
| Metrics.CalculatedBmiIsClassified | app.py:110-123 | every BMI `calculate_bmi` returns is classified into one of the four labels |
| Metrics.Calories | app.py:125-134 | (10·weight + 6.25·height − 5·age + n)·activity, with n = 5 for gender 1, −161 for gender 2 and 0 for every other code |
| Metrics.CaloriesGenderGap | app.py:125-134 | for equal inputs, male minus female is 166·activity; an unknown code (offset 0) lies 5·activity below male and 161·activity above female |
| Metrics.CaloriesMonotone | app.py:132-133 | with positive activity, the estimate does not decrease with weight or height and does not increase with age |
| Metrics.CaloriesBodyFat | app.py:136-142 | the result is an integer within 1/2 of (370 + 21.6·(1 − bfat/100)·weight)·activity, and the even one on a tie |
| Metrics.CaloriesBodyFatAntitone | app.py:138-141 | with positive weight and activity, more body fat never gives a higher estimate |
| Metrics.WorkedExamples | app.py:110-142 | BMI(70 kg, 175 cm) = 22.9, "Normal Weight"; standard estimate for a 30-year-old man at activity 1 is 1648.75; body-fat estimate at 20% is 1580 |
| Records.ValueInjective | app.py:13-16 | the three `MealType` members have distinct values |
| Records.MaxId | app.py:213 | the largest primary key in a table (0 when empty) bounds every key and belongs to a row |
| Records.LatestById | app.py:57 | `order_by(id.desc()).first()` is None exactly on an empty table, else a row of the table whose key is the largest |
| Records.LatestIsLast | app.py:42-43 | in a table whose rows were added with increasing keys, the latest row by key is the last one added |
| Records.AppendKeepsIncreasing | app.py:42-43 | adding a row keyed one above the largest key keeps the keys increasing |
| Records.ToMeal | app.py:195-204 | a catalog entry becomes a `Meals` row with the same name, the link as instructions, the same meal type, and the integer energy as an exactly equal float |
| Records.MealsDetailsShape | app.py:174-184 | `meals_details` has ten entries: three breakfasts, four dinners, three suppers, in that order; every name differs; every energy is between 330 and 780 kcal |
| Records.MaxIdOfConsecutive | app.py:194-206 | a table keyed 1..n in order has largest key n |
| Store.Database.constructor | app.py:10-11 | a new in-memory store whose two tables hold no rows |
| Store.Database.LatestUser | app.py:57 | the profile read by `result_bmi` is None exactly when the table is empty, else the profile of the row with the largest key |
| Store.Database.ClearUserData | app.py:88-92 | the user table becomes empty, the meals are unchanged, and the latest profile is None |
| Store.Database.AddUser | app.py:32-43 | the profile is appended under key max+1, nothing else changes, and it becomes the latest profile |
| Store.Database.Index | app.py:18-51 | every request clears the profiles; after a submission the table is exactly that profile under key 1 and `result_bmi` reads it; after a GET the table is empty |
| Store.Database.CreateMealRecords | app.py:188-206 | for a non-empty catalog the meal table afterwards is exactly the catalog entries in order, keyed 1..n, with name, link, energy and type copied, and no earlier row is left; for an empty catalog the delete is never committed and the table is unchanged; users unchanged |
| MealSelector.Matching | app.py:159-162 | the query returns exactly the rows of the table with kcal <= max_kcal/3 and the given type |
| MealSelector.GetMealByCriteria | app.py:154-171 | None exactly when no row of the table fits the filter; otherwise a row of the table that fits it |
| MealSelector.EveryMatchSelectable | app.py:165-166 | every fitting row is the result for some random draw |
| MealSelector.GetMealsByCriteria | app.py:144-152 | the result has exactly the keys "BREAKFAST", "DINNER", "SUPPER"; each holds the selector's result for that type, with the same max_kcal |
| MealSelector.PlanSlotEmptyIff | app.py:144-171 | a plan slot is None exactly when no meal of its type fits a third of the budget; a filled slot is a table row within that third |
| MealSelector.PlanSlotsDistinct | app.py:144-152 | two different slots never hold the same row |
| MealSelector.SeededSlotFilledIff | app.py:174-184 | with the seeded catalog, a type's slot is filled exactly when a third of the budget covers its cheapest meal (330, 400, 340 kcal) |
| MealSelector.SeededPlanComplete | app.py:174-184 | with the seeded catalog, all three slots are filled exactly when max_kcal >= 1200 |
| FormValidation.ValidateForm | static/script.js:1-22 | true exactly when age, weight and height are all non-empty. `emptyFields` holds exactly the empty fields' names, once each, at most 3, in the order Age, Weight, Height. When false, the list is non-empty and the alert is the prompt followed by the names joined with "\n". Splitting the alert after the prompt gives the list back |
| FormValidation.Join | static/script.js:17 | `emptyFields.join("\n")`: the empty string for no elements, the element itself for one, and at least the first element plus a separator for two or more |
| FormValidation.JoinEnds | static/script.js:17 | the joined text starts with the first element and ends with the last |
| FormValidation.SplitJoin | static/script.js:17 | joining names that contain no separator with a one-character separator, then splitting, gives the names back |
| FormValidation.AlertLinesAreEmptyFields | static/script.js:8-17 | the lines of the alert after the prompt are exactly the empty fields' names |

## Left out

- HTTP routing, templates, redirects, `request.form` parsing and `app.run` are not modelled. This includes turning form strings into numbers and `meals_route`. They are I/O glue; the model takes already-parsed values.
- The choice in the `result_bmi.html` template between `calculate_calories` and `calculate_calories_bfat` is not modelled, because that template is not part of this model.
- SQLAlchemy sessions, column declarations and the `try`/`except` blocks that print errors are not modelled. The store is an in-memory pair of sequences, and every insert succeeds. A failing commit is library behaviour. For a single request, commits change the result only in `CreateMealRecords`, and that is the only place they are modelled.
- Requests are modelled one at a time, and `Index` treats the clear and the insert as one step. `app.run` serves requests on threads, and `index` commits the delete and the insert separately. So a concurrent `result_bmi` can read None between the two commits, and overlapping submissions can leave two profiles, both of which readers then see as the one with the larger key.
- Persistence in `site.db` across runs of the program is not modelled, and neither is `db.create_all`, which only creates missing tables. A new `Store.Database` starts with empty tables. Meals left from an earlier run do not matter, because start-up seeds the catalog before serving requests. Profiles left from an earlier run stay visible until the first `index` request: a `result_bmi` request before it reads the earlier run's last profile. In the model, a new `Store.Database` gives None there.
- Float arithmetic is not modelled: rounding error of `/`, `*` and `pow`, underflow, infinities and NaN. All arithmetic is exact. Comparisons with 18.5, 24.99, 29.99 and 30 are on exact decimals.
- `GetMealsByCriteria` returns a Dafny `map`, which has no order. The insertion order of Python's `selected_meals` dictionary (BREAKFAST, DINNER, SUPPER) is not represented.
- `random.choice` is an injected draw, so the uniform distribution is not modelled.
- `get_meal_by_criteria` takes a `MealType`, not the member's string value. The only caller passes `meal_type.value`, one of the three enumeration values. A string outside the enumeration would, with the enum column's default settings, be compared unchanged, match no row, and give None. The model cannot express such a string.
- DOM reads and the `alert` call in `validateForm` are left out. The three field values are parameters, and the alert text is returned.
- The recipe links in `meals_details` are copied as opaque strings; nothing is proved about them.
