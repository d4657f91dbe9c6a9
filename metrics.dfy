/**
 * The metric calculator of app.py: gender and activity labels, body-mass index and its
 * classification, and the two daily-calorie estimates.
 *
 * Python floats are modelled as exact reals. Python's `round` on a float rounds the exact
 * value half-to-even; `RoundHalfEven` states that on reals.
 */
module Metrics {
  import opened Wrappers

  /** The label `get_gender_label` gives for a gender code; every other code is "Unknown". */
  function GenderLabel(gender: int): (tag: string)
    ensures tag == "Male" <==> gender == 1
    ensures tag == "Female" <==> gender == 2
    ensures tag == "Unknown" <==> gender != 1 && gender != 2
  {
    var mapping := map[1 := "Male", 2 := "Female"];
    if gender in mapping then mapping[gender] else "Unknown"
  }

  /** The five activity factors the application knows. */
  const ActivityFactors: set<real> := {1.2, 1.375, 1.55, 1.725, 1.9}

  /** The label `get_activity_label` gives for an activity factor. */
  function ActivityLabel(activity: real): (tag: string)
    ensures tag != "Unknown" <==> activity in ActivityFactors
    ensures tag == "Sedentary" <==> activity == 1.2
    ensures tag == "Light Exercise" <==> activity == 1.375
    ensures tag == "Moderate Exercise" <==> activity == 1.55
    ensures tag == "Heavy Exercise" <==> activity == 1.725
    ensures tag == "Athlete" <==> activity == 1.9
  {
    var mapping := map[
      1.2 := "Sedentary",
      1.375 := "Light Exercise",
      1.55 := "Moderate Exercise",
      1.725 := "Heavy Exercise",
      1.9 := "Athlete"];
    if activity in mapping then mapping[activity] else "Unknown"
  }

  /** Python's `round(x)`: the nearest integer, ties going to the even one. */
  function RoundHalfEven(x: real): (r: int)
    ensures x - 0.5 <= r as real <= x + 0.5
    ensures r as real - x == 0.5 || x - r as real == 0.5 ==> r % 2 == 0
  {
    var f := x.Floor;
    var d := x - f as real;
    if d < 0.5 then f
    else if d > 0.5 then f + 1
    else if f % 2 == 0 then f
    else f + 1
  }

  /** The two postconditions of RoundHalfEven single out one integer. */
  lemma RoundHalfEvenUnique(x: real, k: int)
    requires x - 0.5 <= k as real <= x + 0.5
    requires k as real - x == 0.5 || x - k as real == 0.5 ==> k % 2 == 0
    ensures k == RoundHalfEven(x)
  {
  }

  /** Rounding never reverses the order of two values. */
  lemma RoundHalfEvenMonotone(x: real, y: real)
    requires x <= y
    ensures RoundHalfEven(x) <= RoundHalfEven(y)
  {
  }

  /** Python's `round(x, 1)` on the exact value: the nearest tenth, ties to an even tenth. */
  function RoundTenth(x: real): (r: real)
    ensures x - 0.05 <= r <= x + 0.05
    ensures (r * 10.0).Floor as real == r * 10.0
    ensures r - x == 0.05 || x - r == 0.05 ==> (r * 10.0).Floor % 2 == 0
  {
    var k := RoundHalfEven(x * 10.0);
    assert (k as real / 10.0) * 10.0 == k as real;
    k as real / 10.0
  }

  /** The three postconditions of RoundTenth single out one tenth. */
  lemma RoundTenthUnique(x: real, r: real)
    requires x - 0.05 <= r <= x + 0.05
    requires (r * 10.0).Floor as real == r * 10.0
    requires r - x == 0.05 || x - r == 0.05 ==> (r * 10.0).Floor % 2 == 0
    ensures r == RoundTenth(x)
  {
    var k := (r * 10.0).Floor;
    RoundHalfEvenUnique(x * 10.0, k);
  }

  /** Body-mass index before rounding: weight in kilograms over the squared height in centimetres, times 10^4. */
  function BmiUnrounded(weight: real, height: real): real
    requires height != 0.0
  {
    (weight / (height * height)) * 10000.0
  }

  /** The unrounded index times the squared height gives back the weight, for the height in
      centimetres (scaled by 10^4) and in metres; it is positive for a positive weight. */
  lemma BmiUnroundedMeaning(weight: real, height: real)
    requires height != 0.0
    ensures BmiUnrounded(weight, height) * (height * height) == weight * 10000.0
    ensures weight > 0.0 ==> BmiUnrounded(weight, height) > 0.0
    ensures BmiUnrounded(weight, height) * ((height / 100.0) * (height / 100.0)) == weight
  {
  }

  /**
   * `calculate_bmi`: the index rounded to one decimal. A height of zero makes Python raise
   * ZeroDivisionError, which is None here.
   */
  function CalculateBmi(weight: real, height: real): (bmi: Option<real>)
    ensures bmi.None? <==> height == 0.0
    ensures bmi.Some? ==> BmiUnrounded(weight, height) - 0.05 <= bmi.value <= BmiUnrounded(weight, height) + 0.05
    ensures bmi.Some? ==> (bmi.value * 10.0).Floor as real == bmi.value * 10.0
    ensures bmi.Some? && (bmi.value - BmiUnrounded(weight, height) == 0.05 || BmiUnrounded(weight, height) - bmi.value == 0.05)
            ==> (bmi.value * 10.0).Floor % 2 == 0
  {
    if height == 0.0 then None else Some(RoundTenth(BmiUnrounded(weight, height)))
  }

  /** The four ranges `classify_bmi` uses as the keys of its dictionary, in source order. */
  function BmiRanges(bmi: real): seq<bool>
  {
    [bmi <= 18.5, 18.5 < bmi <= 24.99, 24.99 < bmi <= 29.99, bmi >= 30.0]
  }

  const BmiLabels: seq<string> := ["Underweight", "Normal Weight", "Overweight", "Obese"]

  /**
   * `classify_bmi` builds a dictionary whose keys are the four range predicates: a later
   * entry with an equal key replaces an earlier one, and the label under True is returned,
   * "Unknown" if no predicate holds.
   */
  function ClassifyBmi(bmi: real): (tag: string)
    ensures tag == "Underweight" <==> bmi <= 18.5
    ensures tag == "Normal Weight" <==> 18.5 < bmi <= 24.99
    ensures tag == "Overweight" <==> 24.99 < bmi <= 29.99
    ensures tag == "Obese" <==> bmi >= 30.0
    ensures tag == "Unknown" <==> 29.99 < bmi < 30.0
  {
    var ranges := BmiRanges(bmi);
    var mapping := map[][ranges[0] := BmiLabels[0]][ranges[1] := BmiLabels[1]]
                        [ranges[2] := BmiLabels[2]][ranges[3] := BmiLabels[3]];
    if true in mapping then mapping[true] else "Unknown"
  }

  /** At most one range holds, and the label is that of the range that holds. */
  lemma ClassifyBmiUniqueRange(bmi: real)
    ensures forall i, j :: 0 <= i < j < 4 ==> !(BmiRanges(bmi)[i] && BmiRanges(bmi)[j])
    ensures forall i :: 0 <= i < 4 && BmiRanges(bmi)[i] ==> ClassifyBmi(bmi) == BmiLabels[i]
    ensures (forall i :: 0 <= i < 4 ==> !BmiRanges(bmi)[i]) <==> ClassifyBmi(bmi) == "Unknown"
  {
  }

  /** A value with one decimal, as `calculate_bmi` returns, never falls into the "Unknown" gap. */
  lemma OneDecimalIsClassified(bmi: real)
    requires (bmi * 10.0).Floor as real == bmi * 10.0
    ensures ClassifyBmi(bmi) != "Unknown"
  {
  }

  /** Every index `calculate_bmi` produces gets one of the four labels. */
  lemma CalculatedBmiIsClassified(weight: real, height: real)
    requires height != 0.0
    ensures ClassifyBmi(CalculateBmi(weight, height).value) != "Unknown"
  {
  }

  /** The gender term of the Mifflin-St Jeor formula in `calculate_calories`. */
  function GenderOffset(gender: int): real
  {
    if gender == 1 then 5.0 else if gender == 2 then -161.0 else 0.0
  }

  /** `calculate_calories`: the Mifflin-St Jeor basal rate times the activity factor. */
  function Calories(weight: real, height: real, age: int, gender: int, activity: real): (kcal: real)
    ensures gender == 1 ==> kcal == (10.0 * weight + 6.25 * height - 5.0 * age as real + 5.0) * activity
    ensures gender == 2 ==> kcal == (10.0 * weight + 6.25 * height - 5.0 * age as real - 161.0) * activity
    ensures gender != 1 && gender != 2 ==> kcal == (10.0 * weight + 6.25 * height - 5.0 * age as real) * activity
  {
    (10.0 * weight + 6.25 * height - 5.0 * age as real + GenderOffset(gender)) * activity
  }

  /** For equal body data, a man's estimate exceeds a woman's by 166 times the activity factor,
      and an unknown gender code lies between the two. */
  lemma CaloriesGenderGap(weight: real, height: real, age: int, activity: real, other: int)
    requires other != 1 && other != 2
    ensures Calories(weight, height, age, 1, activity) - Calories(weight, height, age, 2, activity) == 166.0 * activity
    ensures Calories(weight, height, age, 1, activity) - Calories(weight, height, age, other, activity) == 5.0 * activity
    ensures Calories(weight, height, age, other, activity) - Calories(weight, height, age, 2, activity) == 161.0 * activity
  {
  }

  /** With a positive activity factor the estimate grows with weight and height and falls with age. */
  lemma CaloriesMonotone(w1: real, w2: real, h1: real, h2: real, a1: int, a2: int, gender: int, activity: real)
    requires activity > 0.0
    requires w1 <= w2 && h1 <= h2 && a1 >= a2
    ensures Calories(w1, h1, a1, gender, activity) <= Calories(w2, h2, a2, gender, activity)
  {
  }

  /** The body-fat formula of `calculate_calories_bfat` (Katch-McArdle rate times activity), before rounding. */
  function CaloriesBodyFatUnrounded(weight: real, bfat: real, activity: real): real
  {
    (370.0 + 21.6 * (1.0 - bfat / 100.0) * weight) * activity
  }

  /** `calculate_calories_bfat`: the estimate rounded half-to-even and converted to an integer. */
  function CaloriesBodyFat(weight: real, bfat: real, activity: real): (kcal: int)
    ensures CaloriesBodyFatUnrounded(weight, bfat, activity) - 0.5 <= kcal as real <= CaloriesBodyFatUnrounded(weight, bfat, activity) + 0.5
    ensures (kcal as real - CaloriesBodyFatUnrounded(weight, bfat, activity) == 0.5 ||
             CaloriesBodyFatUnrounded(weight, bfat, activity) - kcal as real == 0.5) ==> kcal % 2 == 0
  {
    RoundHalfEven(CaloriesBodyFatUnrounded(weight, bfat, activity))
  }

  /** For a positive weight and activity factor, more body fat never raises the estimate. */
  lemma CaloriesBodyFatAntitone(weight: real, f1: real, f2: real, activity: real)
    requires weight > 0.0 && activity > 0.0 && f1 <= f2
    ensures CaloriesBodyFat(weight, f2, activity) <= CaloriesBodyFat(weight, f1, activity)
  {
    var d := (21.6 * ((f2 - f1) / 100.0) * weight) * activity;
    assert d >= 0.0;
    assert CaloriesBodyFatUnrounded(weight, f1, activity) - CaloriesBodyFatUnrounded(weight, f2, activity) == d;
    RoundHalfEvenMonotone(CaloriesBodyFatUnrounded(weight, f2, activity), CaloriesBodyFatUnrounded(weight, f1, activity));
  }

  /** Worked values: 70 kg at 175 cm has index 22.9; a 30-year-old man of that build needs
      1648.75 kcal at rest; at 20% body fat the body-fat formula gives 1580. */
  lemma WorkedExamples()
    ensures CalculateBmi(70.0, 175.0) == Some(22.9)
    ensures ClassifyBmi(22.9) == "Normal Weight"
    ensures Calories(70.0, 175.0, 30, 1, 1.0) == 1648.75
    ensures CaloriesBodyFat(70.0, 20.0, 1.0) == 1580
  {
  }
}
