/**
 * Concrete requests from the repository's test suite and interface
 * description, each with the response the model gives it.
 */
module Scenarios {
  import opened Wrappers
  import opened Text
  import opened Calories

  /** A 25-year-old, 70 kg, 175 cm person with the given gender, level and goal. */
  function SampleRequest(gender: string, level: Option<string>, goal: Option<string>): Request
  {
    Request(Some(gender), Some(70.0), Some(175.0), Some(25.0), level, goal)
  }

  /** The valid sample: BMR 1724.052, scaled by 1.55, goal "Maintain weight" (only the first word capitalised). */
  lemma ValidRequestScenario()
    ensures CalculateCalories(SampleRequest("male", Some("moderately active"), Some("maintain weight")))
         == Ok(1724.052, 2672.2806, "Maintain weight", "Moderately active")
  {
    LowerOfAllLower("male");
    LowerOfAllLower("moderately active");
    LowerOfAllLower("maintain weight");
    CapitalizeIs("maintain weight", "Maintain weight");
    CapitalizeIs("moderately active", "Moderately active");
  }

  /** Upper-case input validates like its lower-case form; the goal lowers the estimate by 500. */
  lemma MixedCaseScenario()
    ensures CalculateCalories(SampleRequest("MALE", Some("Moderately Active"), Some("LOSE WEIGHT")))
         == Ok(1724.052, 2172.2806, "Lose weight", "Moderately active")
  {
    LowerIs("MALE", "male");
    LowerIs("Moderately Active", "moderately active");
    LowerIs("LOSE WEIGHT", "lose weight");
    CapitalizeIs("LOSE WEIGHT", "Lose weight");
    CapitalizeIs("Moderately Active", "Moderately active");
  }

  /** Omitting the goal is reported as missing data. */
  lemma MissingGoalScenario()
    ensures CalculateCalories(SampleRequest("male", Some("moderately active"), None)) == Err(MissingData)
  {
    LowerOfAllLower("moderately active");
  }

  /** An unknown gender is reported as such. */
  lemma UnknownGenderScenario()
    ensures CalculateCalories(SampleRequest("unknown", Some("moderately active"), Some("maintain weight")))
         == Err(InvalidGender)
  {
    LowerOfAllLower("unknown");
    LowerOfAllLower("moderately active");
  }

  /** "extremely active" and the documented "extra active" are both rejected as activity levels. */
  lemma UnknownActivityScenario()
    ensures CalculateCalories(SampleRequest("male", Some("extremely active"), Some("maintain weight")))
         == Err(InvalidActivityLevel)
    ensures CalculateCalories(SampleRequest("male", Some("extra active"), Some("maintain weight")))
         == Err(InvalidActivityLevel)
  {
  }

  /** An unknown goal is reported only after the other checks pass. */
  lemma UnknownGoalScenario()
    ensures CalculateCalories(SampleRequest("male", Some("moderately active"), Some("bulk up")))
         == Err(InvalidGoal)
  {
    LowerOfAllLower("male");
    LowerOfAllLower("moderately active");
    LowerOfAllLower("bulk up");
  }

  /** A missing activity level raises, even when every other field is present. */
  lemma MissingActivityScenario()
    ensures CalculateCalories(SampleRequest("male", None, Some("maintain weight"))) == Crash
  {
  }

  /** The goal adjustment on 2500 kcal: 2000, 3000, and unchanged for any other goal. */
  lemma AdjustForGoalScenarios()
    ensures AdjustForGoal(2500.0, "lose weight") == 2000.0
    ensures AdjustForGoal(2500.0, "gain weight") == 3000.0
    ensures AdjustForGoal(2500.0, "maintain weight") == 2500.0
    ensures AdjustForGoal(2500.0, "invalid goal") == 2500.0
  {
  }
}
