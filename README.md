# Calorie estimator — a Dafny model

This project models the calorie estimator of the `calorie-intake-api`
service: the handler behind `POST /calculate-calories` in `app.py`, which
validates a JSON profile (gender, weight, height, age, activity level, goal),
computes a Harris-Benedict basal metabolic rate (BMR), scales it by an
activity multiplier, adjusts it for a weight goal and echoes the goal and
activity level back capitalised.

The model is pure, as the source is:

- `wrappers.dfy` — `Option`, the model of a field that `dict.get` returns as `None`.
- `text.dfy` — ASCII models of `str.lower()` (`Text.Lower`) and `str.capitalize()`
  (`Text.Capitalize`) and the laws relating them.
- `calories.dfy` — the activity-multiplier table, the two BMR formulas,
  `adjust_for_goal` (`Calories.AdjustForGoal`) and the handler
  (`Calories.CalculateCalories`) as a function from a `Request` record of
  optional fields to a `Response`: `Ok(bmr, calories, goalOut, activityOut)`,
  `Err(kind)` with one of the four validation failures, or `Crash`.
  Beside it, predicates stating each check on its own (`KnownActivity`,
  `Complete`, `KnownGender`, `KnownGoal`, `Accepted`) and lemmas tying the
  handler's outcome to them.
- `scenarios.dfy` — the requests of the repository's test suite, each with
  the response the model gives it.

Points where the model follows the code rather than the service's written description:

- The echoed `goal` and `activityLevel` use `str.capitalize()`: only the first
  character is upper-cased and the rest lower-cased, so "maintain weight"
  comes back as "Maintain weight", not "Maintain Weight".
- A request with no `activity_level` does not get "Invalid activity level":
  `app.py` calls `.lower()` on `None` before any check, which raises. The model
  gives such a request the `Crash` outcome.
- "extra active" is listed in the endpoint's docstring but is not a key of the
  multiplier table, so it is rejected as an invalid activity level.
- BMR is computed before the goal is validated. For the typed inputs the
  model admits this order is not observable (see "Left out", dynamic type
  errors: in `app.py` a non-numeric weight with an invalid goal raises in the
  BMR formula instead of reporting "Invalid goal value"); the model keeps the
  order only as the order of its `let` bindings.

## Model

| member | source | states |
|---|---|---|
| `Text.Lower` | app.py:41 | `s.lower()` keeps the length, maps each character to its lower-case form and leaves no upper-case letter |
| `Text.Capitalize` | app.py:72-73 | `s.capitalize()` keeps the length, upper-cases the first character and lower-cases every other one |
| `Text.LowerOfAllLower` | app.py:13 | lower-casing a string with no upper-case letter returns it unchanged |
| `Text.LowerIdempotent` | app.py:90-92 | lower-casing twice is the same as lower-casing once |
| `Text.LowerOfCapitalize` | app.py:72-73 | lower-casing a capitalised string gives the lower-cased original |
| `Text.CapitalizeOfLower` | app.py:72-73 | capitalising ignores the original case of the input |
| `Text.CapitalizeIdempotent` | app.py:72-73 | capitalising twice is the same as capitalising once |
| `Calories.ActivityMultipliers` | app.py:6-13 | the constant table: "sedentary" 1.2, "lightly active" 1.375, "moderately active" 1.55, "very active" 1.725, keyed by lower-case names; a constant has no contract, its key set and key case are stated by `ActivityTableLevels` and `ActivityKeysLowered` |
| `Calories.Message` | app.py:41-60 | each failure's message is non-empty and is the exact string the handler returns at lines 42, 46, 49 and 60; that they differ is stated by `MessagesDistinct` |
| `Calories.MessagesDistinct` | app.py:41-60 | the four error messages are pairwise different |
| `Calories.ActivityTableLevels` | app.py:6-11 | the table has exactly the four levels "sedentary", "lightly active", "moderately active", "very active"; "extra active" and "extremely active" are not keys |
| `Calories.ActivityKeysLowered` | app.py:13 | every table key is its own lower-case form, so re-keying the table by `k.lower()` changes nothing |
| `Calories.BmrMale` | app.py:97-98 | the men's formula `88.362 + 13.397 w + 4.799 h - 5.677 a`; no `ensures` of its own, its use is stated by `BmrFormulas` |
| `Calories.BmrFemale` | app.py:100-101 | the women's formula `447.593 + 9.247 w + 3.098 h - 4.330 a`; no `ensures` of its own, its use is stated by `BmrFormulas` |
| `Calories.Bmr` | app.py:52-55 | the formula picked by the lower-cased gender; no `ensures` of its own, stated by `BmrFormulas` |
| `Calories.BmrFormulas` | app.py:97-101 | the BMR is the men's formula when the lower-cased gender is "male" and the women's formula otherwise, and a known gender that is not "male" is "female" |
| `Calories.AdjustForGoal` | app.py:88-94 | the result is 500 less exactly for "lose weight", 500 more exactly for "gain weight", and unchanged exactly for every other goal (case-insensitive); defined for every goal |
| `Calories.AdjustForGoalIgnoresCase` | app.py:90-92 | `adjust_for_goal(c, g) == adjust_for_goal(c, g.lower())` |
| `Calories.CalculateCalories` | app.py:34-74 | the handler raises exactly when the activity level is absent, returns an estimate exactly when all four checks pass, and then reports the BMR the gender selects; the error order, the reported values and case-insensitivity are stated by `ErrorPrecedence`, `SuccessValues` and `CaseInsensitive` |
| `Calories.CrashIffNoActivityLevel` | app.py:40-41 | the handler raises exactly when the activity level is absent |
| `Calories.UnknownActivityReportedFirst` | app.py:40-42 | "Invalid activity level" is the response exactly when the level is present but unknown, whatever the other fields hold, missing or invalid |
| `Calories.MissingDataReportedSecond` | app.py:45-46 | "Missing data in request" is the response exactly when the level is known and some field is missing, before gender and goal are looked at |
| `Calories.InvalidGenderReportedThird` | app.py:48-49 | "Invalid gender value" is the response exactly when the level is known, all fields are present and the gender is not male/female, even when the goal is invalid too |
| `Calories.InvalidGoalReportedLast` | app.py:59-60 | "Invalid goal value" is the response exactly when every earlier check passes and the goal is unknown |
| `Calories.ErrorPrecedence` | app.py:40-60 | a request failing some check gets a crash or the error of the first check it fails, in the order level, missing data, gender, goal |
| `Calories.SuccessIffAccepted` | app.py:41-74 | the handler returns an estimate exactly when all four checks pass |
| `Calories.SuccessValues` | app.py:52-74 | an accepted request gets the estimate for the BMR its lower-cased gender selects, its activity level and its goal |
| `Calories.Estimate` | app.py:63-74 | the estimate is a success carrying the given BMR, and its echoed goal and level lower-case to the lower-cased inputs |
| `Calories.EstimateValues` | app.py:63-74 | the estimate reports the BMR, the BMR times the level's multiplier adjusted for the goal, and the capitalised goal and level |
| `Calories.EstimateIgnoresCase` | app.py:63-73 | lower-casing the level and goal leaves the estimate unchanged |
| `Calories.SuccessCaloriesOffset` | app.py:63-66 | the calories are BMR times the multiplier, 500 less, 500 more or unchanged, and unchanged for "maintain weight" |
| `Calories.EchoIsRecognised` | app.py:72-73 | the echoed goal and activity level, lower-cased, are again a valid goal and a table key |
| `Calories.CaseInsensitive` | app.py:41-73 | lower-casing the gender, activity level and goal of any request leaves its response unchanged |
| `Scenarios.ValidRequestScenario` | test_app.py:11-25 | the valid sample gets BMR 1724.052, 2672.2806 kcal, "Maintain weight", "Moderately active" |
| `Scenarios.MixedCaseScenario` | app.py:48-73 | "MALE", "Moderately Active", "LOSE WEIGHT" validate like their lower-case forms and give 2172.2806 kcal |
| `Scenarios.MissingGoalScenario` | test_app.py:27-38 | omitting the goal gives "Missing data in request" |
| `Scenarios.UnknownGenderScenario` | test_app.py:40-52 | gender "unknown" gives "Invalid gender value" |
| `Scenarios.UnknownActivityScenario` | test_app.py:54-66 | "extremely active" and "extra active" give "Invalid activity level" |
| `Scenarios.UnknownGoalScenario` | test_app.py:68-80 | goal "bulk up" gives "Invalid goal value" |
| `Scenarios.MissingActivityScenario` | app.py:40-41 | a request without an activity level raises even when every other field is present |
| `Scenarios.AdjustForGoalScenarios` | test_app.py:84-94 | 2500 kcal becomes 2000 for "lose weight", 3000 for "gain weight", and stays 2500 for "maintain weight" and "invalid goal" |

## Left out

- The HTTP layer: the Flask application, the route, `request.get_json()`, `jsonify`, status codes (200 for `Ok`, 400 for `Err`) and `app.run`. The `Request` and `Response` datatypes stand in for the JSON bodies; `Calories.Message` gives the text of each error body.
- Floating point: weights, heights, ages, coefficients and multipliers are exact `real`s, not IEEE-754 doubles.
- `round(x, 2)` on the reported BMR and calories: the `Ok` outcome carries the exact, unrounded values.
- Python's dynamic type errors (a non-string gender or goal, a non-numeric weight): the `Request` record is typed, so these inputs cannot be written. Only the absent activity level, which raises on valid JSON, is modelled, as `Crash`.
- Age is a `real` like weight and height: the handler accepts any JSON number and never checks that age is an integer.
- Unicode case mapping: `Text.Lower` and `Text.Capitalize` change only the ASCII letters. On this program nothing observable is lost: the only non-ASCII character whose Python `lower()` is a single ASCII letter is U+212A (KELVIN SIGN, lowered to "k"), and no table key, gender or goal contains "k", so every string accepted at app.py:41, 48 and 59 is ASCII under both mappings, and the echoed `capitalize()` values agree too.
