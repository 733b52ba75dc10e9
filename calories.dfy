/**
 * The calorie estimator behind `POST /calculate-calories`: the activity
 * multiplier table, the two BMR formulas, the goal adjustment and the
 * validate-then-compute procedure, with the HTTP layer replaced by the
 * `Request` and `Response` datatypes.
 */
module Calories {
  import opened Wrappers
  import opened Text

  /** The activity-level multipliers, keyed by lower-case level names. */
  const ActivityMultipliers: map<string, real> := map[
    "sedentary" := 1.2,
    "lightly active" := 1.375,
    "moderately active" := 1.55,
    "very active" := 1.725
  ]

  const Genders: seq<string> := ["male", "female"]

  const Goals: seq<string> := ["lose weight", "gain weight", "maintain weight"]

  /** The four validation failures, in the order they are checked. */
  datatype ErrorKind = InvalidActivityLevel | MissingData | InvalidGender | InvalidGoal

  /** The JSON request body; every field is `None` when absent or null. */
  datatype Request = Request(
    gender: Option<string>,
    weight: Option<real>,
    height: Option<real>,
    age: Option<real>,
    activityLevel: Option<string>,
    goal: Option<string>)

  /**
   * The outcome of a request: an estimate, a validation error (HTTP 400), or
   * `Crash`, the exception raised when `activity_level` is absent.
   */
  datatype Response =
    | Ok(bmr: real, calories: real, goalOut: string, activityOut: string)
    | Err(kind: ErrorKind)
    | Crash

  /** The user-facing message of each validation failure. */
  function Message(e: ErrorKind): (m: string)
    ensures m != []
  {
    match e
    case InvalidActivityLevel => "Invalid activity level"
    case MissingData => "Missing data in request"
    case InvalidGender => "Invalid gender value"
    case InvalidGoal => "Invalid goal value"
  }

  /** The four messages are pairwise different, so a client can tell the failures apart. */
  lemma MessagesDistinct(e1: ErrorKind, e2: ErrorKind)
    ensures Message(e1) == Message(e2) <==> e1 == e2
  {
  }

  /** Harris-Benedict BMR for men (weight in kg, height in cm, age in years). */
  function BmrMale(weight: real, height: real, age: real): real
  {
    88.362 + 13.397 * weight + 4.799 * height - 5.677 * age
  }

  /** Harris-Benedict BMR for women. */
  function BmrFemale(weight: real, height: real, age: real): real
  {
    447.593 + 9.247 * weight + 3.098 * height - 4.330 * age
  }

  /**
   * Subtracts 500 for "lose weight", adds 500 for "gain weight" (both matched
   * case-insensitively) and leaves every other goal unchanged; defined for
   * every goal string.
   */
  function AdjustForGoal(calories: real, goal: string): (r: real)
    ensures r == calories - 500.0 <==> Lower(goal) == "lose weight"
    ensures r == calories + 500.0 <==> Lower(goal) == "gain weight"
    ensures r == calories <==> Lower(goal) != "lose weight" && Lower(goal) != "gain weight"
  {
    if Lower(goal) == "lose weight" then calories - 500.0
    else if Lower(goal) == "gain weight" then calories + 500.0
    else calories
  }

  /** Every one of the six fields is present: the negation of the `any(... is None ...)` check. */
  predicate Complete(req: Request)
  {
    req.gender.Some? && req.weight.Some? && req.height.Some? && req.age.Some?
    && req.activityLevel.Some? && req.goal.Some?
  }

  /** BMR of a complete request, by the formula its lower-cased gender picks. */
  function Bmr(req: Request): real
    requires Complete(req)
  {
    var w, h, a := req.weight.value, req.height.value, req.age.value;
    if Lower(req.gender.value) == "male" then BmrMale(w, h, a) else BmrFemale(w, h, a)
  }

  /**
   * The estimate once every check has passed: the BMR scaled by the level's
   * multiplier, adjusted for the goal, with the goal and level echoed back
   * capitalised.
   */
  function Estimate(bmr: real, level: string, goal: string): (r: Response)
    requires Lower(level) in ActivityMultipliers
    ensures r.Ok? && r.bmr == bmr
    ensures Lower(r.goalOut) == Lower(goal) && Lower(r.activityOut) == Lower(level)
  {
    LowerOfCapitalize(goal);
    LowerOfCapitalize(level);
    var calories := bmr * ActivityMultipliers[Lower(level)];
    var calories := AdjustForGoal(calories, goal);
    Ok(bmr, calories, Capitalize(goal), Capitalize(level))
  }

  /**
   * The estimator: the guards in source order, then the estimate. It raises
   * exactly when the activity level is absent, succeeds exactly on requests
   * that pass all four checks, and then reports the BMR the gender selects.
   */
  function CalculateCalories(req: Request): (r: Response)
    ensures r.Crash? <==> req.activityLevel.None?
    ensures r.Ok? <==> Accepted(req)
    ensures r.Ok? ==> r.bmr == Bmr(req)
  {
    match req.activityLevel
    case None => Crash
    case Some(level) =>
      if Lower(level) !in ActivityMultipliers then Err(InvalidActivityLevel)
      else if !Complete(req) then Err(MissingData)
      else if Lower(req.gender.value) !in Genders then Err(InvalidGender)
      else
        var bmr := Bmr(req);
        if Lower(req.goal.value) !in Goals then Err(InvalidGoal)
        else Estimate(bmr, level, req.goal.value)
  }

  // ---------------------------------------------------------------------------
  // Specification: each check as a predicate, and what the handler does with it.

  /** The activity level is present and names a row of the table. */
  predicate KnownActivity(req: Request)
  {
    req.activityLevel.Some? && Lower(req.activityLevel.value) in ActivityMultipliers
  }

  predicate KnownGender(req: Request)
    requires Complete(req)
  {
    Lower(req.gender.value) in Genders
  }

  predicate KnownGoal(req: Request)
    requires Complete(req)
  {
    Lower(req.goal.value) in Goals
  }

  /** A request that passes all four checks. */
  predicate Accepted(req: Request)
  {
    KnownActivity(req) && Complete(req) && KnownGender(req) && KnownGoal(req)
  }

  /** The BMR follows the men's formula for "male" and the women's for "female", in any case. */
  lemma BmrFormulas(req: Request)
    requires Complete(req) && KnownGender(req)
    ensures var w, h, a := req.weight.value, req.height.value, req.age.value;
      Bmr(req) == if Lower(req.gender.value) == "male"
                  then 88.362 + 13.397 * w + 4.799 * h - 5.677 * a
                  else 447.593 + 9.247 * w + 3.098 * h - 4.330 * a
    ensures Lower(req.gender.value) != "male" ==> Lower(req.gender.value) == "female"
  {
  }

  /** The table has exactly the four documented levels; "extra active" is not one of them. */
  lemma ActivityTableLevels()
    ensures ActivityMultipliers.Keys
         == {"sedentary", "lightly active", "moderately active", "very active"}
    ensures "extra active" !in ActivityMultipliers
    ensures "extremely active" !in ActivityMultipliers
  {
  }

  /**
   * The table keys contain no upper-case letter, so re-keying the table by
   * `k.lower()` leaves every key as it is.
   */
  lemma ActivityKeysLowered()
    ensures forall k :: k in ActivityMultipliers ==> Lower(k) == k
  {
  }

  /** `adjust_for_goal` matches its goal case-insensitively. */
  lemma AdjustForGoalIgnoresCase(calories: real, goal: string)
    ensures AdjustForGoal(calories, goal) == AdjustForGoal(calories, Lower(goal))
  {
  }

  /** A missing activity level makes the handler raise, and nothing else does. */
  lemma CrashIffNoActivityLevel(req: Request)
    ensures CalculateCalories(req).Crash? <==> req.activityLevel.None?
  {
  }

  /**
   * "Invalid activity level" is reported exactly when the level is present but
   * unknown, whatever the other fields hold, missing or invalid.
   */
  lemma UnknownActivityReportedFirst(req: Request)
    ensures CalculateCalories(req) == Err(InvalidActivityLevel)
        <==> req.activityLevel.Some? && !KnownActivity(req)
  {
  }

  /**
   * "Missing data in request" is reported exactly when the level is known and
   * some field is absent, before gender or goal are looked at.
   */
  lemma MissingDataReportedSecond(req: Request)
    ensures CalculateCalories(req) == Err(MissingData) <==> KnownActivity(req) && !Complete(req)
  {
  }

  /**
   * "Invalid gender value" is reported exactly when the level is known, every
   * field is present and the gender is unknown, even if the goal is invalid too.
   */
  lemma InvalidGenderReportedThird(req: Request)
    ensures CalculateCalories(req) == Err(InvalidGender)
        <==> KnownActivity(req) && Complete(req) && !KnownGender(req)
  {
  }

  /** "Invalid goal value" is reported exactly when every earlier check passes and the goal is unknown. */
  lemma InvalidGoalReportedLast(req: Request)
    ensures CalculateCalories(req) == Err(InvalidGoal)
        <==> KnownActivity(req) && Complete(req) && KnownGender(req) && !KnownGoal(req)
  {
  }

  /** The estimator succeeds exactly on the requests that pass all four checks. */
  lemma SuccessIffAccepted(req: Request)
    ensures CalculateCalories(req).Ok? <==> Accepted(req)
  {
  }

  /** An accepted request gets the estimate for its gender's BMR, its level and its goal. */
  lemma SuccessValues(req: Request)
    requires Accepted(req)
    ensures CalculateCalories(req) == Estimate(Bmr(req), req.activityLevel.value, req.goal.value)
  {
  }

  /**
   * The estimate reports the given BMR, that BMR times the level's multiplier
   * adjusted for the goal, and the capitalised goal and level.
   */
  lemma EstimateValues(bmr: real, level: string, goal: string)
    requires Lower(level) in ActivityMultipliers
    ensures Estimate(bmr, level, goal)
         == Ok(bmr, AdjustForGoal(bmr * ActivityMultipliers[Lower(level)], goal), Capitalize(goal), Capitalize(level))
  {
  }

  /** The estimate does not depend on the case of the level or the goal. */
  lemma EstimateIgnoresCase(bmr: real, level: string, goal: string)
    requires Lower(level) in ActivityMultipliers
    ensures Lower(Lower(level)) in ActivityMultipliers
    ensures Estimate(bmr, Lower(level), Lower(goal)) == Estimate(bmr, level, goal)
  {
    LowerIdempotent(level);
    var scaled := bmr * ActivityMultipliers[Lower(level)];
    assert bmr * ActivityMultipliers[Lower(Lower(level))] == scaled;
    AdjustForGoalIgnoresCase(scaled, goal);
    CapitalizeOfLower(level);
    CapitalizeOfLower(goal);
    EstimateValues(bmr, Lower(level), Lower(goal));
    EstimateValues(bmr, level, goal);
  }

  /**
   * A request that fails some check gets a crash (no activity level) or the
   * error of the first check it fails, in the order activity level, missing
   * data, gender, goal.
   */
  lemma ErrorPrecedence(req: Request)
    requires !Accepted(req)
    ensures CalculateCalories(req) ==
      if req.activityLevel.None? then Crash
      else if !KnownActivity(req) then Err(InvalidActivityLevel)
      else if !Complete(req) then Err(MissingData)
      else if !KnownGender(req) then Err(InvalidGender)
      else Err(InvalidGoal)
  {
  }

  /**
   * On success the calories differ from BMR times the multiplier by at most
   * the goal offset, and are exactly that product for "maintain weight".
   */
  lemma SuccessCaloriesOffset(bmr: real, level: string, goal: string)
    requires Lower(level) in ActivityMultipliers
    ensures var r, base := Estimate(bmr, level, goal), bmr * ActivityMultipliers[Lower(level)];
      && (r.calories == base - 500.0 || r.calories == base || r.calories == base + 500.0)
      && (Lower(goal) == "maintain weight" ==> r.calories == base)
  {
  }

  /** The echoed goal and activity level are accepted values again once lower-cased. */
  lemma EchoIsRecognised(req: Request)
    requires CalculateCalories(req).Ok?
    ensures Lower(CalculateCalories(req).goalOut) in Goals
    ensures Lower(CalculateCalories(req).activityOut) in ActivityMultipliers
  {
  }

  /** The request with its three string fields lower-cased. */
  function LowerFields(req: Request): Request
  {
    req.(
      gender := if req.gender.Some? then Some(Lower(req.gender.value)) else None,
      activityLevel := if req.activityLevel.Some? then Some(Lower(req.activityLevel.value)) else None,
      goal := if req.goal.Some? then Some(Lower(req.goal.value)) else None)
  }

  /** Lower-casing the string fields changes none of the four checks, nor the BMR. */
  lemma LowerFieldsSameChecks(req: Request)
    ensures KnownActivity(LowerFields(req)) == KnownActivity(req)
    ensures Complete(LowerFields(req)) == Complete(req)
    ensures Complete(req) ==>
      && KnownGender(LowerFields(req)) == KnownGender(req)
      && KnownGoal(LowerFields(req)) == KnownGoal(req)
      && Bmr(LowerFields(req)) == Bmr(req)
  {
    if req.gender.Some? {
      LowerIdempotent(req.gender.value);
    }
    if req.activityLevel.Some? {
      LowerIdempotent(req.activityLevel.value);
    }
    if req.goal.Some? {
      LowerIdempotent(req.goal.value);
    }
  }

  /** An accepted request and its lower-cased copy get the same estimate. */
  lemma CaseInsensitiveOnSuccess(req: Request)
    requires Accepted(req)
    ensures CalculateCalories(LowerFields(req)) == CalculateCalories(req)
  {
    var low := LowerFields(req);
    var level, goal := req.activityLevel.value, req.goal.value;
    LowerFieldsSameChecks(req);
    assert Accepted(low);
    SuccessValues(req);
    SuccessValues(low);
    EstimateIgnoresCase(Bmr(req), level, goal);
  }

  /** A rejected request and its lower-cased copy fail in the same way. */
  lemma CaseInsensitiveOnFailure(req: Request)
    requires !Accepted(req)
    ensures CalculateCalories(LowerFields(req)) == CalculateCalories(req)
  {
    LowerFieldsSameChecks(req);
    ErrorPrecedence(req);
    ErrorPrecedence(LowerFields(req));
  }

  /** Case does not matter anywhere: lower-casing the string fields gives the same response. */
  lemma CaseInsensitive(req: Request)
    ensures CalculateCalories(LowerFields(req)) == CalculateCalories(req)
  {
    if Accepted(req) {
      CaseInsensitiveOnSuccess(req);
    } else {
      CaseInsensitiveOnFailure(req);
    }
  }
}
