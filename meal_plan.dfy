/** The meal-plan generation page: dietary preference checkboxes, the
    preferences → generating → preview steps, the one-time automatic start
    when arriving from onboarding, and the rows saved for today's meals. */
module MealPlanPage {
  import opened Types
  import opened Lists

  datatype MealType = Breakfast | Lunch | Dinner | Snack

  /** One meal of a generated plan (`MealItem`). */
  datatype MealItem = MealItem(
    mealType: MealType,
    mealName: string,
    description: string,
    calories: int,
    proteinG: int,
    carbsG: int,
    fatG: int)

  /** `GeneratedMealPlan`. */
  datatype GeneratedMealPlan = GeneratedMealPlan(
    planName: string,
    dailyCalorieTarget: int,
    proteinTargetG: int,
    carbsTargetG: int,
    fatTargetG: int,
    meals: seq<MealItem>)

  /** `MealPlanInput`; an unset goal is the empty string of the page. */
  datatype MealPlanInput = MealPlanInput(fitnessGoal: Option<FitnessGoal>, dietaryPreferences: seq<string>)

  datatype Step = Preferences | Generating | Preview

  const NotAuthenticated := "Not authenticated"
  const NoProfile := "Could not fetch your fitness profile. Please complete onboarding first."
  const GenerateFailed := "Failed to generate meal plan"
  const SaveFailed := "Failed to save meal plan"

  /** What the generator is asked for: the page's preferences with the
      goal taken from the user's profile. */
  function GeneratorInput(preferences: MealPlanInput, profileGoal: FitnessGoal): (r: MealPlanInput)
    ensures r.dietaryPreferences == preferences.dietaryPreferences
    ensures r.fitnessGoal == Some(profileGoal)
  {
    preferences.(fitnessGoal := Some(profileGoal))
  }

  /** The outcome of the awaited part of `handleGenerate`: the user, then
      the profile, then the generator, each of which can fail. */
  function GenerateOutcome(userSignedIn: bool, profileGoal: Option<FitnessGoal>, preferences: MealPlanInput,
                           generator: MealPlanInput -> Result<GeneratedMealPlan, Thrown>): (r: Result<GeneratedMealPlan, Thrown>)
    ensures !userSignedIn ==> r == Err(ErrorValue(NotAuthenticated))
    ensures userSignedIn && profileGoal.None? ==> r == Err(ErrorValue(NoProfile))
    ensures userSignedIn && profileGoal.Some? ==> r == generator(GeneratorInput(preferences, profileGoal.value))
  {
    if !userSignedIn then Err(ErrorValue(NotAuthenticated))
    else if profileGoal.None? then Err(ErrorValue(NoProfile))
    else generator(GeneratorInput(preferences, profileGoal.value))
  }

  /** A row inserted into the `meals` table. */
  datatype MealRow = MealRow(
    planId: string,
    userId: string,
    mealDate: string,
    mealType: MealType,
    mealName: string,
    description: string,
    calories: int,
    proteinG: int,
    carbsG: int,
    fatG: int,
    logged: bool)

  function RowOf(meal: MealItem, planId: string, userId: string, today: string): MealRow {
    MealRow(planId, userId, today, meal.mealType, meal.mealName, meal.description,
            meal.calories, meal.proteinG, meal.carbsG, meal.fatG, false)
  }

  /** The meal an inserted row describes. */
  function MealOfRow(row: MealRow): MealItem {
    MealItem(row.mealType, row.mealName, row.description, row.calories, row.proteinG, row.carbsG, row.fatG)
  }

  /** `generatedPlan.meals.map(...)`: one row per meal, in order, carrying
      the meal's fields, today's date, and `logged` false. */
  function MealsToInsert(meals: seq<MealItem>, planId: string, userId: string, today: string): (rows: seq<MealRow>)
    ensures |rows| == |meals|
    ensures forall i :: 0 <= i < |rows| ==>
      && rows[i].planId == planId && rows[i].userId == userId && rows[i].mealDate == today
      && !rows[i].logged && MealOfRow(rows[i]) == meals[i]
  {
    seq(|meals|, i requires 0 <= i < |meals| => RowOf(meals[i], planId, userId, today))
  }

  /** The rows of two runs of meals are the rows of each, in order. */
  lemma MealsToInsertAppend(a: seq<MealItem>, b: seq<MealItem>, planId: string, userId: string, today: string)
    ensures MealsToInsert(a + b, planId, userId, today)
         == MealsToInsert(a, planId, userId, today) + MealsToInsert(b, planId, userId, today)
  {
  }

  /** What `handleSavePlan` did once its awaited calls have answered. */
  datatype SaveEffect = SaveEffect(planInserted: bool, rows: seq<MealRow>, navigateTo: Option<string>)

  class Page {
    var step: Step
    var isGenerating: bool
    var error: Option<string>
    var generatedPlan: Option<GeneratedMealPlan>
    var preferences: MealPlanInput
    /** The `hasAutoStarted` ref. */
    var hasAutoStarted: bool

    /** The page as first rendered. */
    constructor()
      ensures step == Preferences && !isGenerating && error.None? && generatedPlan.None?
      ensures preferences == MealPlanInput(None, []) && !hasAutoStarted
    {
      step := Preferences;
      isGenerating := false;
      error := None;
      generatedPlan := None;
      preferences := MealPlanInput(None, []);
      hasAutoStarted := false;
    }

    /** `handlePreferenceChange`: toggles one dietary preference. */
    method PreferenceChange(preference: string, checked: bool)
      modifies this
      ensures preferences == old(preferences).(dietaryPreferences := Toggle(old(preferences).dietaryPreferences, preference, checked))
      ensures checked ==> preferences.dietaryPreferences == old(preferences.dietaryPreferences) + [preference]
      ensures !checked ==> preference !in preferences.dietaryPreferences
      ensures step == old(step) && isGenerating == old(isGenerating) && error == old(error)
      ensures generatedPlan == old(generatedPlan) && hasAutoStarted == old(hasAutoStarted)
    {
      preferences := preferences.(dietaryPreferences := Toggle(preferences.dietaryPreferences, preference, checked));
    }

    /** The synchronous start of `handleGenerate`. */
    method StartGenerate()
      modifies this
      ensures step == Generating && isGenerating && error.None?
      ensures generatedPlan == old(generatedPlan) && preferences == old(preferences)
      ensures hasAutoStarted == old(hasAutoStarted)
    {
      isGenerating := true;
      step := Generating;
      error := None;
    }

    /** The end of `handleGenerate`, once the awaited calls have produced a
      plan or thrown: success previews the plan, failure goes back to the
      preferences with the error's message. Generation is always over. */
    method GenerateSettled(outcome: Result<GeneratedMealPlan, Thrown>)
      requires step == Generating
      modifies this
      ensures !isGenerating
      ensures outcome.Ok? ==> step == Preview && generatedPlan == Some(outcome.value) && error == old(error)
      ensures outcome.Err? ==> step == Preferences && generatedPlan == old(generatedPlan)
      ensures outcome.Err? ==> error == Some(outcome.error.MessageOr(GenerateFailed))
      ensures preferences == old(preferences) && hasAutoStarted == old(hasAutoStarted)
    {
      if outcome.Ok? {
        generatedPlan := Some(outcome.value);
        step := Preview;
      } else {
        error := Some(outcome.error.MessageOr(GenerateFailed));
        step := Preferences;
      }
      isGenerating := false;
    }

    /** Pressing "Generate": the whole of `handleGenerate` for one answer
      of the user lookup, the profile lookup and the generator. */
    method Generate(userSignedIn: bool, profileGoal: Option<FitnessGoal>,
                    generator: MealPlanInput -> Result<GeneratedMealPlan, Thrown>)
      modifies this
      ensures var outcome := GenerateOutcome(userSignedIn, profileGoal, old(preferences), generator);
        && !isGenerating
        && (outcome.Ok? ==> step == Preview && generatedPlan == Some(outcome.value) && error.None?)
        && (outcome.Err? ==> step == Preferences && generatedPlan == old(generatedPlan)
                             && error == Some(outcome.error.MessageOr(GenerateFailed)))
      ensures !userSignedIn ==> step == Preferences && error == Some(NotAuthenticated)
      ensures userSignedIn && profileGoal.None? ==> step == Preferences && error == Some(NoProfile)
      ensures preferences == old(preferences) && hasAutoStarted == old(hasAutoStarted)
    {
      var outcome := GenerateOutcome(userSignedIn, profileGoal, preferences, generator);
      StartGenerate();
      GenerateSettled(outcome);
    }

    /** "Generate New Plan" in the preview: drop the plan and start over. */
    method NewPlan()
      requires step == Preview
      modifies this
      ensures generatedPlan.None? && step == Preferences
      ensures isGenerating == old(isGenerating) && error == old(error)
      ensures preferences == old(preferences) && hasAutoStarted == old(hasAutoStarted)
    {
      generatedPlan := None;
      step := Preferences;
    }

    /** The auto-start effect: with `?auto=true`, generation starts once,
      and only from the preferences step. */
    method AutoStart(auto: Option<string>, userSignedIn: bool, profileGoal: Option<FitnessGoal>,
                     generator: MealPlanInput -> Result<GeneratedMealPlan, Thrown>)
      modifies this
      ensures var fires := auto == Some("true") && !old(hasAutoStarted) && old(step) == Preferences;
        && (fires ==> hasAutoStarted && step != Generating && !isGenerating)
        && (!fires ==> step == old(step) && isGenerating == old(isGenerating) && error == old(error)
                       && generatedPlan == old(generatedPlan) && hasAutoStarted == old(hasAutoStarted))
      ensures old(hasAutoStarted) ==> hasAutoStarted
      ensures preferences == old(preferences)
    {
      if auto == Some("true") && !hasAutoStarted && step == Preferences {
        hasAutoStarted := true;
        Generate(userSignedIn, profileGoal, generator);
      }
    }

    /** `handleSavePlan`, given the signed-in user, the id the plan insert
      returns (or what it throws) and what the meals insert throws, if
      anything. Without a plan nothing happens. */
    method SavePlan(userId: Option<string>, planInsert: Result<string, Thrown>, mealsError: Option<Thrown>, today: string)
      returns (effect: SaveEffect)
      modifies this
      ensures old(generatedPlan).None? ==> effect == SaveEffect(false, [], None) && error == old(error)
      ensures old(generatedPlan).Some? && userId.None? ==>
        effect == SaveEffect(false, [], None) && error == Some(NotAuthenticated)
      ensures old(generatedPlan).Some? && userId.Some? ==> effect.planInserted
      ensures old(generatedPlan).Some? && userId.Some? && planInsert.Err? ==>
        effect.rows == [] && effect.navigateTo.None? && error == Some(planInsert.error.MessageOr(SaveFailed))
      ensures old(generatedPlan).Some? && userId.Some? && planInsert.Ok? ==>
        effect.rows == MealsToInsert(old(generatedPlan).value.meals, planInsert.value, userId.value, today)
      ensures effect.navigateTo.Some? <==> old(generatedPlan).Some? && userId.Some? && planInsert.Ok? && mealsError.None?
      ensures effect.navigateTo.Some? ==> effect.navigateTo.value == "/dashboard/meals" && error.None?
      ensures old(generatedPlan).Some? && userId.Some? && planInsert.Ok? && mealsError.Some? ==>
        error == Some(mealsError.value.MessageOr(SaveFailed))
      ensures step == old(step) && isGenerating == old(isGenerating) && generatedPlan == old(generatedPlan)
      ensures preferences == old(preferences) && hasAutoStarted == old(hasAutoStarted)
    {
      if generatedPlan.None? {
        return SaveEffect(false, [], None);
      }
      error := None;
      if userId.None? {
        error := Some(ErrorValue(NotAuthenticated).MessageOr(SaveFailed));
        return SaveEffect(false, [], None);
      }
      if planInsert.Err? {
        error := Some(planInsert.error.MessageOr(SaveFailed));
        return SaveEffect(true, [], None);
      }
      var rows := MealsToInsert(generatedPlan.value.meals, planInsert.value, userId.value, today);
      if mealsError.Some? {
        error := Some(mealsError.value.MessageOr(SaveFailed));
        return SaveEffect(true, rows, None);
      }
      return SaveEffect(true, rows, Some("/dashboard/meals"));
    }
  }
}
