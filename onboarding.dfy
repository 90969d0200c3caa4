/** The onboarding questionnaire: its default answers, the equipment
    checkboxes, the four-step navigation and what submitting the form does. */
module Onboarding {
  import opened Types
  import opened Lists

  /** The answers being edited (`OnboardingData`). */
  datatype OnboardingForm = OnboardingForm(
    fitnessLevel: FitnessLevel,
    primaryGoal: FitnessGoal,
    availableDays: int,
    sessionDuration: int,
    equipmentAccess: seq<EquipmentOption>,
    injuriesLimitations: string)

  /** The answers the page starts with. */
  const Defaults := OnboardingForm(Beginner, GeneralFitness, 3, 45, [], "")

  const EquipmentRequired := "Please select at least one equipment option"
  const NotAuthenticated := "Not authenticated"
  const SaveFailed := "Failed to save onboarding data"

  /** Ticking or clearing one equipment checkbox: the list is toggled and
      every other answer is kept. */
  function HandleEquipmentChange(form: OnboardingForm, equipment: EquipmentOption, checked: bool): (r: OnboardingForm)
    ensures r == form.(equipmentAccess := r.equipmentAccess)
    ensures checked ==> r.equipmentAccess == form.equipmentAccess + [equipment]
    ensures !checked ==> equipment !in r.equipmentAccess && IsSubsequence(r.equipmentAccess, form.equipmentAccess)
    ensures !checked ==> forall e :: e != equipment ==> multiset(r.equipmentAccess)[e] == multiset(form.equipmentAccess)[e]
  {
    form.(equipmentAccess := Toggle(form.equipmentAccess, equipment, checked))
  }

  /** Ticking a box that was clear and clearing it again gives back the
      form as it was. */
  lemma EquipmentChangeRoundTrip(form: OnboardingForm, equipment: EquipmentOption)
    requires equipment !in form.equipmentAccess
    ensures HandleEquipmentChange(HandleEquipmentChange(form, equipment, true), equipment, false) == form
  {
    ToggleRoundTrip(form.equipmentAccess, equipment);
  }

  /** What one press of the submit button leads to: the row handed to the
      insert (if the insert is attempted), the error shown, and the page
      navigated to. */
  datatype SubmitOutcome = SubmitOutcome(inserted: Option<OnboardingForm>, error: Option<string>, navigateTo: Option<string>)

  /** `handleSubmit`, given whether a user is signed in and what the insert
      reports (`None` for success, else the value it throws). */
  function HandleSubmit(form: OnboardingForm, userSignedIn: bool, insertError: Option<Thrown>): (r: SubmitOutcome)
    ensures form.equipmentAccess == [] ==> r == SubmitOutcome(None, Some(EquipmentRequired), None)
    ensures r.inserted.Some? <==> form.equipmentAccess != [] && userSignedIn
    ensures r.inserted.Some? ==> r.inserted.value == form
    ensures form.equipmentAccess != [] && !userSignedIn ==> r.error == Some(NotAuthenticated)
    ensures r.navigateTo.Some? <==> r.inserted.Some? && insertError.None?
    ensures r.navigateTo.Some? ==> r.navigateTo.value == "/dashboard" && r.error.None?
    ensures r.error.None? ==> r.navigateTo.Some?
    ensures r.inserted.Some? && insertError.Some? ==> r.error == Some(insertError.value.MessageOr(SaveFailed))
  {
    if |form.equipmentAccess| == 0 then SubmitOutcome(None, Some(EquipmentRequired), None)
    else if !userSignedIn then SubmitOutcome(None, Some(ErrorValue(NotAuthenticated).MessageOr(SaveFailed)), None)
    else if insertError.Some? then SubmitOutcome(Some(form), Some(insertError.value.MessageOr(SaveFailed)), None)
    else SubmitOutcome(Some(form), None, Some("/dashboard"))
  }

  /** The default answers cannot be submitted as they are: no equipment is
      ticked yet. */
  lemma DefaultsNeedEquipment(userSignedIn: bool, insertError: Option<Thrown>)
    ensures HandleSubmit(Defaults, userSignedIn, insertError).error == Some(EquipmentRequired)
    ensures HandleSubmit(Defaults, userSignedIn, insertError).inserted.None?
  {
  }

  /** The step buttons: "Back" and "Next"/"Continue" (the submit button of
      step 4 is `HandleSubmit`). */
  datatype StepButton = Back | Next

  /** Step 1 has only a Next button, steps 2 and 3 have both, step 4 has a
      Back button beside the submit button. */
  predicate Shown(step: int, b: StepButton) {
    match b
    case Next => 1 <= step <= 3
    case Back => 2 <= step <= 4
  }

  /** The `setStep(...)` each rendered button performs. */
  function Press(step: int, b: StepButton): (next: int)
    requires Shown(step, b)
    ensures 1 <= next <= 4
    ensures b == Next ==> next == step + 1
    ensures b == Back ==> next == step - 1
  {
    match b
    case Next => if step == 1 then 2 else if step == 2 then 3 else 4
    case Back => if step == 2 then 1 else if step == 3 then 2 else 3
  }

  /** Pressing the shown buttons one after another, from the given step. */
  function PressAll(step: int, bs: seq<StepButton>): (last: int)
    requires 1 <= step <= 4
    ensures 1 <= last <= 4
    decreases |bs|
  {
    if bs == [] || !Shown(step, bs[0]) then step
    else PressAll(Press(step, bs[0]), bs[1..])
  }

  /** Next and Back undo each other. */
  lemma NextBackUndo(step: int)
    requires 1 <= step <= 3
    ensures Shown(Press(step, Next), Back) && Press(Press(step, Next), Back) == step
  {
  }

  /** Each press moves one step, so `k` presses move at most `k` steps:
      the submit step is at least three presses away from step 1. */
  lemma {:induction false} StepsAreGradual(step: int, bs: seq<StepButton>)
    requires 1 <= step <= 4
    ensures PressAll(step, bs) <= step + |bs|
    ensures PressAll(step, bs) >= step - |bs|
    decreases |bs|
  {
    if bs != [] && Shown(step, bs[0]) {
      StepsAreGradual(Press(step, bs[0]), bs[1..]);
    }
  }
}
