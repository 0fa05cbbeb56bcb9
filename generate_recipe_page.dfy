/**
 * The three-step recipe wizard (src/pages/GenerateRecipe.jsx): add
 * ingredients, set preferences, generate. The page's state is the fields
 * of `RecipeWizard`; each handler is a method. The asynchronous handlers are
 * split at their `await`: `Begin…` runs up to the call, `Finish…` runs
 * once its outcome is known.
 */
module GenerateRecipePage {
  import opened Wrappers
  import opened Values
  import opened Preferences
  import opened RecipeFilters
  import Messages

  const NoIngredientsMessage := "Please add at least one ingredient"
  const GenerationFallbackMessage := "Failed to generate recipe. Please try again."
  const NotSignedInMessage := "You must be logged in to save recipes"
  const NoRecipeMessage := "No recipe to save"
  const SaveFallbackMessage := "Failed to save recipe."
  const SavedMessage := "Recipe saved successfully! \U{1F389}"

  /** The last step: the generated recipe. */
  const RecipeStep := 2

  class RecipeWizard {
    var activeStep: int
    var ingredients: seq<string>
    var preferences: PreferenceSet
    var recipe: Option<Value>
    var loading: bool
    var saving: bool
    var error: string
    var successMessage: string
    var isSaved: bool

    /** The wizard is on one of its three steps. */
    predicate Valid()
      reads this
    {
      0 <= activeStep <= RecipeStep
    }

    /** The navigation buttons are shown before the last step. "Back" is
        disabled on the first step. */
    predicate BackEnabled()
      reads this
    {
      activeStep < RecipeStep && activeStep != 0
    }

    /** "Next" (on the first step) or "Generate Recipe" (on the second) is
        disabled while loading, and on the first step while no ingredient is
        listed. */
    predicate PrimaryEnabled()
      reads this
    {
      activeStep < RecipeStep && !loading && !(activeStep == 0 && |ingredients| == 0)
    }

    constructor ()
      ensures Valid()
      ensures activeStep == 0 && ingredients == [] && preferences == InitialPreferences
      ensures recipe == None && !loading && !saving && error == "" && successMessage == "" && !isSaved
    {
      activeStep := 0;
      ingredients := [];
      preferences := InitialPreferences;
      recipe := None;
      loading, saving := false, false;
      error, successMessage := "", "";
      isSaved := false;
    }

    /** `handleIngredientsExtracted`: the image's ingredients replace the
        list and the error is cleared. */
    method HandleIngredientsExtracted(extracted: seq<string>)
      modifies this
      ensures ingredients == extracted && error == ""
      ensures activeStep == old(activeStep) && preferences == old(preferences) && recipe == old(recipe)
      ensures loading == old(loading) && saving == old(saving) && isSaved == old(isSaved)
      ensures successMessage == old(successMessage)
    {
      ingredients := extracted;
      error := "";
    }

    /** `handleIngredientsChange`: the typed list replaces the list. */
    method HandleIngredientsChange(next: seq<string>)
      modifies this
      ensures ingredients == next
      ensures activeStep == old(activeStep) && preferences == old(preferences) && recipe == old(recipe)
      ensures loading == old(loading) && saving == old(saving) && isSaved == old(isSaved)
      ensures error == old(error) && successMessage == old(successMessage)
    {
      ingredients := next;
    }

    /** `handlePreferencesChange` with the single-field update of the selects. */
    method HandlePreferencesChange(change: PreferenceChange)
      modifies this
      ensures preferences == HandleChange(old(preferences), change)
      ensures activeStep == old(activeStep) && ingredients == old(ingredients) && recipe == old(recipe)
      ensures loading == old(loading) && saving == old(saving) && isSaved == old(isSaved)
      ensures error == old(error) && successMessage == old(successMessage)
    {
      preferences := HandleChange(preferences, change);
    }

    /** `handleNext`: on the first step with no ingredients it only reports
        the error; otherwise it clears the error and moves one step on. */
    method HandleNext()
      modifies this
      ensures old(activeStep) == 0 && |old(ingredients)| == 0 ==>
        error == NoIngredientsMessage && activeStep == old(activeStep)
      ensures !(old(activeStep) == 0 && |old(ingredients)| == 0) ==>
        error == "" && activeStep == old(activeStep) + 1
      ensures ingredients == old(ingredients) && preferences == old(preferences) && recipe == old(recipe)
      ensures loading == old(loading) && saving == old(saving) && isSaved == old(isSaved)
      ensures successMessage == old(successMessage)
    {
      if activeStep == 0 && |ingredients| == 0 {
        error := NoIngredientsMessage;
        return;
      }
      error := "";
      activeStep := activeStep + 1;
    }

    /** `handleBack`: one step back, error cleared. The handler itself has no
        lower bound; the button that calls it is disabled on the first step. */
    method HandleBack()
      modifies this
      ensures activeStep == old(activeStep) - 1 && error == ""
      ensures ingredients == old(ingredients) && preferences == old(preferences) && recipe == old(recipe)
      ensures loading == old(loading) && saving == old(saving) && isSaved == old(isSaved)
      ensures successMessage == old(successMessage)
    {
      activeStep := activeStep - 1;
      error := "";
    }

    /** `handleGenerateRecipe` up to the model call. */
    method BeginGenerate()
      modifies this
      ensures loading && error == ""
      ensures activeStep == old(activeStep) && ingredients == old(ingredients)
      ensures preferences == old(preferences) && recipe == old(recipe)
      ensures saving == old(saving) && isSaved == old(isSaved) && successMessage == old(successMessage)
    {
      loading := true;
      error := "";
    }

    /** `handleGenerateRecipe` after the model call: a recipe moves the
        wizard to its last step as a new, unsaved recipe; a failure shows its
        message and stays on the step. Loading ends either way. */
    method FinishGenerate(outcome: Result<Value, string>)
      modifies this
      ensures !loading
      ensures outcome.Success? ==>
        recipe == Some(outcome.value) && !isSaved && activeStep == RecipeStep && error == old(error)
      ensures outcome.Failure? ==>
        && error == Messages.Shown(outcome.error, GenerationFallbackMessage)
        && recipe == old(recipe) && isSaved == old(isSaved) && activeStep == old(activeStep)
      ensures ingredients == old(ingredients) && preferences == old(preferences)
      ensures saving == old(saving) && successMessage == old(successMessage)
    {
      match outcome {
        case Success(v) =>
          recipe := Some(v);
          isSaved := false;
          activeStep := RecipeStep;
        case Failure(m) =>
          error := Messages.Shown(m, GenerationFallbackMessage);
      }
      loading := false;
    }

    /** `handleSaveRecipe` up to the store call: without a signed-in user or
        without a recipe it only reports the error. */
    method BeginSave(signedIn: bool) returns (proceed: bool)
      modifies this
      ensures proceed <==> signedIn && old(recipe).Some?
      ensures !signedIn ==> error == NotSignedInMessage && saving == old(saving)
      ensures signedIn && old(recipe).None? ==> error == NoRecipeMessage && saving == old(saving)
      ensures proceed ==> saving && error == ""
      ensures activeStep == old(activeStep) && ingredients == old(ingredients)
      ensures preferences == old(preferences) && recipe == old(recipe)
      ensures loading == old(loading) && isSaved == old(isSaved) && successMessage == old(successMessage)
    {
      if !signedIn {
        error := NotSignedInMessage;
        return false;
      }
      if recipe.None? {
        error := NoRecipeMessage;
        return false;
      }
      saving := true;
      error := "";
      proceed := true;
    }

    /** `handleSaveRecipe` after the store call: success marks the recipe
        saved and shows the success message; a failure shows its message.
        Saving ends either way. */
    method FinishSave(outcome: Outcome<string>)
      modifies this
      ensures !saving
      ensures outcome.Pass? ==> isSaved && successMessage == SavedMessage && error == old(error)
      ensures outcome.Fail? ==>
        && error == Messages.Shown(outcome.error, SaveFallbackMessage)
        && isSaved == old(isSaved) && successMessage == old(successMessage)
      ensures activeStep == old(activeStep) && ingredients == old(ingredients)
      ensures preferences == old(preferences) && recipe == old(recipe) && loading == old(loading)
    {
      match outcome {
        case Pass =>
          isSaved := true;
          successMessage := SavedMessage;
        case Fail(m) =>
          error := Messages.Shown(m, SaveFallbackMessage);
      }
      saving := false;
    }

    /** `handleGenerateNew`: back to an empty first step; the preferences are
        kept. */
    method HandleGenerateNew()
      modifies this
      ensures Valid()
      ensures activeStep == 0 && ingredients == [] && recipe == None && error == "" && !isSaved
      ensures preferences == old(preferences) && loading == old(loading) && saving == old(saving)
      ensures successMessage == old(successMessage)
    {
      activeStep := 0;
      ingredients := [];
      recipe := None;
      error := "";
      isSaved := false;
    }

    /** The snackbar's close: the success message is cleared. */
    method CloseSnackbar()
      modifies this
      ensures successMessage == ""
      ensures activeStep == old(activeStep) && ingredients == old(ingredients)
      ensures preferences == old(preferences) && recipe == old(recipe) && error == old(error)
      ensures loading == old(loading) && saving == old(saving) && isSaved == old(isSaved)
    {
      successMessage := "";
    }

    /** Pressing an enabled navigation button keeps the wizard on one of its
        three steps: "Back" from the second step, "Next" from the first and
        "Generate Recipe" from the second. */
    method PressBack()
      requires Valid() && BackEnabled()
      modifies this
      ensures Valid() && activeStep == old(activeStep) - 1
    {
      HandleBack();
    }

    method PressNext()
      requires Valid() && PrimaryEnabled() && activeStep == 0
      modifies this
      ensures Valid() && activeStep == 1 && error == ""
    {
      HandleNext();
    }

    /** Generation from an enabled button either reaches the last step with
        the recipe or stays on the second step. */
    method PressGenerate(outcome: Result<Value, string>)
      requires Valid() && PrimaryEnabled() && activeStep == 1
      modifies this
      ensures Valid() && !loading
      ensures outcome.Success? ==> activeStep == RecipeStep && recipe == Some(outcome.value) && !isSaved
      ensures outcome.Failure? ==> activeStep == 1 && error != ""
    {
      BeginGenerate();
      FinishGenerate(outcome);
    }
  }
}
