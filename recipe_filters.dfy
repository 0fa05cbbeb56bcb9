/**
 * The preference selects (src/components/recipe/RecipeFilters.jsx): what
 * each select shows for the current preferences, the options it offers,
 * and the single-field update a selection passes on.
 */
module RecipeFilters {
  import opened Wrappers
  import opened Preferences
  import opened Prompts
  import Text

  /** A selection in one of the five selects: `handleChange(field, value)`. */
  datatype PreferenceChange =
    | SetCuisine(cuisine: string)
    | SetSpiceLevel(spiceLevel: string)
    | SetDietaryRestrictions(restrictions: seq<string>)
    | SetMealType(mealType: string)
    | SetDietaryPreference(dietaryPreference: string)

  /** `{ ...preferences, [field]: value }`: the chosen field is set and every
      other field is passed on as it was. */
  function HandleChange(p: PreferenceSet, change: PreferenceChange): (r: PreferenceSet)
    ensures r.cuisine == if change.SetCuisine? then Some(change.cuisine) else p.cuisine
    ensures r.spiceLevel == if change.SetSpiceLevel? then Some(change.spiceLevel) else p.spiceLevel
    ensures r.dietaryRestrictions ==
      if change.SetDietaryRestrictions? then Some(change.restrictions) else p.dietaryRestrictions
    ensures r.mealType == if change.SetMealType? then Some(change.mealType) else p.mealType
    ensures r.dietaryPreference ==
      if change.SetDietaryPreference? then Some(change.dietaryPreference) else p.dietaryPreference
  {
    match change
    case SetCuisine(v) => p.(cuisine := Some(v))
    case SetSpiceLevel(v) => p.(spiceLevel := Some(v))
    case SetDietaryRestrictions(vs) => p.(dietaryRestrictions := Some(vs))
    case SetMealType(v) => p.(mealType := Some(v))
    case SetDietaryPreference(v) => p.(dietaryPreference := Some(v))
  }

  /** What the five selects show. */
  datatype Display = Display(
    cuisine: string, spiceLevel: string, mealType: string, dietaryPreference: string,
    restrictions: seq<string>)

  /** `preferences.x || ''` for the four single selects and
      `preferences.dietaryRestrictions || []` for the multiple one. */
  function Displayed(p: PreferenceSet): (d: Display)
    ensures p.cuisine.None? ==> d.cuisine == ""
    ensures p.spiceLevel.None? ==> d.spiceLevel == ""
    ensures p.mealType.None? ==> d.mealType == ""
    ensures p.dietaryPreference.None? ==> d.dietaryPreference == ""
    ensures p.dietaryRestrictions.None? ==> d.restrictions == []
  {
    Display(
      Preferred(p.cuisine, ""), Preferred(p.spiceLevel, ""), Preferred(p.mealType, ""),
      Preferred(p.dietaryPreference, ""),
      if p.dietaryRestrictions.Some? then p.dietaryRestrictions.value else [])
  }

  /** The select that was used shows the chosen value and the others keep
      showing what they showed. */
  lemma SelectionIsShown(p: PreferenceSet, change: PreferenceChange)
    ensures var d, e := Displayed(p), Displayed(HandleChange(p, change));
      match change
      case SetCuisine(v) => e == d.(cuisine := v)
      case SetSpiceLevel(v) => e == d.(spiceLevel := v)
      case SetDietaryRestrictions(vs) => e == d.(restrictions := vs)
      case SetMealType(v) => e == d.(mealType := v)
      case SetDietaryPreference(v) => e == d.(dietaryPreference := v)
  {
  }

  /** Choosing again what a select already shows changes nothing the
      selects show. */
  lemma ReselectingChangesNothing(p: PreferenceSet)
    ensures Displayed(HandleChange(p, SetCuisine(Displayed(p).cuisine))) == Displayed(p)
    ensures Displayed(HandleChange(p, SetSpiceLevel(Displayed(p).spiceLevel))) == Displayed(p)
    ensures Displayed(HandleChange(p, SetMealType(Displayed(p).mealType))) == Displayed(p)
    ensures Displayed(HandleChange(p, SetDietaryPreference(Displayed(p).dietaryPreference))) == Displayed(p)
    ensures Displayed(HandleChange(p, SetDietaryRestrictions(Displayed(p).restrictions))) == Displayed(p)
  {
  }

  /** The values the single selects offer; "" is the "Any" entry. */
  const CuisineOptions: seq<string> := [""] + Cuisines
  const MealTypeOptions: seq<string> := [""] + MealTypes
  const DietaryPreferenceOptions: seq<string> := DietaryPreferenceChoices

  /** The spice-level select offers the stored value of each table entry. */
  function SpiceLevelOptions(levels: seq<SpiceLevelEntry>): (r: seq<string>)
    ensures |r| == |levels|
    ensures forall i :: 0 <= i < |levels| ==> r[i] == levels[i].value
  {
    seq(|levels|, i requires 0 <= i < |levels| => levels[i].value)
  }

  /** The preferences the generation page starts with
      (src/pages/GenerateRecipe.jsx:40-46). */
  const InitialPreferences := PreferenceSet(Some(""), Some("medium"), Some([]), Some(""), Some("No Preference"))

  /** Every select can show the initial preferences: each displayed value
      is one of its options, and no restriction is selected. */
  lemma InitialPreferencesSelectable()
    ensures Displayed(InitialPreferences).cuisine in CuisineOptions
    ensures Displayed(InitialPreferences).spiceLevel in SpiceLevelOptions(SpiceLevels)
    ensures Displayed(InitialPreferences).mealType in MealTypeOptions
    ensures Displayed(InitialPreferences).dietaryPreference in DietaryPreferenceOptions
    ensures Displayed(InitialPreferences).restrictions == []
  {
    assert SpiceLevelOptions(SpiceLevels)[1] == "medium";
    assert CuisineOptions[0] == "";
    assert MealTypeOptions[0] == "";
    assert DietaryPreferenceOptions[0] == "No Preference";
  }

  /** The initial preferences reach the recipe prompt as "Any", the stored
      spice value "medium", "None", "Any" and "No Preference". */
  lemma InitialPreferencesRendering()
    ensures ClientRendering(InitialPreferences) == ["Any", "medium", "None", "Any", "No Preference"]
  {
    assert Text.Join([], ", ") == "";
  }
}
