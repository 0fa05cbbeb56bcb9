/**
 * Recipe preferences and the fixed option tables the preference selects
 * offer (src/utils/constants.js).
 */
module Preferences {
  import opened Wrappers

  /** The user's recipe preferences. A field that is `None` is missing from the
      JavaScript object; a present empty text is falsy as well. */
  datatype PreferenceSet = PreferenceSet(
    cuisine: Option<string>,
    spiceLevel: Option<string>,
    dietaryRestrictions: Option<seq<string>>,
    mealType: Option<string>,
    dietaryPreference: Option<string>)

  /** An object with none of the preference fields. */
  const NoPreferences := PreferenceSet(None, None, None, None, None)

  const Cuisines: seq<string> := [
    "Italian", "Mexican", "Indian", "Chinese", "Japanese", "Thai",
    "American", "French", "Mediterranean", "Korean", "Vietnamese", "Greek"]

  /** An entry of the spice-level table: the stored value and the title shown for it. */
  datatype SpiceLevelEntry = SpiceLevelEntry(value: string, title: string)

  const SpiceLevels: seq<SpiceLevelEntry> := [
    SpiceLevelEntry("mild", "Mild"),
    SpiceLevelEntry("medium", "Medium"),
    SpiceLevelEntry("spicy", "Spicy"),
    SpiceLevelEntry("very_spicy", "Very Spicy")]

  const DietaryRestrictionChoices: seq<string> := [
    "None", "Gluten-Free", "Dairy-Free", "Nut-Free", "Soy-Free",
    "Egg-Free", "Shellfish-Free", "Halal", "Kosher"]

  const MealTypes: seq<string> := [
    "Breakfast", "Lunch", "Dinner", "Snack", "Dessert", "Appetizer"]

  const DietaryPreferenceChoices: seq<string> := [
    "No Preference", "Vegetarian", "Vegan", "Pescatarian", "Non-Vegetarian"]
}
