/**
 * The prompts sent to the generative model. The image-analysis prompt is the
 * same in both deployments; the recipe prompt interpolates the ingredient
 * list and five rendered preferences and ends with a closing block that
 * differs slightly between the browser client and the cloud functions.
 */
module Prompts {
  import opened Wrappers
  import opened Text
  import opened Preferences

  /** The instruction sent with the image (src/services/geminiService.js:41-50,
      functions/index.js:55-64). */
  const AnalysisPrompt: string :=
    "Analyze this image and identify all edible food ingredients visible.\n"
    + "Return ONLY a JSON array of ingredient names as strings.\n"
    + "Example format: [\"chicken breast\", \"bell pepper\", \"onion\", \"garlic\"]\n"
    + "\n"
    + "Rules:\n"
    + "- Only include actual food ingredients\n"
    + "- Use common ingredient names\n"
    + "- Be specific (e.g., \"red bell pepper\" not just \"vegetable\")\n"
    + "- Ignore cooking utensils, plates, or non-food items\n"
    + "- Return empty array if no ingredients found"

  /** The labels of the five preference lines, in prompt order. */
  const PreferenceLabels: seq<string> :=
    ["Cuisine", "Spice Level", "Dietary Restrictions", "Meal Type", "Dietary Preference"]

  /** What each preference line shows when the preference is missing or empty. */
  const PreferenceDefaults: seq<string> :=
    ["Any", "Medium", "None", "Any", "No Preference"]

  /** `value || fallback` for a text preference that may be missing. */
  function Preferred(v: Option<string>, fallback: string): string {
    if v.Some? && v.value != "" then v.value else fallback
  }

  /** `dietaryRestrictions?.join(', ')`: missing stays missing. */
  function JoinedRestrictions(xs: Option<seq<string>>): Option<string> {
    match xs
    case None => None
    case Some(items) => Some(Join(items, ", "))
  }

  /** The five texts the browser client interpolates into the preference lines
      (src/services/geminiService.js:107-111). */
  function ClientRendering(p: PreferenceSet): (r: seq<string>)
    ensures |r| == 5
    ensures forall k :: 0 <= k < 5 ==> r[k] != ""
  {
    [ Preferred(p.cuisine, "Any"),
      Preferred(p.spiceLevel, "Medium"),
      Preferred(JoinedRestrictions(p.dietaryRestrictions), "None"),
      Preferred(p.mealType, "Any"),
      Preferred(p.dietaryPreference, "No Preference") ]
  }

  /** A missing or empty preference is rendered as its default; a present,
      non-empty one as itself. Restrictions are joined with ", ", and a list
      whose join is empty (no items, or one empty item) shows "None". */
  lemma ClientRenderingUsesDefaults(p: PreferenceSet)
    ensures ClientRendering(NoPreferences) == PreferenceDefaults
    ensures p.cuisine.Some? && p.cuisine.value != "" ==> ClientRendering(p)[0] == p.cuisine.value
    ensures (p.cuisine.None? || p.cuisine.value == "") ==> ClientRendering(p)[0] == "Any"
    ensures p.spiceLevel.Some? && p.spiceLevel.value != "" ==> ClientRendering(p)[1] == p.spiceLevel.value
    ensures (p.spiceLevel.None? || p.spiceLevel.value == "") ==> ClientRendering(p)[1] == "Medium"
    ensures p.dietaryRestrictions.None? ==> ClientRendering(p)[2] == "None"
    ensures p.dietaryRestrictions == Some([]) ==> ClientRendering(p)[2] == "None"
    ensures p.dietaryRestrictions.Some? && Join(p.dietaryRestrictions.value, ", ") != "" ==>
      ClientRendering(p)[2] == Join(p.dietaryRestrictions.value, ", ")
    ensures p.dietaryRestrictions.Some? && Join(p.dietaryRestrictions.value, ", ") == "" ==>
      ClientRendering(p)[2] == "None"
    ensures p.dietaryRestrictions.Some? && |p.dietaryRestrictions.value| == 1 && p.dietaryRestrictions.value[0] != "" ==>
      ClientRendering(p)[2] == p.dietaryRestrictions.value[0]
    ensures p.mealType.Some? && p.mealType.value != "" ==> ClientRendering(p)[3] == p.mealType.value
    ensures (p.mealType.None? || p.mealType.value == "") ==> ClientRendering(p)[3] == "Any"
    ensures p.dietaryPreference.Some? && p.dietaryPreference.value != "" ==>
      ClientRendering(p)[4] == p.dietaryPreference.value
    ensures (p.dietaryPreference.None? || p.dietaryPreference.value == "") ==>
      ClientRendering(p)[4] == "No Preference"
  {
    if p.dietaryRestrictions.Some? && |p.dietaryRestrictions.value| == 1 {
      var xs := p.dietaryRestrictions.value;
      assert Join(xs, ", ") == xs[0];
    }
  }

  /** One line of the preference block. */
  function PreferenceLine(rendered: seq<string>, k: nat): string
    requires |rendered| == 5 && k < 5
  {
    "- " + PreferenceLabels[k] + ": " + rendered[k]
  }

  /** The requested answer structure, common to both deployments. */
  const RecipeStructure: seq<string> := [
    "Return a JSON object with this EXACT structure (no markdown, no code blocks, just raw JSON):",
    "{",
    "  \"recipeName\": \"Name of the dish\",",
    "  \"description\": \"Brief 2-3 sentence description\",",
    "  \"prepTime\": \"15 minutes\",",
    "  \"cookTime\": \"30 minutes\",",
    "  \"servings\": 4,",
    "  \"difficulty\": \"Easy\",",
    "  \"ingredients\": [",
    "    {",
    "      \"item\": \"chicken breast\",",
    "      \"amount\": \"500g\",",
    "      \"notes\": \"diced\"",
    "    }",
    "  ],",
    "  \"instructions\": [",
    "    \"Step 1 detailed instruction\",",
    "    \"Step 2 detailed instruction\"",
    "  ],",
    "  \"nutritionalInfo\": {",
    "    \"calories\": \"350 kcal\",",
    "    \"protein\": \"25g\",",
    "    \"carbs\": \"30g\",",
    "    \"fat\": \"12g\"",
    "  },",
    "  \"tips\": [",
    "    \"Cooking tip 1\",",
    "    \"Cooking tip 2\"",
    "  ],",
    "  \"tags\": [\"quick\", \"healthy\", \"dinner\"]",
    "}"]

  /** The closing block of the browser client's prompt. */
  const ClientClosing: seq<string> := [
    "Important:",
    "- Only use the provided ingredients as main ingredients",
    "- You can suggest common pantry items (salt, pepper, oil) if needed",
    "- Make instructions clear and detailed",
    "- Ensure the recipe matches all preferences",
    "- Return ONLY valid JSON, no markdown formatting, no code blocks, no additional text"]

  /** The closing block of the cloud function's prompt. */
  const ServerClosing: seq<string> := [
    "Important:",
    "- Only use the provided ingredients as main ingredients",
    "- You can suggest common pantry items (salt, pepper, oil)",
    "- Make instructions clear and detailed",
    "- Ensure the recipe matches all preferences",
    "- Return ONLY valid JSON, no markdown formatting"]

  /** The lines of the recipe prompt for an already joined ingredient list,
      the five rendered preferences and a closing block. */
  function RecipePromptLines(ingredientsLine: string, rendered: seq<string>, closing: seq<string>): (r: seq<string>)
    requires |rendered| == 5
    ensures |r| == 12 + |RecipeStructure| + |closing|
    ensures r[2] == "Ingredients: " + ingredientsLine
    ensures forall k :: 0 <= k < 5 ==> r[5 + k] == PreferenceLine(rendered, k)
  {
    [ "Create a detailed recipe using these ingredients and preferences:",
      "",
      "Ingredients: " + ingredientsLine,
      "",
      "Preferences:",
      PreferenceLine(rendered, 0),
      PreferenceLine(rendered, 1),
      PreferenceLine(rendered, 2),
      PreferenceLine(rendered, 3),
      PreferenceLine(rendered, 4),
      "" ]
    + RecipeStructure + [""] + closing
  }

  /** The recipe prompt: its lines joined by newlines. */
  function RecipePrompt(ingredientsLine: string, rendered: seq<string>, closing: seq<string>): string
    requires |rendered| == 5
  {
    Join(RecipePromptLines(ingredientsLine, rendered, closing), "\n")
  }

  /** The prompt carries the ingredient list and every preference on a line of
      its own, under its label. */
  lemma PromptMentionsEverything(ingredientsLine: string, rendered: seq<string>, closing: seq<string>)
    requires |rendered| == 5
    ensures Contains(RecipePrompt(ingredientsLine, rendered, closing), "Ingredients: " + ingredientsLine)
    ensures forall k :: 0 <= k < 5 ==>
      Contains(RecipePrompt(ingredientsLine, rendered, closing), PreferenceLine(rendered, k))
  {
    var lines := RecipePromptLines(ingredientsLine, rendered, closing);
    JoinContainsPart(lines, "\n", 2);
    forall k | 0 <= k < 5
      ensures Contains(RecipePrompt(ingredientsLine, rendered, closing), PreferenceLine(rendered, k))
    {
      JoinContainsPart(lines, "\n", 5 + k);
    }
  }
}
