# Recipe generator — a Dafny model

This project models the core of a recipe-generator web application. A
user lists ingredients, either by typing them or by uploading a photo
that a generative model (Gemini) reads. The user picks cuisine, spice
level, dietary restrictions, meal type and dietary preference. The model
then writes a recipe, which the user can save to a document store, list
and delete.

The model covers these parts:

- **Browser extractor** (`GeminiClient`, `src/services/geminiService.js`).
  - Image analysis, which parses the widest `[...]` span or falls back
    to reading the text line by line.
  - Recipe generation: code-fence cleanup, the widest `{...}` span, and
    the recipe stamped with `createdAt` and `originalIngredients`.
  - The error translation (`Messages`).
  - Sequential generation of variations.
- **Cloud functions** (`GeminiFunctions`, `functions/index.js`). These
  are the same two operations as HTTP handlers with a `success`
  envelope and status codes 200, 400, 405 and 500. `GeminiFunctions`
  also proves that both deployments render preferences alike.
- **Prompts** (`Prompts`). Both recipe prompts are built line by line
  from the ingredient list and five rendered preferences.
- **Saved-recipe service** (`RecipeService`, `src/services/recipeService.js`).
  - A `RecipeStore` class holds the recipe documents, their listing
    order, the user profiles with their counters, and an optional
    store-wide fault.
  - Listing filters by owner and then runs a stable sort, most recent
    first.
- **Components and pages**, each a class whose methods are the
  component's handlers:
  - `ManualInput.IngredientInput`
  - `ImageUpload.ImageUploader`
  - `RecipeFilters` (pure: a preference update and what the selects show)
  - `GenerateRecipePage.RecipeWizard`
  - `SavedRecipesPage.SavedRecipesView`

An asynchronous handler is split at its `await`. A `Begin…` method runs
up to the call, and a `Finish…` method takes the call's outcome.

Inputs the code cannot see are parameters:
- the model's answer to a request (`Gateway.Model`);
- `JSON.parse` (`Gateway.JsonParser`);
- clocks and new document ids;
- the conversion of a stored value to a date (`dateOf`);
- the outcome of reading a file.

JavaScript values are modelled by `Values.Value`. A record is a
`map<string, Value>`.

Two points of the code's behaviour are easy to misread:
- Image analysis falls back to line reading only when the answer has no
  [...] span. When a span is found but does not parse, the parse error
  goes to the catch block (src/services/geminiService.js:62,
  functions/index.js:74) and is reported as an error.
- The browser client strips a bullet, then a numbering, then an
  "ingredient:" label from each line (src/services/geminiService.js:238-240).
  The server strips one marker character (see Findings).

## Model

| member | source | states |
|---|---|---|
| GeminiClient.ExtractIngredientsFromText | src/services/geminiService.js:232-249 | The loop returns exactly the specification list: the non-blank lines, each stripped of a bullet, a numbering and an "ingredient:" label and trimmed, kept when longer than two characters |
| GeminiClient.FallbackIngredientsClean | src/services/geminiService.js:237-245 | Every fallback ingredient is trimmed and has more than two characters |
| GeminiClient.FallbackReadsPlainList | src/services/geminiService.js:232-249 | Plain names joined by newlines are read back as exactly those names, in order |
| GeminiClient.CleanBulletedName | src/services/geminiService.js:238 | A bullet (`-`, `*`, `•`) and the spaces after it are removed from a name |
| GeminiClient.CleanNumberedName | src/services/geminiService.js:239 | A numbering such as "12." and the spaces after it are removed from a name |
| GeminiClient.CleanLabelledName | src/services/geminiService.js:240 | An "ingredient:" label in any letter case, and the spaces after it, is removed from a name |
| GeminiClient.AnalyzeIngredientsFromImage | src/services/geminiService.js:18-83 | Without an API key it fails with the configuration message; every failure message is one of the four analysis messages |
| GeminiClient.AnalysisParsesEnclosedArray | src/services/geminiService.js:34-65 | An array with prose around it reaches the parser exactly. The parsed value is the result, and a parse error becomes the translated message |
| GeminiClient.AnalysisFallsBackOnPlainText | src/services/geminiService.js:60-69 | An answer with no [...] span (no '[' before a later ']') gives the line-by-line fallback list of trimmed names of three or more characters |
| GeminiClient.AnalysisFallsBackWithoutBracket | src/services/geminiService.js:60-69 | In particular an answer without '[' gives the fallback list |
| GeminiClient.AnalysisReportsReadError | src/services/geminiService.js:32-81 | A file that cannot be read fails with the analysis translation of the reader's message |
| GeminiClient.AnalysisReportsModelError | src/services/geminiService.js:53-81 | A failing model call fails with the analysis translation of its message; an invalid key gives the invalid-key message |
| GeminiClient.GenerateRecipe | src/services/geminiService.js:88-196 | Without a key: the configuration message. A failure message is never empty. A success is an object carrying `createdAt` and `originalIngredients` equal to the inputs |
| GeminiClient.GenerateReadsSpan | src/services/geminiService.js:160-194 | When the cleaned answer has a widest `{...}` span, a span that parses gives the parsed value spread and stamped with the time and the ingredients, and a span that does not gives the parser's error as translated |
| GeminiClient.GenerateReportsJsonError | src/services/geminiService.js:166-191 | A parser error that mentions "JSON", and no invalid key or busy service, is reported as the parse-failure message |
| GeminiClient.GenerateParsesFencedRecipe | src/services/geminiService.js:159-175 | An object fenced with "```json" reaches the parser without the fences, and all of its fields except the two stamped ones survive |
| GeminiClient.GenerateRejectsTextWithoutSpan | src/services/geminiService.js:166-179 | An answer whose cleaned text has no {...} span fails with "Invalid recipe format received from AI", which the catch block passes on unchanged |
| GeminiClient.GenerateRejectsTextWithoutObject | src/services/geminiService.js:166-179 | In particular an answer without '{' fails with the invalid-format message |
| GeminiClient.GenerateReportsModelError | src/services/geminiService.js:153-194 | A failing model call fails with the generation translation of its message; an invalid key gives the invalid-key message |
| GeminiClient.SequencedInOrder | src/services/geminiService.js:205-212 | A successful series holds exactly `n` results, the i-th from the i-th generation |
| GeminiClient.SequencedFailureSticks | src/services/geminiService.js:205-217 | After the first failure no further generation changes the outcome |
| GeminiClient.SequencedFirstError | src/services/geminiService.js:205-217 | A failed series reports the error of its first failing generation, all earlier ones having succeeded |
| GeminiClient.UnconfiguredBatch | src/services/geminiService.js:89-91 | Without an API key, a batch of one or more variations fails with the configuration message; an empty batch succeeds |
| GeminiClient.RunInSequence | src/services/geminiService.js:203-214 | The loop's result equals the specification `Sequenced` for `count` attempts, or none when `count` is at most 0 |
| GeminiClient.GenerateRecipeVariations | src/services/geminiService.js:201-219 | `count` generations, three by default, all of them in order or the first error |
| Messages.TranslateAnalysisError | src/services/geminiService.js:74-81 | "API_KEY_INVALID" gives the invalid-key message; otherwise "503" or "overloaded" gives the busy message; otherwise the generic analysis message |
| Messages.TranslateGenerationError | src/services/geminiService.js:184-194 | Never empty. "API_KEY_INVALID" gives the invalid-key message; otherwise "503" or "overloaded" the busy message; otherwise "JSON" the parse-failure message; otherwise the original message, or the generic one when that is empty |
| Messages.InvalidFormatSurvivesTranslation | src/services/geminiService.js:179-194 | The invalid-format message contains none of the keywords and is passed through unchanged |
| Messages.Shown | src/pages/GenerateRecipe.jsx:92 | The caught error's message when it is non-empty, otherwise the component's fallback text |
| Prompts.ClientRendering | src/services/geminiService.js:107-111 | Five preference texts, none empty |
| Prompts.ClientRenderingUsesDefaults | src/services/geminiService.js:107-111 | For each of the five fields, a missing or empty value renders as its default ("Any", "Medium", "None", "Any", "No Preference") and a non-empty one as itself. Restrictions render as their ", " join when that is non-empty, and as "None" when missing or when the join is empty |
| Prompts.RecipePromptLines | src/services/geminiService.js:102-150 | The prompt's third line lists the ingredients, and lines 6-10 are the five labelled preference lines |
| Prompts.PromptMentionsEverything | src/services/geminiService.js:102-111 | The joined prompt contains the ingredient line and each preference line |
| ResponseText.WidestSpan | src/services/geminiService.js:166 | A span found starts with the opening and ends with the closing delimiter; none is found exactly when no such pair exists |
| ResponseText.WidestSpanOfEnclosed | src/services/geminiService.js:60 | A block with no opening delimiter before it and no closing delimiter after it is the span selected |
| ResponseText.CleanFencesKeepsOut | src/services/geminiService.js:160-163 | Removing fences and trimming cannot introduce a character |
| ResponseText.JsonFencedLikeBare | src/services/geminiService.js:160-163 | A body fenced with "```json" cleans to the same text as the bare body |
| ResponseText.PlainFencedLikeBare | src/services/geminiService.js:160-163 | A body fenced with "```" cleans to the same text as the bare body |
| ResponseText.StampRecipe | src/services/geminiService.js:171-175 | The parsed fields are kept, and `createdAt` and `originalIngredients` are added and win over fields of the same name |
| GeminiFunctions.AnalyzeIngredients | functions/index.js:18-99 | The envelope is kept. The checks run in order: unconfigured gives 500, a non-POST method 405, missing image data 400. A 200 only for a valid request, and it carries `ingredients` |
| GeminiFunctions.AnalysisRequest | functions/index.js:28-53 | The model gets the analysis prompt, the image data and the MIME type, which defaults to "image/jpeg" when falsy |
| GeminiFunctions.AnalysisParsesEnclosedArray | functions/index.js:72-79 | An enclosed array is parsed exactly and answered with 200, or the parser's message with 500 |
| GeminiFunctions.AnalysisFallsBackOnPlainText | functions/index.js:81-89 | An answer with no [...] span is answered with 200 and the fallback list, built with the cleaning as written |
| GeminiFunctions.AnalysisFallsBackWithoutBracket | functions/index.js:81-89 | In particular an answer without '[' is answered with the fallback list |
| GeminiFunctions.AnalysisReportsModelErrorAsIs | functions/index.js:91-96 | A failing model call is answered with 500 and the model's own message |
| GeminiFunctions.ServerFallbackClean | functions/index.js:81-89 | Every fallback ingredient, cleaned as written, is trimmed and longer than two characters |
| GeminiFunctions.ServerFallbackReadsPlainList | functions/index.js:81-89 | Bare names (trimmed, longer than two characters, not starting with a marker character) joined by newlines are read back as exactly those names |
| GeminiFunctions.ServerFallbackOfNumberedLine | functions/index.js:81-89 | A numbered line such as "1. rice" comes out of the fallback as ". rice", dot included |
| GeminiFunctions.NumberedLineKeepsDot | functions/index.js:83 | As written, "1. rice" is cleaned to ". rice": one marker character is removed and the dot stays |
| GeminiFunctions.ServerCleanNumberedName | functions/index.js:83 | The corrected cleaning removes a whole numbering such as "12." and the spaces after it |
| GeminiFunctions.ServerCleanBulletedName | functions/index.js:83 | The corrected cleaning removes a bullet and the spaces after it |
| GeminiFunctions.RestrictionsText | functions/index.js:140 | Never empty on success. It fails (TypeError) exactly when the restrictions are present and neither null nor an array |
| GeminiFunctions.ServerRendering | functions/index.js:139-143 | Five texts on success; it fails exactly when the restrictions text fails |
| GeminiFunctions.ServerRenderingWithoutPreferences | functions/index.js:139-143 | Without preferences every line shows its default |
| GeminiFunctions.ServerRenderingMatchesClient | functions/index.js:139-143 | Preferences sent as JSON by the browser render to the same five texts on the server as on the client |
| GeminiFunctions.GenerateRecipe | functions/index.js:104-218 | The envelope is kept. Unconfigured gives 500, non-POST 405, a missing or empty ingredient array 400. A 200 carries a recipe stamped with the call time and the request's ingredient array |
| GeminiFunctions.RecipeFromIngredients | functions/index.js:130-215 | Only 200 or 500. A failing preference rendering is a 500 with its message. A 200 carries the stamped recipe |
| GeminiFunctions.RecipeFromRendering | functions/index.js:184-215 | Only 200 or 500, and a 200 carries the stamped recipe |
| GeminiFunctions.RecipeFromAnswer | functions/index.js:190-215 | No `{...}` span in the cleaned answer: 500 with "Invalid recipe format received from AI". A span that parses: 200 with the parsed value spread and stamped with `createdAt` and the ingredient array. A span that does not parse: 500 with the parser's message |
| GeminiFunctions.ServerParsesFencedRecipe | functions/index.js:104-205 | A recipe object fenced with "```json" is answered with 200; its fields survive next to the two stamped ones, `originalIngredients` being the request's array |
| GeminiFunctions.ServerReportsModelErrorAsIs | functions/index.js:210-215 | The model's error is answered with 500 and its own message, untranslated |
| GeminiFunctions.ServerRejectsTextWithoutObject | functions/index.js:195-208 | An answer without '{' is a 500 with "Invalid recipe format received from AI" |
| GeminiFunctions.ServerRejectsNonArrayRestrictions | functions/index.js:139-143 | Text-valued dietary restrictions make the handler fail with the TypeError before the model is asked |
| RecipeService.SavedRecord | src/services/recipeService.js:24-30 | The stored record has the recipe's keys plus `userId`, `savedAt`, `rating: 0`, `reviews: []`; those four win and every other field is kept |
| RecipeService.Tagged | src/services/recipeService.js:74-77 | `{ id, ...data }`: every field of the data is kept; `id` is the document id unless the data has one |
| RecipeService.Incremented | src/services/recipeService.js:36-39 | `increment(delta)` adds to a numeric field and sets a missing one to delta; other fields unchanged |
| RecipeService.IncrementedCounter | src/services/recipeService.js:36-39 | The counter moves by exactly delta, and no other counter moves |
| RecipeService.SaveThenDeleteCounters | src/services/recipeService.js:35-39 | Saving and then deleting a recipe restores `recipesSaved` and leaves `recipesGenerated` one higher |
| RecipeService.ReviewsAfter | src/services/recipeService.js:144-150 | The new reviews are the argument's own reviews followed by the argument stamped with `createdAt`. A truthy non-array, non-text `reviews` fails |
| RecipeService.OwnedIds | src/services/recipeService.js:63 | An id is kept exactly when it is listed and its document belongs to the user |
| RecipeService.OwnedIdsDistinct | src/services/recipeService.js:63-78 | Filtering distinct ids keeps them distinct |
| RecipeService.CollectOwned | src/services/recipeService.js:69-78 | The `forEach` loop collects exactly the user's documents, tagged with their ids, in listing order |
| RecipeService.InsertByRecencyPermutes | src/services/recipeService.js:81-85 | Insertion adds exactly the one record |
| RecipeService.InsertByRecencyOrdered | src/services/recipeService.js:81-85 | Insertion keeps the list most recent first |
| RecipeService.ByRecencyCorrect | src/services/recipeService.js:81-85 | The sort orders by `savedAt`, else `createdAt`, else 0, most recent first, and is a permutation |
| RecipeService.SortByRecency | src/services/recipeService.js:81-85 | The sorting method returns the specification sort |
| RecipeService.InsertByRecencyAtRecency | src/services/recipeService.js:81-85 | Inserting into a sorted list puts the record after every record of the same recency |
| RecipeService.ByRecencyStable | src/services/recipeService.js:81-85 | The sort is stable: the records sharing a recency come out in the order they went in |
| RecipeService.SavedRecipesOfExactly | src/services/recipeService.js:53-96 | The fetched list is sorted, and a record is in it exactly when it is one of the user's documents tagged with its id |
| RecipeService.RecipeStore.SaveRecipe | src/services/recipeService.js:19-48 | On a fault: the save message, nothing changed. Otherwise the record is added under the new id and listed last. Both counters of the profile go up by one, and the result is the tagged record. Without a profile the document stays and the save message is returned |
| RecipeService.RecipeStore.GetSavedRecipes | src/services/recipeService.js:53-96 | On a fault: "Failed to fetch saved recipes: " and the error. Otherwise exactly `SavedRecipesOf` |
| RecipeService.RecipeStore.DeleteRecipe | src/services/recipeService.js:101-118 | The document goes and is unlisted (a missing one is no error). `recipesSaved` goes down by one for the caller. A missing profile or a fault gives the delete message |
| RecipeService.RecipeStore.UpdateRecipeRating | src/services/recipeService.js:123-136 | Only `rating` and `lastUpdated` of that document change. A missing document or a fault gives the rating message and changes nothing |
| RecipeService.RecipeStore.AddRecipeReview | src/services/recipeService.js:141-158 | `reviews` becomes `ReviewsAfter` and `lastUpdated` is set. A missing document, a fault or an unspreadable `reviews` gives the review message and changes nothing |
| ManualInput.WithIngredient | src/components/ingredients/ManualInput.jsx:15-22 | Nothing is added exactly when the trimmed text is empty or already listed. Otherwise the list grows by the trimmed text at its end |
| ManualInput.WithIngredientKeepsClean | src/components/ingredients/ManualInput.jsx:15-22 | Adding keeps the list free of duplicates and of empty or untrimmed entries |
| ManualInput.DeleteUndoesAdd | src/components/ingredients/ManualInput.jsx:15-35 | Deleting what was just added restores the list |
| ManualInput.DeleteKeepsOthers | src/components/ingredients/ManualInput.jsx:31-35 | Deleting an entry keeps all others in order |
| ManualInput.IngredientInput.constructor | src/components/ingredients/ManualInput.jsx:12-13 | An empty text field over the page's list |
| ManualInput.IngredientInput.Type | src/components/ingredients/ManualInput.jsx:45 | The field holds the typed text, and the list is unchanged |
| ManualInput.IngredientInput.HandleAdd | src/components/ingredients/ManualInput.jsx:15-22 | The list becomes `WithIngredient` and the field clears, or nothing changes |
| ManualInput.IngredientInput.HandleKeyPress | src/components/ingredients/ManualInput.jsx:24-29 | Only the Enter key adds |
| ManualInput.IngredientInput.HandleDelete | src/components/ingredients/ManualInput.jsx:31-35 | Every entry equal to the deleted one is removed |
| ImageUpload.FileProblem | src/components/ingredients/ImageUpload.jsx:23-33 | Accepted exactly when the type starts with "image/" and the size is at most 5 MiB. The type is checked first |
| ImageUpload.ImageUploader.constructor | src/components/ingredients/ImageUpload.jsx:15-17 | Not loading, no error, no preview |
| ImageUpload.ImageUploader.BeginFileSelect | src/components/ingredients/ImageUpload.jsx:19-36 | No file: nothing. A refused file: its error. Otherwise the error clears, loading starts and the analysis runs |
| ImageUpload.ImageUploader.ShowPreview | src/components/ingredients/ImageUpload.jsx:39-41 | The preview shows the data URL |
| ImageUpload.ImageUploader.FinishFileSelect | src/components/ingredients/ImageUpload.jsx:43-55 | A non-empty list is handed on unchanged. An empty one gives the "No ingredients detected" message, a failure its message or the fallback. Loading ends |
| RecipeFilters.HandleChange | src/components/recipe/RecipeFilters.jsx:21-26 | Exactly the chosen field is set, and the other fields are unchanged |
| RecipeFilters.Displayed | src/components/recipe/RecipeFilters.jsx:39-107 | A missing value is shown as "" (or no restrictions) |
| RecipeFilters.SelectionIsShown | src/components/recipe/RecipeFilters.jsx:21-108 | After a selection, that select shows the chosen value and the others are unchanged |
| RecipeFilters.ReselectingChangesNothing | src/components/recipe/RecipeFilters.jsx:21-108 | Choosing again what a select already shows changes nothing that is displayed |
| RecipeFilters.InitialPreferencesSelectable | src/pages/GenerateRecipe.jsx:40-46 | Each initial preference is one of its select's options (src/utils/constants.js) |
| RecipeFilters.InitialPreferencesRendering | src/pages/GenerateRecipe.jsx:40-46 | The initial preferences reach the prompt as "Any", "medium", "None", "Any", "No Preference" |
| GenerateRecipePage.RecipeWizard.constructor | src/pages/GenerateRecipe.jsx:38-53 | The first step, no ingredients, the initial preferences, no recipe, nothing pending |
| GenerateRecipePage.RecipeWizard.HandleIngredientsExtracted | src/pages/GenerateRecipe.jsx:55-58 | The list is replaced and the error cleared; the rest is unchanged |
| GenerateRecipePage.RecipeWizard.HandleIngredientsChange | src/pages/GenerateRecipe.jsx:60-62 | The list is replaced; the rest is unchanged |
| GenerateRecipePage.RecipeWizard.HandlePreferencesChange | src/pages/GenerateRecipe.jsx:64-66 | The preferences become `HandleChange` of the old ones |
| GenerateRecipePage.RecipeWizard.HandleNext | src/pages/GenerateRecipe.jsx:68-75 | On the first step with no ingredients: only the error. Otherwise the error clears and the wizard moves one step on |
| GenerateRecipePage.RecipeWizard.HandleBack | src/pages/GenerateRecipe.jsx:77-80 | One step back, and the error clears |
| GenerateRecipePage.RecipeWizard.BeginGenerate | src/pages/GenerateRecipe.jsx:82-84 | Loading starts and the error clears |
| GenerateRecipePage.RecipeWizard.FinishGenerate | src/pages/GenerateRecipe.jsx:86-95 | A recipe moves to the last step, unsaved. A failure shows its message or the fallback. Loading ends |
| GenerateRecipePage.RecipeWizard.BeginSave | src/pages/GenerateRecipe.jsx:98-110 | Proceeds exactly when signed in with a recipe. Otherwise it shows the not-signed-in message, then the no-recipe message |
| GenerateRecipePage.RecipeWizard.FinishSave | src/pages/GenerateRecipe.jsx:112-123 | Success marks the recipe saved and shows the success message. A failure shows its message. Saving ends |
| GenerateRecipePage.RecipeWizard.HandleGenerateNew | src/pages/GenerateRecipe.jsx:126-132 | Back to an empty first step with no recipe. The preferences are kept |
| GenerateRecipePage.RecipeWizard.CloseSnackbar | src/pages/GenerateRecipe.jsx:313 | The success message clears |
| GenerateRecipePage.RecipeWizard.PressBack | src/pages/GenerateRecipe.jsx:289-297 | The enabled Back button keeps the wizard on one of its three steps |
| GenerateRecipePage.RecipeWizard.PressNext | src/pages/GenerateRecipe.jsx:298-305 | The enabled Next button always moves to the second step |
| GenerateRecipePage.RecipeWizard.PressGenerate | src/pages/GenerateRecipe.jsx:298-305 | The enabled Generate button reaches the last step with the recipe, or stays on the second step with a non-empty error |
| SavedRecipesPage.WithoutId | src/pages/SavedRecipes.jsx:80 | A recipe is kept exactly when it was listed and its id differs |
| SavedRecipesPage.WithoutIdAppend | src/pages/SavedRecipes.jsx:80 | The filter keeps the order: filtering a concatenation filters each part |
| SavedRecipesPage.CountLabel | src/pages/SavedRecipes.jsx:131 | The count followed by " recipe saved" exactly when it is 1, otherwise " recipes saved" |
| SavedRecipesPage.CountLabelReadsBack | src/pages/SavedRecipes.jsx:131 | The label's digits read back as the count |
| SavedRecipesPage.DescriptionPreview | src/pages/SavedRecipes.jsx:242-243 | No description: nothing. Up to 100 characters: the whole text. Longer: the first 100 followed by "..." |
| SavedRecipesPage.IngredientsPreviewNamesFirstThree | src/pages/SavedRecipes.jsx:252-253 | The preview names each of the first three ingredients. It is the list joined by ", " when there are at most three, and otherwise the first three joined by ", " followed by "..." |
| SavedRecipesPage.SavedRecipesView.constructor | src/pages/SavedRecipes.jsx:34-39 | No recipes, loading, no error, dialog closed |
| SavedRecipesPage.SavedRecipesView.BeginFetch | src/pages/SavedRecipes.jsx:48-50 | Loading starts and the error clears |
| SavedRecipesPage.SavedRecipesView.FinishFetch | src/pages/SavedRecipes.jsx:52-62 | The fetched list, or the error's message or "Failed to load saved recipes". Loading ends |
| SavedRecipesPage.SavedRecipesView.HandleDeleteClick | src/pages/SavedRecipes.jsx:65-68 | The recipe is remembered and the dialog opens |
| SavedRecipesPage.SavedRecipesView.CloseDialog | src/pages/SavedRecipes.jsx:286-297 | The dialog closes unless a delete is in progress |
| SavedRecipesPage.SavedRecipesView.BeginDeleteConfirm | src/pages/SavedRecipes.jsx:70-74 | Proceeds exactly when a recipe is remembered, and then deleting starts and the error clears |
| SavedRecipesPage.SavedRecipesView.FinishDeleteConfirm | src/pages/SavedRecipes.jsx:76-91 | Success drops every listed recipe with that id and closes the dialog. A failure shows its message or "Failed to delete recipe". Deleting ends |

## Left out

- The JSON grammar is not modelled. `JSON.parse` is a parameter
  (`JsonParser`), so the model does not say which texts parse.
- The Gemini SDK, the network and CORS are not modelled. The model's
  answer to each request is a parameter (`Model`). The model name, the
  request's wire format and `console` logging are not modelled.
- `FileReader` and base64 encoding (`fileToBase64`) are not modelled. The
  outcome of reading the file is a parameter, and the preview is a plain
  assignment.
- The HTTP request's parsing, CORS headers and the function runtime are
  not modelled. A request is its method and its parsed body.
- `null` and `undefined` are not told apart: both are modelled as
  `Null`, or as a missing key.
- GeminiClient.GenerateRecipeVariations does not model the one-second
  `setTimeout` between attempts. It does not model a non-integer `count`
  either: the model takes an `Option<int>`.
- RecipeService.RecipeStore is not modelled as Firestore. Document ids
  are a parameter, `serverTimestamp()` is a stamp holding the given
  server time, and a store that cannot be reached fails every call with
  one message (`fault`). Profiles are never created or removed by the
  service.
- RecipeService.Recency does not model invalid dates (NaN). Converting
  `createdAt` to a time is the parameter `dateOf`, and every result is a
  whole number.
- RecipeService.SortByRecency builds a new sequence. JavaScript's
  `Array.prototype.sort` sorts in place. The modelled result is the
  stable order the comparator gives.
- `fetchUserProfile` is not modelled. It lives in
  src/context/AuthContext.jsx, which is not part of this model, and
  catches its own errors.
- The `inputMethod` tabs, rendering, navigation (`handleViewRecipe`,
  the Back to Dashboard button) and the mount effect of the saved-recipes
  page are not modelled.
- SavedRecipesPage.SavedRecipesView.FinishDeleteConfirm filters the
  current list. The handler's closure filters the list it captured when
  it started, which is the same list unless the page refetched in
  between.
- SavedRecipesPage.WithoutId compares ids by value. JavaScript's `!==`
  compares object ids by reference; ids are strings in practice.
- GeminiFunctions.RestrictionsText uses one fixed message for the
  `TypeError` raised on non-array restrictions. The exact text differs
  between JavaScript engines.
- ImageUpload.ImageUploader.BeginFileSelect does not model the drag and
  drop handlers, which pass the dropped file to the same checks.
- GeminiClient.FallbackIngredients, GeminiFunctions.ServerFallback and
  SavedRecipesPage.DescriptionPreview count characters, not UTF-16 code
  units. JavaScript's `length` and `substring` count code units, so a
  character outside the Basic Multilingual Plane counts twice there: "🍅a"
  has length 3 in JavaScript and 2 in the model. The two agree on text
  without such characters.
- Values.Value holds whole numbers only (`Num(n: int)`). Fractions and
  floating point are not modelled, so RecipeService.RecipeStore.UpdateRecipeRating
  cannot be given a rating such as 4.5, and the profile counters are
  whole numbers.
- ImageUpload.ImageUploader.FinishFileSelect and
  GenerateRecipePage.RecipeWizard.HandleIngredientsExtracted take a list
  of strings. The analysis may parse to an array holding other values,
  which the components pass on unchanged; the model does not follow
  such values into the ingredient list.
- RecipeService.RecipeStore lists the matching documents in the store's
  insertion order. Firestore answers a query without `orderBy`
  (src/services/recipeService.js:63) in document-id order. The sort puts
  records of different recency in the same order either way; records
  sharing a recency keep the listing order (RecipeService.ByRecencyStable),
  so their relative order can differ from the one Firestore gives.

## Findings

| source | as written | input that shows it | evidently intended | confidence | as-written member | corrected member |
|---|---|---|---|---|---|---|
| functions/index.js:83 | The fallback cleans a line with `^[-*•\d.]\s*`, a character class that removes one marker character only | The line "1. rice" becomes ". rice" (and "12. rice" becomes "2. rice") | Remove a bullet or a whole numbering such as "12.", as the browser client does at src/services/geminiService.js:238-239 | not executed | GeminiFunctions.NumberedLineKeepsDot | GeminiFunctions.ServerCleanNumberedName |

`GeminiFunctions.ServerCleanLineAsWritten` is the cleaning as written.
The server's fallback (`GeminiFunctions.ServerFallback`, used by
`GeminiFunctions.AnalyzeIngredients`) runs it, so the handler is modelled
as it behaves: `GeminiFunctions.ServerFallbackOfNumberedLine` shows the
dot reaching the answer. `GeminiFunctions.ServerCleanLine` is the
corrected cleaning, with its properties proved beside it.
