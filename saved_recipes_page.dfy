/**
 * The saved-recipes page (src/pages/SavedRecipes.jsx): loading the user's
 * recipes, the delete-confirmation dialog, and the texts each recipe card
 * and the header show. The asynchronous handlers are split at their
 * `await`: `Begin…` runs up to the store call, `Finish…` runs once its
 * outcome is known.
 */
module SavedRecipesPage {
  import opened Wrappers
  import opened Text
  import opened Values
  import Messages

  const LoadFallbackMessage := "Failed to load saved recipes"
  const DeleteFallbackMessage := "Failed to delete recipe"

  /** `recipe.id`. */
  function IdOf(recipe: Record): Option<Value> {
    Get(recipe, "id")
  }

  /** `recipes.filter(r => r.id !== id)`. */
  function WithoutId(recipes: seq<Record>, id: Option<Value>): (r: seq<Record>)
    ensures |r| <= |recipes|
    ensures forall x :: x in r <==> x in recipes && IdOf(x) != id
  {
    if recipes == [] then []
    else (if IdOf(recipes[0]) == id then [] else [recipes[0]]) + WithoutId(recipes[1..], id)
  }

  /** The kept recipes stay in their original order: removing an id from
      two lists one after the other is removing it from each. */
  lemma {:induction false} WithoutIdAppend(a: seq<Record>, b: seq<Record>, id: Option<Value>)
    ensures WithoutId(a + b, id) == WithoutId(a, id) + WithoutId(b, id)
  {
    if a == [] {
      assert a + b == b;
    } else {
      assert (a + b)[1..] == a[1..] + b;
      WithoutIdAppend(a[1..], b, id);
    }
  }

  /** `${n} recipe${n !== 1 ? 's' : ''} saved`. */
  function CountLabel(n: nat): (r: string)
    ensures |IntText(n)| < |r| && r[..|IntText(n)|] == IntText(n)
    ensures n == 1 <==> r[|IntText(n)|..] == " recipe saved"
    ensures n != 1 <==> r[|IntText(n)|..] == " recipes saved"
  {
    IntText(n) + (if n != 1 then " recipes saved" else " recipe saved")
  }

  /** The count in the label reads back as the number of recipes. */
  lemma CountLabelReadsBack(n: nat)
    ensures DigitsValue(CountLabel(n)[..|IntText(n)|]) == n
  {
    DecimalRoundTrip(n);
  }

  /** `description?.substring(0, 100)` followed by "..." when the text is
      longer than 100 characters; nothing when there is no description. */
  function DescriptionPreview(description: Option<string>): (r: string)
    ensures description.None? ==> r == ""
    ensures description.Some? && |description.value| <= 100 ==> r == description.value
    ensures description.Some? && |description.value| > 100 ==>
      |r| == 103 && r[..100] == description.value[..100] && r[100..] == "..."
  {
    match description
    case None => ""
    case Some(s) => if |s| > 100 then s[..100] + "..." else s
  }

  /** `originalIngredients?.slice(0, 3).join(', ')` followed by "..." when
      there are more than three. */
  function IngredientsPreview(original: Option<seq<string>>): (r: string)
    ensures original.None? ==> r == ""
  {
    match original
    case None => ""
    case Some(xs) =>
      Join(xs[..if |xs| < 3 then |xs| else 3], ", ") + (if |xs| > 3 then "..." else "")
  }

  /** The preview names each of the first three ingredients. It is every
      ingredient when there are at most three, and otherwise the first three
      followed by "...". */
  lemma IngredientsPreviewNamesFirstThree(xs: seq<string>)
    ensures forall k :: 0 <= k < |xs| && k < 3 ==> Contains(IngredientsPreview(Some(xs)), xs[k])
    ensures |xs| <= 3 ==> IngredientsPreview(Some(xs)) == Join(xs, ", ")
    ensures |xs| > 3 ==> IngredientsPreview(Some(xs)) == Join(xs[..3], ", ") + "..."
  {
    var shown := xs[..if |xs| < 3 then |xs| else 3];
    var tail := if |xs| > 3 then "..." else "";
    forall k | 0 <= k < |xs| && k < 3
      ensures Contains(IngredientsPreview(Some(xs)), xs[k])
    {
      assert shown[k] == xs[k];
      JoinContainsPart(shown, ", ", k);
      ContainsExtended(Join(shown, ", "), xs[k], tail);
    }
    if |xs| <= 3 {
      assert shown == xs;
      assert Join(xs, ", ") + "" == Join(xs, ", ");
    }
  }

  class SavedRecipesView {
    var recipes: seq<Record>
    var loading: bool
    var error: string
    var deleteDialogOpen: bool
    var recipeToDelete: Option<Record>
    var deleting: bool

    constructor ()
      ensures recipes == [] && loading && error == ""
      ensures !deleteDialogOpen && recipeToDelete == None && !deleting
    {
      recipes := [];
      loading := true;
      error := "";
      deleteDialogOpen := false;
      recipeToDelete := None;
      deleting := false;
    }

    /** `fetchRecipes` up to the store call. */
    method BeginFetch()
      modifies this
      ensures loading && error == ""
      ensures recipes == old(recipes) && deleteDialogOpen == old(deleteDialogOpen)
      ensures recipeToDelete == old(recipeToDelete) && deleting == old(deleting)
    {
      loading := true;
      error := "";
    }

    /** `fetchRecipes` after the store call: the list or the error; loading
        ends either way. */
    method FinishFetch(outcome: Result<seq<Record>, string>)
      modifies this
      ensures !loading
      ensures outcome.Success? ==> recipes == outcome.value && error == old(error)
      ensures outcome.Failure? ==>
        recipes == old(recipes) && error == Messages.Shown(outcome.error, LoadFallbackMessage)
      ensures deleteDialogOpen == old(deleteDialogOpen) && recipeToDelete == old(recipeToDelete)
      ensures deleting == old(deleting)
    {
      match outcome {
        case Success(xs) => recipes := xs;
        case Failure(m) => error := Messages.Shown(m, LoadFallbackMessage);
      }
      loading := false;
    }

    /** `handleDeleteClick`: remembers the recipe and opens the dialog. */
    method HandleDeleteClick(recipe: Record)
      modifies this
      ensures recipeToDelete == Some(recipe) && deleteDialogOpen
      ensures recipes == old(recipes) && loading == old(loading) && error == old(error)
      ensures deleting == old(deleting)
    {
      recipeToDelete := Some(recipe);
      deleteDialogOpen := true;
    }

    /** The dialog's close and its Cancel button: nothing happens while a
        delete is in progress. */
    method CloseDialog()
      modifies this
      ensures deleteDialogOpen == (old(deleteDialogOpen) && old(deleting))
      ensures recipes == old(recipes) && loading == old(loading) && error == old(error)
      ensures recipeToDelete == old(recipeToDelete) && deleting == old(deleting)
    {
      if !deleting {
        deleteDialogOpen := false;
      }
    }

    /** `handleDeleteConfirm` up to the store call: nothing happens without
        a recipe to delete. The Delete button is disabled while deleting. */
    method BeginDeleteConfirm() returns (proceed: bool)
      requires !deleting
      modifies this
      ensures proceed <==> old(recipeToDelete).Some?
      ensures !proceed ==> deleting == old(deleting) && error == old(error)
      ensures proceed ==> deleting && error == ""
      ensures recipes == old(recipes) && loading == old(loading)
      ensures deleteDialogOpen == old(deleteDialogOpen) && recipeToDelete == old(recipeToDelete)
    {
      if recipeToDelete.None? {
        return false;
      }
      deleting := true;
      error := "";
      proceed := true;
    }

    /** `handleDeleteConfirm` after the store call: a success drops every
        listed recipe with that id, keeping the rest in order, and closes
        the dialog; a failure shows its message and keeps the list and the
        dialog. Deleting ends either way. */
    method FinishDeleteConfirm(outcome: Outcome<string>)
      requires recipeToDelete.Some?
      modifies this
      ensures !deleting && loading == old(loading)
      ensures outcome.Pass? ==>
        && recipes == WithoutId(old(recipes), IdOf(old(recipeToDelete).value))
        && !deleteDialogOpen && recipeToDelete == None && error == old(error)
      ensures outcome.Fail? ==>
        && recipes == old(recipes) && error == Messages.Shown(outcome.error, DeleteFallbackMessage)
        && deleteDialogOpen == old(deleteDialogOpen) && recipeToDelete == old(recipeToDelete)
    {
      match outcome {
        case Pass =>
          recipes := WithoutId(recipes, IdOf(recipeToDelete.value));
          deleteDialogOpen := false;
          recipeToDelete := None;
        case Fail(m) =>
          error := Messages.Shown(m, DeleteFallbackMessage);
      }
      deleting := false;
    }
  }
}
