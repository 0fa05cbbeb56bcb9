/**
 * Typing ingredients by hand (src/components/ingredients/ManualInput.jsx):
 * the text field's value is the component's own state; the ingredient list
 * belongs to the page and is replaced through `onIngredientsChange`, which
 * the model folds into the same object.
 */
module ManualInput {
  import opened Wrappers
  import opened Text
  import opened Lists

  /** The list after adding the typed text, or `None` when nothing is
      added: the trimmed text is empty or already listed. */
  function WithIngredient(ingredients: seq<string>, input: string): (r: Option<seq<string>>)
    ensures r.None? <==> Trim(input) == "" || Trim(input) in ingredients
    ensures r.Some? ==>
      && |r.value| == |ingredients| + 1
      && r.value[..|ingredients|] == ingredients && r.value[|ingredients|] == Trim(input)
  {
    var item := Trim(input);
    if item != "" && item !in ingredients then Some(ingredients + [item]) else None
  }

  /** Adding keeps the list free of duplicates and of blank or untrimmed
      entries. */
  lemma WithIngredientKeepsClean(ingredients: seq<string>, input: string)
    requires Distinct(ingredients)
    requires forall i :: 0 <= i < |ingredients| ==> ingredients[i] != "" && Trimmed(ingredients[i])
    ensures var r := WithIngredient(ingredients, input);
      r.Some? ==> Distinct(r.value) && forall i :: 0 <= i < |r.value| ==> r.value[i] != "" && Trimmed(r.value[i])
  {
    var r := WithIngredient(ingredients, input);
    if r.Some? {
      var item := Trim(input);
      assert r.value == ingredients + [item];
      assert forall i :: 0 <= i < |ingredients| ==> ingredients[i] != item;
    }
  }

  /** Deleting what was just added gives back the list as it was. */
  lemma DeleteUndoesAdd(ingredients: seq<string>, input: string)
    requires WithIngredient(ingredients, input).Some?
    ensures Without(WithIngredient(ingredients, input).value, Trim(input)) == ingredients
  {
    var item := Trim(input);
    assert Without([item], item) == [];
    WithoutAbsent(ingredients, item);
    WithoutAppend(ingredients, [item], item);
  }

  /** Deleting keeps every other entry, in order, and can only shrink the list. */
  lemma DeleteKeepsOthers(before: seq<string>, x: string, after: seq<string>)
    requires x !in before && x !in after
    ensures Without(before + [x] + after, x) == before + after
  {
    var front := before + [x];
    assert Without(front, x) == before by {
      WithoutAppend(before, [x], x);
      assert Without([x], x) == [];
      WithoutAbsent(before, x);
      assert before + [] == before;
    }
    assert Without(after, x) == after by {
      WithoutAbsent(after, x);
    }
    WithoutAppend(front, after, x);
  }

  const EnterKey := "Enter"

  class IngredientInput {
    /** The text field's value (`inputValue`). */
    var inputValue: string
    /** The page's ingredient list as the component last passed it on. */
    var ingredients: seq<string>

    constructor (ingredients: seq<string>)
      ensures inputValue == "" && this.ingredients == ingredients
    {
      inputValue := "";
      this.ingredients := ingredients;
    }

    /** The user types in the field. */
    method Type(text: string)
      modifies this
      ensures inputValue == text && ingredients == old(ingredients)
    {
      inputValue := text;
    }

    /** `handleAdd`: appends the trimmed text and clears the field, unless
        the text is blank or already listed, in which case nothing changes. */
    method HandleAdd()
      modifies this
      ensures WithIngredient(old(ingredients), old(inputValue)).None? ==>
        ingredients == old(ingredients) && inputValue == old(inputValue)
      ensures WithIngredient(old(ingredients), old(inputValue)).Some? ==>
        ingredients == WithIngredient(old(ingredients), old(inputValue)).value && inputValue == ""
    {
      var next := WithIngredient(ingredients, inputValue);
      if next.Some? {
        ingredients := next.value;
        inputValue := "";
      }
    }

    /** `handleKeyPress`: only the Enter key adds. */
    method HandleKeyPress(key: string)
      modifies this
      ensures key != EnterKey ==> ingredients == old(ingredients) && inputValue == old(inputValue)
      ensures key == EnterKey && WithIngredient(old(ingredients), old(inputValue)).None? ==>
        ingredients == old(ingredients) && inputValue == old(inputValue)
      ensures key == EnterKey && WithIngredient(old(ingredients), old(inputValue)).Some? ==>
        ingredients == WithIngredient(old(ingredients), old(inputValue)).value && inputValue == ""
    {
      if key == EnterKey {
        HandleAdd();
      }
    }

    /** `handleDelete`: removes every entry equal to `x`. */
    method HandleDelete(x: string)
      modifies this
      ensures ingredients == Without(old(ingredients), x) && inputValue == old(inputValue)
    {
      ingredients := Without(ingredients, x);
    }
  }
}
