/** The recipe form used for creating and editing: text fields loaded from the
    recipe being edited, the star rating, and the parsing done on submit. */
module RecipeFormModal {
  import opened Wrappers
  import opened Text
  import opened Types
  import opened Stars

  /** The text the ingredient field is loaded with: `join(', ')`. */
  function IngredientsText(ingredients: seq<string>): string {
    Join(ingredients, ", ")
  }

  /** The text the step field is loaded with: `join('\n')`. */
  function InstructionsText(instructions: seq<string>): string {
    Join(instructions, "\n")
  }

  /** Ingredients: split on `,`, trimmed, empty items dropped. */
  function ParseIngredients(text: string): (items: seq<string>)
    ensures forall i :: 0 <= i < |items| ==> items[i] != "" && Trimmed(items[i]) && ',' !in items[i]
  {
    SplitTrimNonEmpty(text, ',')
  }

  /** Steps: split on newlines, trimmed, empty lines dropped. */
  function ParseInstructions(text: string): (steps: seq<string>)
    ensures forall i :: 0 <= i < |steps| ==> steps[i] != "" && Trimmed(steps[i]) && '\n' !in steps[i]
  {
    SplitTrimNonEmpty(text, '\n')
  }

  /** Lists whose items are trimmed, non-empty and free of the separator survive the
      load-edit-submit cycle unchanged. */
  lemma {:induction false} EditRoundTrip(ingredients: seq<string>, instructions: seq<string>)
    requires |ingredients| >= 1 && forall i :: 0 <= i < |ingredients| ==>
      ingredients[i] != "" && Trimmed(ingredients[i]) && ',' !in ingredients[i]
    requires |instructions| >= 1 && forall i :: 0 <= i < |instructions| ==>
      instructions[i] != "" && Trimmed(instructions[i]) && '\n' !in instructions[i]
    ensures ParseIngredients(IngredientsText(ingredients)) == ingredients
    ensures ParseInstructions(InstructionsText(instructions)) == instructions
  {
    assert [','] + " " == ", ";
    ParseJoinRoundTrip(ingredients, ',', " ");
    assert ['\n'] + "" == "\n";
    ParseJoinRoundTrip(instructions, '\n', "");
  }

  /** A field loads empty exactly when the list is empty or holds one empty item;
      the submit guard refuses an empty field, so such a recipe cannot be saved again
      unchanged. */
  lemma {:induction false} EmptyListLoadsEmpty(xs: seq<string>)
    ensures IngredientsText(xs) == "" <==> xs == [] || xs == [""]
    ensures InstructionsText(xs) == "" <==> xs == [] || xs == [""]
  {
  }

  /** A field of blanks and separators only passes the guard, since it is not empty,
      yet parses to no items. */
  lemma {:induction false} BlankFieldParsesEmpty(ingredientsText: string, instructionsText: string)
    requires OnlySpaceAndSep(ingredientsText, ',') && OnlySpaceAndSep(instructionsText, '\n')
    ensures ParseIngredients(ingredientsText) == [] && ParseInstructions(instructionsText) == []
  {
    BlankParsesToNothing(ingredientsText, ',');
    BlankParsesToNothing(instructionsText, '\n');
  }

  /** What a submission hands to App: the draft, and the id of the recipe edited. */
  datatype Submission = Submission(draft: RecipeDraft, existingId: Option<string>)

  class RecipeForm {
    var title: string
    var category: Category
    var prepTime: string
    var ingredients: string
    var instructions: string
    var imageUrl: string
    var videoUrl: string
    var rating: int
    /** The id of the recipe being edited; None for a new recipe. */
    const editedId: Option<string>

    /** The initial state: the edited recipe's fields, or empty fields and the main
        course category for a new recipe. */
    constructor (initial: Option<Recipe>)
      ensures editedId == if initial.Some? then Some(initial.value.id) else None
      ensures initial.None? ==>
        title == "" && category == MainCourse && prepTime == "" && ingredients == "" &&
        instructions == "" && imageUrl == "" && videoUrl == "" && rating == 0
      ensures initial.Some? ==>
        title == initial.value.title && category == initial.value.category &&
        prepTime == initial.value.prepTime.GetOr("") &&
        ingredients == IngredientsText(initial.value.ingredients) &&
        instructions == InstructionsText(initial.value.instructions) &&
        imageUrl == initial.value.image.GetOr("") && videoUrl == initial.value.videoUrl.GetOr("") &&
        rating == RatingOrZero(initial.value.rating)
    {
      match initial
      case None =>
        title, category, prepTime, ingredients, instructions := "", MainCourse, "", "", "";
        imageUrl, videoUrl, rating, editedId := "", "", 0, None;
      case Some(r) =>
        title, category, prepTime := r.title, r.category, r.prepTime.GetOr("");
        ingredients, instructions := IngredientsText(r.ingredients), InstructionsText(r.instructions);
        imageUrl, videoUrl, rating, editedId := r.image.GetOr(""), r.videoUrl.GetOr(""), RatingOrZero(r.rating), Some(r.id);
    }

    predicate RatingInRange()
      reads this
    {
      0 <= rating <= 5
    }

    /** The star row drawn: star `k` (from 1) filled when `k <= rating`. */
    function DrawnStars(): (row: seq<bool>)
      reads this
      ensures RatingInRange() ==> FilledCount(row) == rating
    {
      StarRowMeaning(rating);
      StarRow(rating)
    }

    /** Clicking star `star` of the five. */
    method ClickStar(star: int)
      requires 1 <= star <= 5
      modifies this
      ensures rating == star && RatingInRange()
      ensures title == old(title) && ingredients == old(ingredients) && instructions == old(instructions)
      ensures category == old(category) && prepTime == old(prepTime)
      ensures imageUrl == old(imageUrl) && videoUrl == old(videoUrl)
    {
      rating := star;
    }

    /** The Clear button, shown only while a rating is set. */
    method ClearRating()
      modifies this
      ensures rating == if old(rating) > 0 then 0 else old(rating)
      ensures old(RatingInRange()) ==> RatingInRange()
      ensures title == old(title) && ingredients == old(ingredients) && instructions == old(instructions)
      ensures category == old(category) && prepTime == old(prepTime)
      ensures imageUrl == old(imageUrl) && videoUrl == old(videoUrl)
    {
      if rating > 0 {
        rating := 0;
      }
    }

    /** handleSubmit: refused when the title, the ingredient text or the step text is
        empty; otherwise the parsed draft with the edited recipe's id. */
    method Submit() returns (out: Option<Submission>)
      ensures out.None? <==> title == "" || ingredients == "" || instructions == ""
      ensures out.Some? ==> out.value.existingId == editedId
      ensures out.Some? ==>
        out.value.draft == RecipeDraft(title, category, ParseIngredients(ingredients), ParseInstructions(instructions),
                                       Some(imageUrl), None, Some(prepTime), Some(videoUrl), Some(rating), None)
      ensures out.Some? && OnlySpaceAndSep(ingredients, ',') ==> out.value.draft.ingredients == []
      ensures out.Some? && RatingInRange() ==> 0 <= out.value.draft.rating.value <= 5
    {
      if title == "" || ingredients == "" || instructions == "" {
        return None;
      }
      if OnlySpaceAndSep(ingredients, ',') {
        BlankParsesToNothing(ingredients, ',');
      }
      var draft := RecipeDraft(title, category, ParseIngredients(ingredients), ParseInstructions(instructions),
                               Some(imageUrl), None, Some(prepTime), Some(videoUrl), Some(rating), None);
      return Some(Submission(draft, editedId));
    }
  }
}
