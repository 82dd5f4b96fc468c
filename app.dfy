/** The application state of App: the stored recipes, the recipe open in the detail
    view, the form and the image editor, and the handlers that change them. */
module App {
  import opened Wrappers
  import opened Types
  import opened RecipeCollection
  import opened GeminiService

  /** The services a save may consult, in the order it consults them. */
  datatype Service = ImageGeneration | VideoSearch | NutritionAnalysis

  /** A text field after enrichment: the submitted value when truthy, else the
      service's answer when truthy, else the submitted value. */
  function Enriched(submitted: Option<string>, answer: Option<string>): (r: Option<string>)
    ensures Truthy(r) <==> Truthy(submitted) || Truthy(answer)
    ensures Truthy(submitted) || !Truthy(answer) ==> r == submitted
    ensures r == submitted || r == answer
  {
    if !Truthy(submitted) && Truthy(answer) then answer else submitted
  }

  /** The nutrition after enrichment. Any object is truthy, `{}` included. */
  function EnrichedNutrition(submitted: Option<Nutrition>, answer: Option<Nutrition>): (r: Option<Nutrition>)
    ensures r.Some? <==> submitted.Some? || answer.Some?
    ensures submitted.Some? || answer.None? ==> r == submitted
    ensures r == submitted || r == answer
  {
    if submitted.None? && answer.Some? then answer else submitted
  }

  /** The record a save creates: the draft with the enriched fields, the given id and
      date, and not a favourite whatever the draft says. */
  function NewRecipe(d: RecipeDraft, id: string, now: int, image: Option<string>,
                     videoUrl: Option<string>, nutrition: Option<Nutrition>): (r: Recipe)
    ensures r.id == id && r.createdAt == now && r.isFavorite == Some(false)
    ensures r.title == d.title && r.category == d.category
    ensures r.ingredients == d.ingredients && r.instructions == d.instructions
    ensures r.prepTime == d.prepTime && r.rating == d.rating
    ensures r.image == image && r.videoUrl == videoUrl && r.nutrition == nutrition
  {
    Recipe(id, d.title, d.category, d.ingredients, d.instructions, image, now,
           Some(false), d.prepTime, videoUrl, d.rating, nutrition)
  }

  /** The enrichment step of a save, without the store: each empty field is asked of
      its service, in order, and an answer replaces it only when it is truthy. */
  method Enrich(d: RecipeDraft, imageReply: ImageReply, videoReply: TextReply, nutritionReply: JsonReply<Nutrition>)
    returns (image: Option<string>, videoUrl: Option<string>, nutrition: Option<Nutrition>, consulted: seq<Service>)
    ensures image == Enriched(d.image, ImageOf(imageReply))
    ensures videoUrl == Enriched(d.videoUrl, SearchRecipeVideo(videoReply))
    ensures nutrition == EnrichedNutrition(d.nutrition, GetNutritionInfo(nutritionReply))
    ensures consulted ==
      (if Truthy(d.image) then [] else [ImageGeneration]) +
      (if Truthy(d.videoUrl) then [] else [VideoSearch]) +
      (if d.nutrition.Some? then [] else [NutritionAnalysis])
  {
    image, videoUrl, nutrition, consulted := d.image, d.videoUrl, d.nutrition, [];
    if !Truthy(image) {
      consulted := consulted + [ImageGeneration];
      var generated := GenerateRecipeImage(imageReply);
      if Truthy(generated) {
        image := generated;
      }
    }
    assert image == Enriched(d.image, ImageOf(imageReply));
    ghost var afterImage := consulted;
    if !Truthy(videoUrl) {
      consulted := consulted + [VideoSearch];
      var found := SearchRecipeVideo(videoReply);
      if Truthy(found) {
        videoUrl := found;
      }
    }
    assert videoUrl == Enriched(d.videoUrl, SearchRecipeVideo(videoReply));
    ghost var afterVideo := consulted;
    assert afterVideo == afterImage + (if Truthy(d.videoUrl) then [] else [VideoSearch]);
    if nutrition.None? {
      consulted := consulted + [NutritionAnalysis];
      var facts := GetNutritionInfo(nutritionReply);
      if facts.Some? {
        nutrition := facts;
      }
    }
  }

  /** When the analysis answers with no text, the `{}` it parses to is stored: the
      record then has a nutrition object with none of the facts. */
  lemma {:induction false} EmptyAnalysisIsStored(d: RecipeDraft)
    requires d.nutrition.None?
    ensures EnrichedNutrition(d.nutrition, GetNutritionInfo(NoText)) == Some(EmptyObject)
  {
  }

  /** The edit form sends no nutrition, so an edit always asks for a new analysis and
      stores its answer; when the analysis fails, the stored facts are erased. */
  lemma {:induction false} EditDropsNutritionOnFailedAnalysis(rs: seq<Recipe>, id: string, d: RecipeDraft,
                                                             image: Option<string>, videoUrl: Option<string>)
    requires d.nutrition.None?
    ensures var out := UpdateWhere(rs, id, Overlay(d, image, videoUrl, EnrichedNutrition(d.nutrition, GetNutritionInfo(JsonFailed))));
      forall i :: 0 <= i < |rs| && rs[i].id == id ==> out[i].nutrition.None?
  {
    var n := EnrichedNutrition(d.nutrition, GetNutritionInfo(JsonFailed));
    assert n.None?;
    EditOverlay(rs, id, d, image, videoUrl, n);
  }

  class RecipeBook {
    var recipes: seq<Recipe>
    /** The recipe open in the detail view, as it was when opened. */
    var selected: Option<Recipe>
    var recipeToEdit: Option<Recipe>
    var formOpen: bool
    var imageToEdit: Option<Recipe>

    /** The state after loading the stored list. */
    constructor (stored: seq<Recipe>)
      ensures recipes == stored && selected.None? && recipeToEdit.None? && !formOpen && imageToEdit.None?
    {
      recipes := stored;
      selected := None;
      recipeToEdit := None;
      formOpen := false;
      imageToEdit := None;
    }

    /** The record the detail view shows: the stored copy of the selected recipe, or the
        selected snapshot itself once the store no longer has its id. */
    function Shown(): (r: Option<Recipe>)
      reads this
      ensures r.None? <==> selected.None?
      ensures r.Some? ==> r.value.id == selected.value.id
      ensures r.Some? ==> (r.value in recipes <==> HasId(recipes, selected.value.id)) || r.value == selected.value
      ensures r.Some? && HasId(recipes, selected.value.id) ==> r == FindById(recipes, selected.value.id)
      ensures r.Some? && !HasId(recipes, selected.value.id) ==> r.value == selected.value
    {
      match selected
      case None => None
      case Some(s) => Some(FindById(recipes, s.id).GetOr(s))
    }

    /** Opening a recipe in the detail view. */
    method Select(r: Recipe)
      modifies this
      ensures selected == Some(r)
      ensures recipes == old(recipes) && recipeToEdit == old(recipeToEdit)
      ensures formOpen == old(formOpen) && imageToEdit == old(imageToEdit)
    {
      selected := Some(r);
    }

    /** handleSaveRecipe: enrich, then update the record `existingId` names (when it is
        truthy) or prepend a new record; close the form. */
    method SaveRecipe(d: RecipeDraft, existingId: Option<string>, freshId: string, now: int,
                      imageReply: ImageReply, videoReply: TextReply, nutritionReply: JsonReply<Nutrition>)
      returns (consulted: seq<Service>)
      modifies this
      ensures var image := Enriched(d.image, ImageOf(imageReply));
        var videoUrl := Enriched(d.videoUrl, SearchRecipeVideo(videoReply));
        var nutrition := EnrichedNutrition(d.nutrition, GetNutritionInfo(nutritionReply));
        recipes == if Truthy(existingId)
          then UpdateWhere(old(recipes), existingId.value, Overlay(d, image, videoUrl, nutrition))
          else Prepend(NewRecipe(d, freshId, now, image, videoUrl, nutrition), old(recipes))
      ensures Truthy(existingId) ==> |recipes| == |old(recipes)|
      ensures !Truthy(existingId) ==> |recipes| == |old(recipes)| + 1 && recipes[0].id == freshId
      ensures UniqueIds(old(recipes)) && (Truthy(existingId) || !HasId(old(recipes), freshId)) ==> UniqueIds(recipes)
      ensures !formOpen && recipeToEdit.None?
      ensures selected == old(selected) && imageToEdit == old(imageToEdit)
    {
      var image, videoUrl, nutrition;
      image, videoUrl, nutrition, consulted := Enrich(d, imageReply, videoReply, nutritionReply);
      if Truthy(existingId) {
        UpdateKeepsIds(recipes, existingId.value, Overlay(d, image, videoUrl, nutrition));
        recipes := UpdateWhere(recipes, existingId.value, Overlay(d, image, videoUrl, nutrition));
      } else {
        var created := NewRecipe(d, freshId, now, image, videoUrl, nutrition);
        if UniqueIds(recipes) {
          PrependUnique(created, recipes);
        }
        recipes := Prepend(created, recipes);
      }
      formOpen := false;
      recipeToEdit := None;
    }

    /** handleDeleteRecipe: remove every record with the id; close the detail view
        when it shows that recipe. */
    method DeleteRecipe(id: string)
      modifies this
      ensures recipes == RemoveId(old(recipes), id)
      ensures !HasId(recipes, id)
      ensures UniqueIds(old(recipes)) ==> UniqueIds(recipes)
      ensures selected == if old(selected).Some? && old(selected).value.id == id then None else old(selected)
      ensures Shown().None? || Shown().value.id != id
      ensures recipeToEdit == old(recipeToEdit) && formOpen == old(formOpen) && imageToEdit == old(imageToEdit)
    {
      if UniqueIds(recipes) {
        RemoveKeepsUnique(recipes, id);
      }
      recipes := RemoveId(recipes, id);
      if selected.Some? && selected.value.id == id {
        selected := None;
      }
    }

    /** toggleFavorite: flip the flag of the record with the id; the detail view
        follows, since it shows the stored copy. */
    method ToggleFavorite(id: string)
      modifies this
      ensures recipes == UpdateWhere(old(recipes), id, FlipFavorite)
      ensures UniqueIds(old(recipes)) ==> UniqueIds(recipes)
      ensures old(selected).Some? && old(selected).value.id == id && HasId(old(recipes), id) ==>
        Shown() == Some(Patched(FindById(old(recipes), id).value, FlipFavorite))
      ensures selected == old(selected) && recipeToEdit == old(recipeToEdit)
      ensures formOpen == old(formOpen) && imageToEdit == old(imageToEdit)
    {
      UpdateKeepsIds(recipes, id, FlipFavorite);
      FindAfterUpdate(recipes, id, FlipFavorite);
      recipes := UpdateWhere(recipes, id, FlipFavorite);
    }

    /** handleEditClick: open the form on the recipe and close the detail view. */
    method EditClick(r: Recipe)
      modifies this
      ensures recipeToEdit == Some(r) && formOpen && selected.None?
      ensures recipes == old(recipes) && imageToEdit == old(imageToEdit)
    {
      recipeToEdit := Some(r);
      formOpen := true;
      selected := None;
    }

    /** The "+" button: open the form for a new recipe. */
    method AddClick()
      modifies this
      ensures recipeToEdit.None? && formOpen
      ensures recipes == old(recipes) && selected == old(selected) && imageToEdit == old(imageToEdit)
    {
      recipeToEdit := None;
      formOpen := true;
    }

    /** Closing the form without saving. */
    method CloseForm()
      modifies this
      ensures !formOpen && recipeToEdit.None?
      ensures recipes == old(recipes) && selected == old(selected) && imageToEdit == old(imageToEdit)
    {
      formOpen := false;
      recipeToEdit := None;
    }

    /** The image editor is shown only for a recipe that has a truthy image. */
    predicate EditorShown()
      reads this
    {
      imageToEdit.Some? && Truthy(imageToEdit.value.image)
    }

    method OpenImageEditor(r: Recipe)
      modifies this
      ensures imageToEdit == Some(r)
      ensures EditorShown() <==> Truthy(r.image)
      ensures recipes == old(recipes) && selected == old(selected)
      ensures recipeToEdit == old(recipeToEdit) && formOpen == old(formOpen)
    {
      imageToEdit := Some(r);
    }

    /** handleUpdateImage: store the new image, mirror it in the selected snapshot when
        it is that recipe, and close the editor. */
    method UpdateImage(id: string, newImage: string)
      modifies this
      ensures recipes == UpdateWhere(old(recipes), id, SetImage(newImage))
      ensures selected == if old(selected).Some? && old(selected).value.id == id
        then Some(old(selected).value.(image := Some(newImage))) else old(selected)
      ensures Shown().Some? && Shown().value.id == id ==> Shown().value.image == Some(newImage)
      ensures imageToEdit.None? && !EditorShown()
      ensures UniqueIds(old(recipes)) ==> UniqueIds(recipes)
      ensures recipeToEdit == old(recipeToEdit) && formOpen == old(formOpen)
    {
      UpdateKeepsIds(recipes, id, SetImage(newImage));
      FindAfterUpdate(recipes, id, SetImage(newImage));
      recipes := UpdateWhere(recipes, id, SetImage(newImage));
      if selected.Some? && selected.value.id == id {
        selected := Some(selected.value.(image := Some(newImage)));
      }
      imageToEdit := None;
    }

    /** The rating handler of the detail view: store the rating and mirror it in the
        selected snapshot when it is that recipe. No range check is made. */
    method UpdateRating(id: string, rating: int)
      modifies this
      ensures recipes == UpdateWhere(old(recipes), id, SetRating(rating))
      ensures selected == if old(selected).Some? && old(selected).value.id == id
        then Some(old(selected).value.(rating := Some(rating))) else old(selected)
      ensures Shown().Some? && Shown().value.id == id ==> Shown().value.rating == Some(rating)
      ensures recipeToEdit == old(recipeToEdit) && formOpen == old(formOpen) && imageToEdit == old(imageToEdit)
    {
      var before := recipes;
      var after := UpdateWhere(before, id, SetRating(rating));
      FindAfterUpdate(before, id, SetRating(rating));
      recipes := after;
      if selected.Some? && selected.value.id == id {
        selected := Some(selected.value.(rating := Some(rating)));
        assert HasId(after, id) ==> FindById(after, id).value.rating == Some(rating);
      }
    }

    /** Closing the detail view. */
    method CloseDetail()
      modifies this
      ensures selected.None? && Shown().None?
      ensures recipes == old(recipes) && recipeToEdit == old(recipeToEdit)
      ensures formOpen == old(formOpen) && imageToEdit == old(imageToEdit)
    {
      selected := None;
    }
  }
}
