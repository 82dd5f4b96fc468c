/** The older add-recipe form: splits and trims without dropping empty items, and
    falls back to a placeholder picture seeded by the title. */
module AddRecipeModal {
  import opened Wrappers
  import opened Text
  import opened Types

  /** The picture used when no image URL is given. */
  function PlaceholderUrl(title: string): (url: string)
    ensures StartsWith(url, "https://picsum.photos/seed/")
    ensures |url| == |"https://picsum.photos/seed/"| + |title| + |"/800/600"|
    ensures url[|"https://picsum.photos/seed/"|..|url| - |"/800/600"|] == title
    ensures url[|url| - |"/800/600"|..] == "/800/600"
  {
    "https://picsum.photos/seed/" + title + "/800/600"
  }

  /** `imageUrl || placeholder`: the given URL unless it is empty. */
  function ChosenImage(imageUrl: string, title: string): (image: string)
    ensures imageUrl != "" ==> image == imageUrl
    ensures imageUrl == "" ==> image == PlaceholderUrl(title)
    ensures image != ""
  {
    if imageUrl != "" then imageUrl else PlaceholderUrl(title)
  }

  class AddRecipeForm {
    var title: string
    var category: Category
    var ingredients: string
    var instructions: string
    var imageUrl: string

    /** Empty fields and the main course category. */
    constructor ()
      ensures title == "" && category == MainCourse && ingredients == "" && instructions == "" && imageUrl == ""
    {
      title, category, ingredients, instructions, imageUrl := "", MainCourse, "", "", "";
    }

    /** handleSubmit: refused when a required text is empty; otherwise one trimmed item
        per comma-separated piece and per line, empty ones kept, and no preparation
        time, rating, video or favourite flag. */
    method Submit() returns (out: Option<RecipeDraft>)
      ensures out.None? <==> title == "" || ingredients == "" || instructions == ""
      ensures out.Some? ==>
        out.value == RecipeDraft(title, category, SplitTrim(ingredients, ','), SplitTrim(instructions, '\n'),
                                 Some(ChosenImage(imageUrl, title)), None, None, None, None, None)
      ensures out.Some? ==> |out.value.ingredients| == Count(ingredients, ',') + 1
      ensures out.Some? ==> |out.value.instructions| == Count(instructions, '\n') + 1
      ensures out.Some? ==> out.value.image.Some? && out.value.image.value != ""
    {
      if title == "" || ingredients == "" || instructions == "" {
        return None;
      }
      var draft := RecipeDraft(title, category, SplitTrim(ingredients, ','), SplitTrim(instructions, '\n'),
                               Some(ChosenImage(imageUrl, title)), None, None, None, None, None);
      return Some(draft);
    }
  }

  /** Empty items survive: items joined with ", " split back into the same list,
      empty ones included (`a, , b` gives three items). */
  lemma {:induction false} EmptyItemsKept(xs: seq<string>)
    requires |xs| >= 1
    requires forall i :: 0 <= i < |xs| ==> Trimmed(xs[i]) && ',' !in xs[i]
    ensures SplitTrim(Join(xs, ", "), ',') == xs
  {
    assert [','] + " " == ", ";
    SplitTrimJoin(xs, ',', " ");
  }

  /** A lone separator splits into two empty pieces. */
  lemma {:induction false} SplitOfSeparator(sep: char)
    ensures Split([sep], sep) == ["", ""]
  {
    assert [sep][1..] == [];
    assert Split([], sep) == [""];
  }

  /** Trimming a pair trims each of its items. */
  lemma {:induction false} MapTrimPair(a: string, b: string)
    ensures MapTrim([a, b]) == [Trim(a), Trim(b)]
  {
    assert [a, b][1..] == [b];
    assert [b][1..] == [];
  }

  /** A trailing comma yields a trailing empty ingredient: `item,` gives the
      trimmed item and "". */
  lemma {:induction false} TrailingCommaKept(item: string)
    requires ',' !in item
    ensures SplitTrim(item + ",", ',') == [Trim(item), ""]
  {
    SplitOfSeparator(',');
    SplitPrefix(item, [','], ',');
    assert item + "" == item;
    assert Split(item + [','], ',') == [item, ""];
    MapTrimPair(item, "");
    assert Trim("") == "";
  }
}
