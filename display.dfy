/** What the recipe cards and the detail view derive from a record: the picture
    shown, the ingredient chips, the star rows, the YouTube id, and the detail
    view's delayed switch from picture to video. */
module RecipeDisplay {
  import opened Wrappers
  import opened Text
  import opened Types
  import opened Stars
  import opened GeminiService

  /** The picture drawn when a record has none. */
  const PlaceholderImage := "https://images.unsplash.com/photo-1495521821757-a1efb6729352?auto=format&fit=crop&q=80&w=800"

  /** A missing picture or one held as a data URL (a generated one) gets the glowing
      frame and the slow zoom: `!image || image.startsWith('data:')`. */
  predicate IsSpecialImage(image: Option<string>) {
    !Truthy(image) || StartsWith(image.value, "data:")
  }

  /** Every picture the image model produces is drawn as a special one; so is a
      missing picture. */
  lemma {:induction false} GeneratedImagesAreSpecial(reply: ImageReply)
    ensures IsSpecialImage(ImageOf(reply))
    ensures IsSpecialImage(None) && IsSpecialImage(Some(""))
  {
    var url := ImageOf(reply);
    if url.Some? {
      assert url.value[..|ImagePrefix|] == ImagePrefix;
      assert url.value[..5] == ImagePrefix[..5];
    }
  }

  /** `image || placeholder`. */
  function ImageSrc(image: Option<string>): (src: string)
    ensures Truthy(image) ==> src == image.value
    ensures !Truthy(image) ==> src == PlaceholderImage
    ensures src != ""
  {
    if Truthy(image) then image.value else PlaceholderImage
  }

  /** `ingredients.slice(0, 3)`: the chips on a card. */
  function Chips(ingredients: seq<string>): (chips: seq<string>)
    ensures |chips| == if |ingredients| < 3 then |ingredients| else 3
    ensures chips == ingredients[..|chips|]
  {
    if |ingredients| <= 3 then ingredients else ingredients[..3]
  }

  /** The "+N" chip, present only when more than three ingredients are hidden. */
  function MoreChip(ingredients: seq<string>): (n: Option<nat>)
    ensures n.Some? <==> |ingredients| > 3
    ensures n.Some? ==> n.value >= 1
  {
    if |ingredients| > 3 then Some(|ingredients| - 3) else None
  }

  /** The chips and the "+N" count together account for every ingredient, once. */
  lemma {:induction false} ChipsAccountForAll(ingredients: seq<string>)
    ensures |Chips(ingredients)| + MoreChip(ingredients).GetOr(0) == |ingredients|
    ensures MoreChip(ingredients).Some? ==> Chips(ingredients) + ingredients[3..] == ingredients
  {
    if |ingredients| > 3 {
      assert ingredients[..3] + ingredients[3..] == ingredients;
    }
  }

  /** The star row of a card, drawn only when the rating is set and positive
      (`rating && rating > 0`); star `i` (from 0) filled when `i < rating`. */
  function CardStars(rating: Option<int>): (row: Option<seq<bool>>)
    ensures row.Some? <==> rating.Some? && rating.value > 0
    ensures row.Some? ==> |row.value| == 5 && forall i :: 0 <= i < 5 ==> (row.value[i] <==> i < rating.value)
  {
    if rating.Some? && rating.value > 0 then Some(StarRow(rating.value)) else None
  }

  /** The star row of the detail view, always drawn: star `k` (from 1, at index
      `k - 1`) filled when `k <= (rating || 0)`. */
  function DetailStars(rating: Option<int>): (row: seq<bool>)
    ensures |row| == 5 && forall i :: 0 <= i < 5 ==> (row[i] <==> i + 1 <= RatingOrZero(rating))
  {
    StarRow(RatingOrZero(rating))
  }

  /** Card and detail view agree: where the card draws stars it draws the detail
      view's row, and where it draws none the detail view's row is empty. */
  lemma {:induction false} CardAgreesWithDetail(rating: Option<int>)
    ensures CardStars(rating).Some? ==> CardStars(rating).value == DetailStars(rating)
    ensures CardStars(rating).None? ==> FilledCount(DetailStars(rating)) == 0
    ensures 0 <= RatingOrZero(rating) <= 5 ==> FilledCount(DetailStars(rating)) == RatingOrZero(rating)
  {
    StarRowMeaning(RatingOrZero(rating));
  }

  /** `match && match[2].length === 11 ? match[2] : null`, given the group the URL
      pattern captured (None when the pattern did not match). */
  function YoutubeId(capture: Option<string>): (id: Option<string>)
    ensures id.Some? <==> capture.Some? && |capture.value| == 11
    ensures id.Some? ==> id == capture
  {
    if capture.Some? && |capture.value| == 11 then capture else None
  }

  /** The detail view of one record. */
  class DetailView {
    const recipe: Recipe
    var showVideo: bool
    /** The five-second timer, armed on opening when the record has a video. */
    var timerArmed: bool

    /** The timer is only ever armed for a record with a video. */
    predicate Valid()
      reads this
    {
      timerArmed ==> Truthy(recipe.videoUrl)
    }

    constructor (r: Recipe)
      ensures recipe == r && !showVideo && (timerArmed <==> Truthy(r.videoUrl))
      ensures Valid()
    {
      recipe, showVideo, timerArmed := r, false, Truthy(r.videoUrl);
    }

    /** The video takes the picture's place once shown and present. */
    function ShowsVideo(): (shown: bool)
      reads this
      ensures shown ==> showVideo && Truthy(recipe.videoUrl)
      ensures showVideo && Truthy(recipe.videoUrl) ==> shown
    {
      showVideo && Truthy(recipe.videoUrl)
    }

    /** The timer fires, if armed. */
    method TimerFires()
      requires Valid()
      modifies this
      ensures Valid()
      ensures showVideo == (old(showVideo) || old(timerArmed))
      ensures !timerArmed
      ensures old(timerArmed) ==> ShowsVideo()
    {
      if timerArmed {
        showVideo := true;
        timerArmed := false;
      }
    }

    /** The delete button: the record's id is handed to App only once confirmed. */
    method Delete(confirmed: bool) returns (deleted: Option<string>)
      ensures deleted.Some? <==> confirmed
      ensures deleted.Some? ==> deleted.value == recipe.id
    {
      if confirmed {
        return Some(recipe.id);
      }
      return None;
    }
  }
}
