/** Post-processing of the generative model's answers. The requests themselves are
    outside the model: each call is represented by the reply it produced. */
module GeminiService {
  import opened Wrappers
  import opened Text
  import opened Types

  /** One part of an answer; `inlineData` is the base64 data of an image part. */
  datatype Part = Part(inlineData: Option<string>)

  /** An image request: it threw, or the parts of its first candidate
      (`[]` when the answer has no candidate or no content). */
  datatype ImageReply = ImageFailed | ImageParts(parts: seq<Part>)

  /** A request answered in plain text: it threw, or the text (None when absent). */
  datatype TextReply = TextFailed | TextAnswer(text: Option<string>)

  /** A request answered in JSON: it threw; the text was absent or empty; the text
      did not parse; or it parsed to `value`. */
  datatype JsonReply<T> = JsonFailed | NoText | Unparsable | Parsed(value: T)

  const ImagePrefix := "data:image/png;base64,"

  /** The data URL of the first part that carries inline data. */
  function InlineImage(parts: seq<Part>): (url: Option<string>)
    ensures url.None? <==> forall i :: 0 <= i < |parts| ==> parts[i].inlineData.None?
    ensures url.Some? ==> StartsWith(url.value, ImagePrefix)
  {
    if parts == [] then None
    else if parts[0].inlineData.Some? then Some(ImagePrefix + parts[0].inlineData.value)
    else InlineImage(parts[1..])
  }

  /** The image chosen is the one of the first part with inline data; later parts are ignored. */
  lemma {:induction false} InlineImageIsFirst(parts: seq<Part>, k: nat)
    requires k < |parts| && parts[k].inlineData.Some?
    requires forall j :: 0 <= j < k ==> parts[j].inlineData.None?
    ensures InlineImage(parts) == Some(ImagePrefix + parts[k].inlineData.value)
  {
    if k > 0 {
      InlineImageIsFirst(parts[1..], k - 1);
    }
  }

  /** The loop over the parts of an answer, returning at the first image part. */
  method FirstInlineImage(parts: seq<Part>) returns (url: Option<string>)
    ensures url == InlineImage(parts)
  {
    for i := 0 to |parts|
      invariant InlineImage(parts[i..]) == InlineImage(parts)
    {
      assert parts[i..][1..] == parts[i + 1..];
      if parts[i].inlineData.Some? {
        return Some(ImagePrefix + parts[i].inlineData.value);
      }
    }
    return None;
  }

  /** The image an image request yields: None when it threw or carried no image. */
  function ImageOf(reply: ImageReply): (url: Option<string>)
    ensures reply.ImageFailed? ==> url.None?
    ensures url.Some? ==> StartsWith(url.value, ImagePrefix) && url.value != ""
  {
    match reply
    case ImageFailed => None
    case ImageParts(parts) => InlineImage(parts)
  }

  /** generateRecipeImage: the first inline image of the answer, None when there is none or the request threw. */
  method GenerateRecipeImage(reply: ImageReply) returns (url: Option<string>)
    ensures url == ImageOf(reply)
  {
    match reply
    case ImageFailed => url := None;
    case ImageParts(parts) => url := FirstInlineImage(parts);
  }

  /** `dataUrl.split(',')[1]`: the text between the first and the second comma, or
      undefined when there is no comma. */
  function DataPayload(dataUrl: string): (payload: Option<string>)
    ensures payload.Some? <==> Count(dataUrl, ',') >= 1
    ensures payload.Some? ==> ',' !in payload.value
  {
    var pieces := Split(dataUrl, ',');
    if |pieces| >= 2 then Some(pieces[1]) else None
  }

  /** Whatever comes before the first comma, the payload is the text between the first
      comma and the next one, or the end. */
  lemma {:induction false} PayloadBetweenCommas(head: string, mid: string, tail: string)
    requires ',' !in head && ',' !in mid
    requires tail == [] || tail[0] == ','
    ensures DataPayload(head + [','] + mid + tail) == Some(mid)
  {
    var rest := [','] + (mid + tail);
    assert head + [','] + mid + tail == head + rest;
    assert rest[0] == ',' && rest[1..] == mid + tail;
    SplitPrefix(head, rest, ',');
    SplitPrefix(mid, tail, ',');
    if tail == [] {
      assert Split(tail, ',') == [""];
    } else {
      assert Split(tail, ',')[0] == "";
    }
    assert mid + "" == mid;
  }

  /** An image the model produced can be sent back: its payload is the data it came with. */
  lemma {:induction false} PayloadOfGeneratedImage(data: string)
    requires ',' !in data
    ensures DataPayload(ImagePrefix + data) == Some(data)
  {
    var head := "data:image/png;base64";
    assert ImagePrefix + data == head + [','] + data + "";
    PayloadBetweenCommas(head, data, "");
  }

  /** editRecipeImage: sends the payload of `image` and returns the first inline image
      of the answer, or None. */
  method EditRecipeImage(image: string, reply: ImageReply) returns (sent: Option<string>, url: Option<string>)
    ensures sent == DataPayload(image)
    ensures url == ImageOf(reply)
  {
    sent := DataPayload(image);
    url := GenerateRecipeImage(reply);
  }

  /** The acceptance test of a video answer, with JavaScript's precedence:
      `t.startsWith('http') && t.includes('youtube.com') || t.includes('youtu.be')`. */
  predicate AcceptedAsVideo(t: string) {
    (StartsWith(t, "http") && Contains(t, "youtube.com")) || Contains(t, "youtu.be")
  }

  /** searchRecipeVideo: the trimmed answer when it passes the acceptance test, else None. */
  function SearchRecipeVideo(reply: TextReply): (url: Option<string>)
    ensures reply.TextFailed? ==> url.None?
    ensures reply.TextAnswer? ==> (url.Some? <==> AcceptedAsVideo(Trim(reply.text.GetOr(""))))
    ensures url.Some? ==> Trimmed(url.value) && url.value != ""
    ensures url.Some? ==> Contains(url.value, "youtube.com") || Contains(url.value, "youtu.be")
    ensures url.Some? ==> reply.TextAnswer? && url.value == Trim(reply.text.GetOr(""))
  {
    match reply
    case TextFailed => None
    case TextAnswer(text) =>
      var t := Trim(text.GetOr(""));
      if AcceptedAsVideo(t) then
        assert |t| >= 4;
        Some(t)
      else None
  }

  /** A text does not start with a prefix whose first character differs from its own. */
  lemma {:induction false} DifferentFirstChar(s: string, prefix: string)
    requires s != [] && prefix != [] && s[0] != prefix[0]
    ensures !StartsWith(s, prefix)
  {
    assert |prefix| <= |s| ==> s[..|prefix|][0] == s[0];
  }

  /** A short link that is not a web address at all passes the test, because `&&`
      binds tighter than `||`; the reading with the scheme check on both hosts refuses it. */
  lemma {:induction false} ShortLinkWithoutSchemeAccepted(t: string)
    requires t == "youtu.be"
    ensures SearchRecipeVideo(TextAnswer(Some(t))) == Some(t)
    ensures !StartsWith(t, "http")
    ensures !(StartsWith(t, "http") && (Contains(t, "youtube.com") || Contains(t, "youtu.be")))
  {
    assert t[0] == 'y' && t[|t| - 1] == 'e';
    assert Trimmed(t);
    assert Trim(t) == t;
    assert OccursAt(t, t, 0);
    assert Contains(t, "youtu.be");
    var http := "http";
    assert http[0] == 'h';
    DifferentFirstChar(t, http);
  }

  /** analyzeFridgeImage: the comma-separated items of the answer, trimmed, empty ones
      dropped; nothing when the request threw. */
  function AnalyzeFridgeImage(reply: TextReply): (items: seq<string>)
    ensures reply.TextFailed? ==> items == []
    ensures reply.TextAnswer? ==> items == DropEmpty(SplitTrim(reply.text.GetOr(""), ','))
    ensures forall i :: 0 <= i < |items| ==> items[i] != "" && Trimmed(items[i]) && ',' !in items[i]
  {
    match reply
    case TextFailed => []
    case TextAnswer(text) => SplitTrimNonEmpty(text.GetOr(""), ',')
  }

  /** The detection does not remove duplicates: an item named twice is reported twice. */
  lemma {:induction false} DetectionKeepsDuplicates(item: string)
    requires item != "" && Trimmed(item) && ',' !in item
    ensures AnalyzeFridgeImage(TextAnswer(Some(item + ", " + item))) == [item, item]
  {
    var xs := [item, item];
    assert xs[1..] == [item];
    assert [','] + " " == ", ";
    assert Join(xs, ", ") == item + ", " + item;
    ParseJoinRoundTrip(xs, ',', " ");
  }

  /** The outcome of suggestRecipeFromIngredients: the request's failure reaches the
      caller, since it is made outside the `try`. */
  datatype Suggestions = Thrown | Suggested(recipes: seq<SuggestedRecipe>) {
    /** The suggestions to show: the new ones, or `current` when the request threw. */
    function recipesOr(current: seq<SuggestedRecipe>): seq<SuggestedRecipe> {
      if Thrown? then current else recipes
    }
  }

  /** suggestRecipeFromIngredients: an absent answer reads as `[]`, an unparsable one gives `[]`. */
  function SuggestRecipes(reply: JsonReply<seq<SuggestedRecipe>>): (r: Suggestions)
    ensures r.Thrown? <==> reply.JsonFailed?
    ensures r.Suggested? && r.recipes != [] ==> reply == Parsed(r.recipes)
    ensures reply.Parsed? ==> r == Suggested(reply.value)
    ensures reply.NoText? || reply.Unparsable? ==> r == Suggested([])
  {
    match reply
    case JsonFailed => Thrown
    case NoText => Suggested([])
    case Unparsable => Suggested([])
    case Parsed(v) => Suggested(v)
  }

  /** getNutritionInfo: None when the request threw or the answer did not parse; an
      absent answer parses as `{}`, which is returned, not None. */
  function GetNutritionInfo(reply: JsonReply<Nutrition>): (r: Option<Nutrition>)
    ensures r.None? <==> reply.JsonFailed? || reply.Unparsable?
    ensures reply.NoText? ==> r == Some(EmptyObject)
    ensures reply.Parsed? ==> r == Some(reply.value)
  {
    match reply
    case JsonFailed => None
    case Unparsable => None
    case NoText => Some(EmptyObject)
    case Parsed(v) => Some(v)
  }
}
