/** The plain-text message both the detail view and the cards share: a heading with
    the upper-cased title, the preparation time, the ingredients as a bullet list,
    the steps numbered from 1, the link to the app and a footer, trimmed. */
module RecipeShare {
  import opened Wrappers
  import opened Text
  import opened Types

  /** The fixed texts of the message template. */
  datatype ShareLabels = ShareLabels(heading: string, time: string, unspecified: string, ingredients: string,
                                     steps: string, link: string, footer: string)

  /** The detail view's template. */
  const DetailHeading := "\U{1F37D}\U{FE0F} RECETTE CULINAI : "
  const DetailTime := "\U{23F1}\U{FE0F} TEMPS : "
  const DetailUnspecified := "Non sp\U{00E9}cifi\U{00E9}"
  const DetailIngredients := "\U{1F6D2} INGR\U{00C9}DIENTS :"
  const DetailSteps := "\U{1F468}\U{200D}\U{1F373} PR\U{00C9}PARATION :"
  const DetailLink := "Lien de l'app : "
  const DetailFooter := "Partag\U{00E9} depuis CulinAI \U{2728}"
  const DetailLabels := ShareLabels(DetailHeading, DetailTime, DetailUnspecified, DetailIngredients, DetailSteps, DetailLink, DetailFooter)

  /** The cards' template: the same texts, with every non-ASCII character stored
      in the source file under a wrong encoding, kept as written. */
  const CardHeading := "\U{F8FF}\U{00FC}\U{00E7}\U{03A9}\U{00D4}\U{220F}\U{00E8} RECETTE CULINAI : "
  const CardTime := "\U{201A}\U{00E8}\U{00B1}\U{00D4}\U{220F}\U{00E8} TEMPS : "
  const CardUnspecified := "Non sp\U{221A}\U{00A9}cifi\U{221A}\U{00A9}"
  const CardIngredients := "\U{F8FF}\U{00FC}\U{00F5}\U{00ED} INGR\U{221A}\U{00E2}DIENTS :"
  const CardSteps := "\U{F8FF}\U{00FC}\U{00EB}\U{00AE}\U{201A}\U{00C4}\U{00E7}\U{F8FF}\U{00FC}\U{00E7}\U{2265} PR\U{221A}\U{00E2}PARATION :"
  const CardLink := "Lien de l'app : "
  const CardFooter := "Partag\U{221A}\U{00A9} depuis CulinAI \U{201A}\U{00FA}\U{00AE}"
  const CardLabels := ShareLabels(CardHeading, CardTime, CardUnspecified, CardIngredients, CardSteps, CardLink, CardFooter)

  /** `prepTime || unspecified`. */
  function PrepShown(prepTime: Option<string>, unspecified: string): (shown: string)
    ensures Truthy(prepTime) ==> shown == prepTime.value
    ensures !Truthy(prepTime) ==> shown == unspecified
  {
    if Truthy(prepTime) then prepTime.value else unspecified
  }

  /** `steps.map((step, i) => `${i + from}. ${step}`)`. */
  function Numbered(steps: seq<string>, from: nat): (lines: seq<string>)
    ensures |lines| == |steps|
    ensures forall i :: 0 <= i < |steps| ==> lines[i] == NatToString(from + i) + ". " + steps[i]
  {
    if steps == [] then [] else [NatToString(from) + ". " + steps[0]] + Numbered(steps[1..], from + 1)
  }

  /** The heading, the time, a blank line and the ingredient heading. */
  function Opening(labels: ShareLabels, r: Recipe): seq<string> {
    [labels.heading + ToUpper(r.title), labels.time + PrepShown(r.prepTime, labels.unspecified), "", labels.ingredients]
  }

  /** A blank line and the step heading. */
  function Bridge(labels: ShareLabels): seq<string> {
    ["", labels.steps]
  }

  /** A blank line, the link and the footer. */
  function Closing(labels: ShareLabels, appUrl: string): seq<string> {
    ["", labels.link + appUrl, labels.footer]
  }

  /** The lines of the template literal; each list fills a single line with its
      items joined by newlines. */
  function TemplateLines(labels: ShareLabels, r: Recipe, appUrl: string): seq<string> {
    Opening(labels, r) + [Join(Prefixed("- ", r.ingredients), "\n")] + Bridge(labels) +
    [Join(Numbered(r.instructions, 1), "\n")] + Closing(labels, appUrl)
  }

  /** The message: the template, which starts and ends with a newline, trimmed. */
  function ShareText(labels: ShareLabels, r: Recipe, appUrl: string): (text: string)
    ensures Trimmed(text)
  {
    Trim("\n" + Join(TemplateLines(labels, r, appUrl), "\n") + "\n")
  }

  /** A template whose heading starts and whose footer ends with a visible
      character, and whose texts hold no newline. */
  predicate WellFormed(labels: ShareLabels) {
    && labels.heading != [] && !IsSpace(labels.heading[0])
    && labels.footer != [] && !IsSpace(labels.footer[|labels.footer| - 1])
    && '\n' !in labels.heading && '\n' !in labels.time && '\n' !in labels.unspecified
    && '\n' !in labels.ingredients && '\n' !in labels.steps && '\n' !in labels.link
    && '\n' !in labels.footer
  }

  /** The first three texts of the detail view's template hold no newline. */
  lemma {:induction false} DetailOpeningLineFree()
    ensures '\n' !in DetailHeading && '\n' !in DetailTime && '\n' !in DetailUnspecified
  {
  }

  /** The list headings of the detail view's template hold no newline. */
  lemma {:induction false} DetailHeadingsLineFree()
    ensures '\n' !in DetailIngredients && '\n' !in DetailSteps
  {
  }

  /** The link text and the footer of the detail view's template hold no newline. */
  lemma {:induction false} DetailClosingLineFree()
    ensures '\n' !in DetailLink && '\n' !in DetailFooter
  {
  }

  lemma {:induction false} DetailLabelsWellFormed()
    ensures WellFormed(DetailLabels)
  {
    DetailOpeningLineFree();
    DetailHeadingsLineFree();
    DetailClosingLineFree();
    assert DetailHeading[0] == '\U{1F37D}' && DetailFooter[|DetailFooter| - 1] == '\U{2728}';
  }

  /** The first three texts of the cards' template hold no newline. */
  lemma {:induction false} CardOpeningLineFree()
    ensures '\n' !in CardHeading && '\n' !in CardTime && '\n' !in CardUnspecified
  {
  }

  /** The list headings of the cards' template hold no newline. */
  lemma {:induction false} CardHeadingsLineFree()
    ensures '\n' !in CardIngredients && '\n' !in CardSteps
  {
  }

  /** The link text and the footer of the cards' template hold no newline. */
  lemma {:induction false} CardClosingLineFree()
    ensures '\n' !in CardLink && '\n' !in CardFooter
  {
  }

  lemma {:induction false} CardLabelsWellFormed()
    ensures WellFormed(CardLabels)
  {
    CardOpeningLineFree();
    CardHeadingsLineFree();
    CardClosingLineFree();
    assert CardHeading[0] == '\U{F8FF}' && CardFooter[|CardFooter| - 1] == '\U{00AE}';
  }

  /** Trimming only removes the template's outer newlines: the message is the
      template's lines joined, whatever the title, the lists and the link. */
  lemma {:induction false} ShareTextIsTemplate(labels: ShareLabels, r: Recipe, appUrl: string)
    requires labels.heading != [] && !IsSpace(labels.heading[0])
    requires labels.footer != [] && !IsSpace(labels.footer[|labels.footer| - 1])
    ensures ShareText(labels, r, appUrl) == Join(TemplateLines(labels, r, appUrl), "\n")
  {
    var lines := TemplateLines(labels, r, appUrl);
    var body := Join(lines, "\n");
    assert body == lines[0] + "\n" + Join(lines[1..], "\n");
    assert body[0] == labels.heading[0];
    assert lines == lines[..10] + [lines[10]];
    JoinAppend(lines[..10], [lines[10]], "\n");
    assert body[|body| - 1] == labels.footer[|labels.footer| - 1];
    assert AllSpace("\n");
    TrimWrapped("\n", body, "\n");
  }

  /** Upper-casing never produces a newline. */
  lemma {:induction false} UpperKeepsLines(s: string)
    requires '\n' !in s
    ensures '\n' !in ToUpper(s)
  {
    forall i | 0 <= i < |s|
      ensures ToUpper(s)[i] != '\n'
    {
      assert s[i] != '\n';
    }
  }

  /** The message line by line: the heading, the time, a blank, the ingredient
      heading, one bullet per ingredient, a blank, the step heading, one numbered
      line per step from 1, a blank, the link and the footer. */
  function MessageLines(labels: ShareLabels, r: Recipe, appUrl: string): (lines: seq<string>)
    ensures |lines| == |r.ingredients| + |r.instructions| + 9
    ensures forall i :: 0 <= i < |r.ingredients| ==> lines[4 + i] == "- " + r.ingredients[i]
    ensures forall i :: 0 <= i < |r.instructions| ==>
      lines[6 + |r.ingredients| + i] == NatToString(i + 1) + ". " + r.instructions[i]
  {
    Opening(labels, r) + Prefixed("- ", r.ingredients) + Bridge(labels) +
    Numbered(r.instructions, 1) + Closing(labels, appUrl)
  }

  /** With non-empty lists, the template's lines joined read as the message lines joined. */
  lemma {:induction false} TemplateFlattens(labels: ShareLabels, r: Recipe, appUrl: string)
    requires |r.ingredients| >= 1 && |r.instructions| >= 1
    ensures Join(TemplateLines(labels, r, appUrl), "\n") == Join(MessageLines(labels, r, appUrl), "\n")
  {
    var head, middle, tail := Opening(labels, r), Bridge(labels), Closing(labels, appUrl);
    var bullets, numbered := Prefixed("- ", r.ingredients), Numbered(r.instructions, 1);
    var jb := Join(bullets, "\n");
    JoinFlatten(head + [jb] + middle, numbered, tail, "\n");
    assert head + [jb] + middle + numbered + tail == head + [jb] + (middle + numbered + tail);
    JoinFlatten(head, bullets, middle + numbered + tail, "\n");
    assert head + bullets + (middle + numbered + tail) == head + bullets + middle + numbered + tail;
  }

  /** Newline-free texts make newline-free message lines. */
  lemma {:induction false} MessageLinesLineFree(labels: ShareLabels, r: Recipe, appUrl: string)
    requires WellFormed(labels)
    requires '\n' !in r.title && '\n' !in appUrl && (r.prepTime.Some? ==> '\n' !in r.prepTime.value)
    requires forall i :: 0 <= i < |r.ingredients| ==> '\n' !in r.ingredients[i]
    requires forall i :: 0 <= i < |r.instructions| ==> '\n' !in r.instructions[i]
    ensures forall i :: 0 <= i < |MessageLines(labels, r, appUrl)| ==> '\n' !in MessageLines(labels, r, appUrl)[i]
  {
    var lines := MessageLines(labels, r, appUrl);
    var n := |r.ingredients|;
    UpperKeepsLines(r.title);
    forall i | 0 <= i < |lines|
      ensures '\n' !in lines[i]
    {
      if 4 <= i < 4 + n {
        assert lines[i] == "- " + r.ingredients[i - 4];
      } else if 6 + n <= i < 6 + n + |r.instructions| {
        var digits := NatToString(i - 6 - n + 1);
        assert lines[i] == digits + ". " + r.instructions[i - 6 - n];
        assert '\n' !in digits;
      }
    }
  }

  /** With newline-free texts and non-empty lists, splitting the message on newlines
      gives exactly the message lines. */
  lemma {:induction false} ShareTextLines(labels: ShareLabels, r: Recipe, appUrl: string)
    requires WellFormed(labels)
    requires |r.ingredients| >= 1 && |r.instructions| >= 1
    requires '\n' !in r.title && '\n' !in appUrl && (r.prepTime.Some? ==> '\n' !in r.prepTime.value)
    requires forall i :: 0 <= i < |r.ingredients| ==> '\n' !in r.ingredients[i]
    requires forall i :: 0 <= i < |r.instructions| ==> '\n' !in r.instructions[i]
    ensures Split(ShareText(labels, r, appUrl), '\n') == MessageLines(labels, r, appUrl)
  {
    ShareTextIsTemplate(labels, r, appUrl);
    TemplateFlattens(labels, r, appUrl);
    MessageLinesLineFree(labels, r, appUrl);
    SplitJoinLines(MessageLines(labels, r, appUrl), '\n');
  }

  /** What is handed to the share sheet. */
  datatype SharePayload = SharePayload(title: string, text: string, url: Option<string>)

  /** The link goes along only when the app's address starts with "http". */
  function Payload(labels: ShareLabels, r: Recipe, appUrl: string): (p: SharePayload)
    ensures p.title == r.title && p.text == ShareText(labels, r, appUrl)
    ensures p.url.Some? <==> StartsWith(appUrl, "http")
    ensures p.url.Some? ==> p.url.value == appUrl
  {
    SharePayload(r.title, ShareText(labels, r, appUrl), if StartsWith(appUrl, "http") then Some(appUrl) else None)
  }
}
