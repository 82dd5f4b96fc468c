# CulinAI recipe manager — a Dafny model

CulinAI is a single-page recipe book. The user keeps a list of recipes, each with a
title, a category, ingredients, steps, a picture, an optional video link, a
preparation time, a star rating, a favourite flag and nutrition facts. The list can
be filtered by category chip and by a case-insensitive search, then sorted by date or
by title. When a recipe is saved, every empty field is filled in by a generative
model: a generated picture, a YouTube link and a nutrition estimate. The image editor
sends the picture back to the model with a style instruction. The fridge matcher
keeps two lists of ingredients, the fridge and the pot, which the user moves items
between. It merges in the ingredients detected on a photo and asks the model for
recipe suggestions. The detail view and the cards share a recipe as a plain-text
message.

The model follows the program's files, one module per file:

- `Types`: the record types, the categories and their labels, and JavaScript truthiness.
- `Text`: the string operations the program uses (trim, split, join, case, search).
- `GeminiService`: what the service functions do with the model's answers. The
  requests themselves are parameters: each call is represented by the reply it produced.
- `RecipeCollection`: the list transformations App applies (map by id, filter, prepend).
- `RecipeQuery`: the filter and the sort behind the visible list.
- `App`: the application state as a class with one method per handler.
- `RecipeFormModal`, `AddRecipeModal`, `ImageEditing`, `RecipeDisplay`, `RecipeShare`,
  `FridgeMatcher`, `Stars`: the components. A component with state is a class whose
  fields are its state variables.

## Model

| member | source | states |
|---|---|---|
| Types.CategoryOfLabel | types.ts:2-8 | a label maps back only to the category that carries it |
| Types.LabelRoundTrip | types.ts:2-8 | every category's label maps back to it; there are five categories with pairwise distinct labels |
| Text.Trim | services/geminiService.ts:153 | the result has no leading or trailing blank; it is empty exactly when the input is all blanks; a trimmed input is unchanged; no character is added |
| Text.TrimWrapped | components/RecipeDetailModal.tsx:71-84 | trimming a trimmed text wrapped in blanks gives the text back |
| Text.Split | services/geminiService.ts:183-184 | one piece more than there are separators, and no piece holds the separator |
| Text.JoinSplit | services/geminiService.ts:183-184 | joining the pieces of a split with the separator gives the text back |
| Text.SplitJoinLines | components/RecipeDetailModal.tsx:77-80 | items free of the separator, joined and split again, come back unchanged |
| Text.SplitJoin | components/RecipeFormModal.tsx:14-15 | items joined with the separator plus padding split into the first item and the others with the padding in front |
| Text.Prefixed | components/RecipeDetailModal.tsx:77 | item i of the result is the prefix followed by item i of the input |
| Text.MapTrim | components/RecipeFormModal.tsx:29 | item i of the result is item i of the input trimmed |
| Text.DropEmpty | components/RecipeFormModal.tsx:29 | keeps exactly the non-empty items |
| Text.DropEmptyConcat | components/RecipeFormModal.tsx:29 | the filter distributes over concatenation, so it keeps the order and the repeats of the non-empty items |
| Text.SplitTrim | components/AddRecipeModal.tsx:24-25 | one trimmed, separator-free item per separated piece, empty ones included |
| Text.SplitTrimNonEmpty | components/RecipeFormModal.tsx:29-30 | every item is non-empty, trimmed and free of the separator |
| Text.SplitTrimJoin | components/AddRecipeModal.tsx:24-25 | trimmed, separator-free items joined with the separator and blank padding parse back to the same list |
| Text.ParseJoinRoundTrip | components/RecipeFormModal.tsx:14-30 | non-empty trimmed items joined as the form loads them parse back to the same list |
| Text.BlankParsesToNothing | components/RecipeFormModal.tsx:29-30 | a text made only of blanks and separators parses to no item |
| Text.ToLower | App.tsx:141-142 | same length, each character lower-cased |
| Text.ToUpper | components/RecipeDetailModal.tsx:73 | same length, each character upper-cased |
| Text.ContainsIgnoringCase | App.tsx:141-142 | a text containing a query still contains it once both are lower-cased |
| Text.NatToString | components/RecipeDetailModal.tsx:80 | a step number is written as a non-empty run of decimal digits |
| Text.NatToStringValue | components/RecipeDetailModal.tsx:80 | the digits read back as the number, with no leading zero |
| GeminiService.InlineImage | services/geminiService.ts:106-111 | None exactly when no part carries inline data; otherwise a PNG data URL |
| GeminiService.InlineImageIsFirst | services/geminiService.ts:131-136 | the image returned is the first part with inline data; later parts are ignored |
| GeminiService.FirstInlineImage | services/geminiService.ts:131-136 | the loop over the parts returns the first part's image, as the specification function says |
| GeminiService.ImageOf | services/geminiService.ts:118-141 | a thrown request gives None; an image returned starts with the PNG data URL prefix |
| GeminiService.GenerateRecipeImage | services/geminiService.ts:118-141 | returns the first inline image of the answer, or None when there is none or the request threw |
| GeminiService.DataPayload | services/geminiService.ts:95 | present exactly when the URL has a comma; holds no comma |
| GeminiService.PayloadBetweenCommas | services/geminiService.ts:95 | for any comma-free head, the payload is the comma-free text after the first comma, up to the next one |
| GeminiService.PayloadOfGeneratedImage | services/geminiService.ts:95 | the payload sent for a generated picture is the data it was generated with |
| GeminiService.EditRecipeImage | services/geminiService.ts:87-116 | sends the picture's payload and returns the answer's first inline image, or None |
| GeminiService.SearchRecipeVideo | services/geminiService.ts:143-163 | a thrown request gives None; otherwise the trimmed answer exactly when it passes the link test; a result is the trimmed answer text, non-empty and naming a YouTube host |
| GeminiService.ShortLinkWithoutSchemeAccepted | services/geminiService.ts:155 | the bare text "youtu.be" is accepted as a video link, though it has no scheme |
| GeminiService.AnalyzeFridgeImage | services/geminiService.ts:164-189 | a thrown request gives no item; an answer gives the non-empty trimmed comma-separated pieces of its text, in order; every item is non-empty, trimmed and comma-free |
| GeminiService.DetectionKeepsDuplicates | services/geminiService.ts:183-184 | an ingredient named twice in the answer is reported twice |
| GeminiService.SuggestRecipes | services/geminiService.ts:7-58 | the failure of the request reaches the caller; a parsed answer is returned as it is; no text or an unparsable one gives the empty list |
| GeminiService.GetNutritionInfo | services/geminiService.ts:60-85 | None exactly when the request threw or the answer did not parse; an absent answer gives the empty object |
| RecipeCollection.Override | App.tsx:96-97 | a key present in the draft replaces the stored value; an absent one keeps it |
| RecipeCollection.Patched | App.tsx:96-136 | every change keeps the record's id and creation date |
| RecipeCollection.UpdateWhere | App.tsx:96-97 | same length; each record with the id is changed, every other one is kept; nothing changes when no record has the id |
| RecipeCollection.UpdateKeepsIds | App.tsx:119-122 | an update keeps every id in place, the set of ids, and the uniqueness of ids |
| RecipeCollection.ToggleTwice | App.tsx:119-122 | toggling twice restores the favourite flag's truth value and changes nothing else |
| RecipeCollection.RatingUpdateRange | App.tsx:285-290 | on a list whose ratings lie in 0..5, the update keeps them in range exactly when the new rating is in range or no record has the id |
| RecipeCollection.EditOverlay | App.tsx:96-97 | an edit replaces title, category, ingredients, steps, image, video link and nutrition, keeps id and creation date, keeps the stored rating, favourite flag and preparation time unless the draft has them, and leaves the other records untouched |
| RecipeCollection.RemoveId | App.tsx:114-117 | keeps exactly the records whose id differs; none with the id remains |
| RecipeCollection.RemoveIdConcat | App.tsx:114-117 | the deletion keeps the order of the other records |
| RecipeCollection.RemoveUnknownId | App.tsx:114-117 | deleting an id no record has changes nothing |
| RecipeCollection.RemoveKeepsUnique | App.tsx:114-117 | deletion keeps ids unique |
| RecipeCollection.Prepend | App.tsx:99-108 | the new record comes first, followed by the old list |
| RecipeCollection.PrependUnique | App.tsx:104-108 | the new list has unique ids exactly when the new id was not already in use |
| RecipeCollection.FindById | App.tsx:280 | None exactly when no record has the id; otherwise the first record of the list with that id |
| RecipeCollection.FindAfterUpdate | App.tsx:280 | after an update of an id, looking it up finds the changed record |
| RecipeCollection.FindAfterRemove | App.tsx:280 | after a deletion of an id, looking it up finds nothing and looking up any other id finds what it found before |
| RecipeQuery.Filter | App.tsx:138-144 | keeps exactly the records that match the chip and the search, each as often as in the list |
| RecipeQuery.Insert | App.tsx:145-150 | the result holds the old items and the new one, nothing else |
| RecipeQuery.SortBy | App.tsx:145-150 | the result is a permutation of the input |
| RecipeQuery.InsertSorted | App.tsx:145-150 | inserting into a sorted list under a total preorder keeps it sorted |
| RecipeQuery.SortBySorted | App.tsx:145-150 | the sort's result is sorted under a total preorder |
| RecipeQuery.PrecedesTotal | App.tsx:145-150 | the date order, and the title order when the title comparison is total, are total preorders |
| RecipeQuery.View | App.tsx:138-151 | the records shown are a permutation of the filtered ones: exactly the matching records |
| RecipeQuery.ViewSorted | App.tsx:138-151 | the records shown are sorted; in date order, newest first |
| RecipeQuery.EmptySearchMatchesAll | App.tsx:141-142 | every record matches the empty search |
| RecipeQuery.FavoritesShowsFavorites | App.tsx:140 | with an empty search the favourites chip shows exactly the favourites |
| RecipeQuery.TitleContainingQueryMatches | App.tsx:141-142 | a title containing the query matches it |
| RecipeQuery.IngredientSearchExample | App.tsx:142 | the ingredient "Tomates" is found by the query "TOMATE" |
| RecipeQuery.RecentOrderExample | App.tsx:145-147 | records created at 100, 300 and 200 are shown as 300, 200, 100 |
| App.Enriched | App.tsx:79-94 | the submitted value unless it is falsy and the answer truthy; the result is truthy when either is |
| App.EnrichedNutrition | App.tsx:89-93 | the submitted facts unless absent and the analysis answered; present when either is |
| App.NewRecipe | App.tsx:99-108 | the draft's fields, the enriched picture, video and nutrition, the given id and date, and not a favourite |
| App.Enrich | App.tsx:79-94 | each enriched field is the specification's value, and exactly the services for empty fields are consulted, in order |
| App.EmptyAnalysisIsStored | App.tsx:89-93 | an analysis with no answer stores an empty nutrition object |
| App.EditDropsNutritionOnFailedAnalysis | App.tsx:89-97 | an edit whose analysis fails erases the stored nutrition |
| App.RecipeBook.constructor | App.tsx:14-18 | starts with the stored list, nothing selected, the form and the editor closed |
| App.RecipeBook.Shown | App.tsx:280 | the stored copy of the selected recipe (the first with its id) while the list has its id, else the snapshot itself; None when nothing is selected |
| App.RecipeBook.Select | App.tsx:226 | opens the recipe in the detail view and changes nothing else |
| App.RecipeBook.SaveRecipe | App.tsx:74-112 | an edit updates the record in place and a creation prepends one with the new id; ids stay unique when the new id is fresh; the form closes |
| App.RecipeBook.DeleteRecipe | App.tsx:114-117 | removes the id from the list, keeps ids unique, and closes the detail view of that recipe |
| App.RecipeBook.ToggleFavorite | App.tsx:119-122 | flips the flag of the record with the id; the detail view shows the flipped record |
| App.RecipeBook.EditClick | App.tsx:124-128 | opens the form on the recipe and closes the detail view |
| App.RecipeBook.AddClick | App.tsx:255 | opens the form on an empty recipe and changes nothing else |
| App.RecipeBook.CloseForm | App.tsx:272 | closes the form and forgets the recipe being edited |
| App.RecipeBook.OpenImageEditor | App.tsx:291-300 | the editor is shown exactly when the recipe has a truthy picture |
| App.RecipeBook.UpdateImage | App.tsx:130-136 | stores the picture, mirrors it in the detail view, closes the editor, keeps ids unique |
| App.RecipeBook.UpdateRating | App.tsx:285-290 | stores the rating and mirrors it in the detail view |
| App.RecipeBook.CloseDetail | App.tsx:281 | closes the detail view |
| Stars.StarRow | components/RecipeDetailModal.tsx:222-227 | five stars |
| Stars.StarRowMeaning | components/RecipeFormModal.tsx:132-137 | a rating in 0..5 fills exactly that many stars, the first ones; above 5 all five, below 1 none |
| RecipeFormModal.ParseIngredients | components/RecipeFormModal.tsx:29 | every ingredient is non-empty, trimmed and comma-free |
| RecipeFormModal.ParseInstructions | components/RecipeFormModal.tsx:30 | every step is non-empty, trimmed and holds no newline |
| RecipeFormModal.EditRoundTrip | components/RecipeFormModal.tsx:14-30 | lists of non-empty, trimmed, separator-free items survive loading into the form and submitting unchanged |
| RecipeFormModal.EmptyListLoadsEmpty | components/RecipeFormModal.tsx:14-23 | a field loads empty exactly when its list is empty or holds one empty item |
| RecipeFormModal.BlankFieldParsesEmpty | components/RecipeFormModal.tsx:23-30 | a field of blanks and separators passes the guard yet parses to no item |
| RecipeFormModal.RecipeForm.constructor | components/RecipeFormModal.tsx:11-18 | the fields of the edited recipe, lists joined with ", " and newlines, or empty fields, the main course and rating 0 |
| RecipeFormModal.RecipeForm.DrawnStars | components/RecipeFormModal.tsx:132-137 | a rating in range fills that many stars |
| RecipeFormModal.RecipeForm.ClickStar | components/RecipeFormModal.tsx:132-137 | the rating becomes the star clicked, in 1..5; every other field is unchanged |
| RecipeFormModal.RecipeForm.ClearRating | components/RecipeFormModal.tsx:144-151 | a set rating goes back to 0; every other field is unchanged |
| RecipeFormModal.RecipeForm.Submit | components/RecipeFormModal.tsx:21-35 | refused exactly when a required text is empty; otherwise the parsed draft with the edited id; a blank ingredient text gives no ingredient |
| AddRecipeModal.PlaceholderUrl | components/AddRecipeModal.tsx:26 | the picsum address with the title between the seed path and the size |
| AddRecipeModal.ChosenImage | components/AddRecipeModal.tsx:26 | the given URL unless empty, else the placeholder; never empty |
| AddRecipeModal.AddRecipeForm.constructor | components/AddRecipeModal.tsx:11-15 | empty fields and the main course |
| AddRecipeModal.AddRecipeForm.Submit | components/AddRecipeModal.tsx:17-28 | refused exactly when a required text is empty; otherwise one trimmed item per piece, empty ones kept, and a non-empty picture |
| AddRecipeModal.EmptyItemsKept | components/AddRecipeModal.tsx:24 | items joined with ", " come back unchanged, empty ones included |
| AddRecipeModal.TrailingCommaKept | components/AddRecipeModal.tsx:24 | a trailing comma yields a trailing empty ingredient |
| ImageEditing.AfterEdit | components/ImageEditor.tsx:15-30 | the working picture becomes the answer's picture when there is one, else stays |
| ImageEditing.EditsChain | components/ImageEditor.tsx:15-30 | the next edit sends the data of the picture the previous edit produced |
| ImageEditing.ImageEditor.constructor | components/ImageEditor.tsx:11-13 | the working picture is the original, no edit pending, an empty prompt |
| ImageEditing.ImageEditor.TypePrompt | components/ImageEditor.tsx:96 | the prompt becomes the text typed |
| ImageEditing.ImageEditor.PressStyle | components/ImageEditor.tsx:77-78 | an edit starts exactly when none is pending |
| ImageEditing.ImageEditor.PressCustom | components/ImageEditor.tsx:101-102 | an edit starts exactly when none is pending and the prompt is not blank; the prompt is sent as typed |
| ImageEditing.ImageEditor.FinishEdit | components/ImageEditor.tsx:15-30 | the working picture's payload was sent; the working picture becomes the result, or an alert is shown; the edit is no longer pending |
| ImageEditing.ImageEditor.Apply | components/ImageEditor.tsx:113-114 | hands the working picture over exactly when no edit is pending and it changed |
| ImageEditing.ImageEditor.Reset | components/ImageEditor.tsx:120-121 | goes back to the original unless an edit is pending |
| RecipeDisplay.GeneratedImagesAreSpecial | components/RecipeDetailModal.tsx:24 | a generated picture or a missing one gets the special frame |
| RecipeDisplay.ImageSrc | components/RecipeDetailModal.tsx:129 | the picture when truthy, else the placeholder; never empty |
| RecipeDisplay.Chips | components/RecipeGrid.tsx:97 | the first three ingredients, or all when fewer |
| RecipeDisplay.MoreChip | components/RecipeGrid.tsx:102-104 | present exactly when more than three ingredients, with a positive count |
| RecipeDisplay.ChipsAccountForAll | components/RecipeGrid.tsx:97-104 | the chips and the count together account for every ingredient once |
| RecipeDisplay.CardStars | components/RecipeGrid.tsx:78-81 | drawn exactly when the rating is set and positive; star i filled when i is below the rating |
| RecipeDisplay.DetailStars | components/RecipeDetailModal.tsx:222-227 | star k filled when k is at most the rating, 0 when unset |
| RecipeDisplay.CardAgreesWithDetail | components/RecipeGrid.tsx:78-81 | the card draws the detail view's row where it draws stars, and where it does not the detail row is empty |
| RecipeDisplay.YoutubeId | components/RecipeDetailModal.tsx:36-40 | the captured id exactly when it has eleven characters |
| RecipeDisplay.DetailView.constructor | components/RecipeDetailModal.tsx:25-34 | the video is hidden and the timer armed exactly when the recipe has a video |
| RecipeDisplay.DetailView.ShowsVideo | components/RecipeDetailModal.tsx:123-129 | the video replaces the picture exactly when it has been asked to show and the recipe has a video |
| RecipeDisplay.DetailView.TimerFires | components/RecipeDetailModal.tsx:28-32 | the timer, when armed, shows the video; it never fires twice |
| RecipeDisplay.DetailView.Delete | components/RecipeDetailModal.tsx:111-115 | the id is handed over exactly when the deletion is confirmed |
| RecipeShare.PrepShown | components/RecipeDetailModal.tsx:74 | the preparation time when truthy, else the fallback text |
| RecipeShare.Numbered | components/RecipeDetailModal.tsx:80 | line i is the number i + 1, a dot and step i |
| RecipeShare.ShareText | components/RecipeDetailModal.tsx:71-84 | the message has no leading or trailing blank |
| RecipeShare.DetailLabelsWellFormed | components/RecipeDetailModal.tsx:72-84 | the detail view's texts hold no newline and the message starts and ends with a visible character |
| RecipeShare.CardLabelsWellFormed | components/RecipeGrid.tsx:118-130 | the same for the cards' texts |
| RecipeShare.ShareTextIsTemplate | components/RecipeDetailModal.tsx:71-84 | trimming only removes the template's outer newlines |
| RecipeShare.MessageLines | components/RecipeDetailModal.tsx:72-83 | nine fixed lines plus one bullet per ingredient and one numbered line per step, in order |
| RecipeShare.ShareTextLines | components/RecipeDetailModal.tsx:71-84 | with newline-free texts and non-empty lists, the message split on newlines is exactly the message lines |
| RecipeShare.Payload | components/RecipeDetailModal.tsx:86-93 | the title, the message, and the address exactly when it starts with "http" |
| FridgeMatcher.ClipartFor | components/FridgeMatcher.tsx:19-25 | the default when no key occurs; otherwise the emoji of a key that occurs with no earlier key occurring |
| FridgeMatcher.ClipartFirstMatch | components/FridgeMatcher.tsx:19-25 | the emoji chosen is that of the first key that occurs |
| FridgeMatcher.ShadowedEntry | components/FridgeMatcher.tsx:19-25 | in any table, an entry whose key contains an earlier key, and whose emoji appears nowhere else, is never shown |
| FridgeMatcher.PotatoUnreachable | components/FridgeMatcher.tsx:10-25 | as written, no name shows the potato |
| FridgeMatcher.BeefUnreachable | components/FridgeMatcher.tsx:10-25 | as written, no name shows beef |
| FridgeMatcher.PotatoShowsApple | components/FridgeMatcher.tsx:10-25 | as written, "pomme de terre" shows the apple |
| FridgeMatcher.IntendedClipart | components/FridgeMatcher.tsx:19-25 | the corrected lookup gives the default when no key occurs |
| FridgeMatcher.GetClipart | components/FridgeMatcher.tsx:19-25 | the loop over the given table returns the first-match lookup of the lower-cased name |
| FridgeMatcher.IntendedPotato | components/FridgeMatcher.tsx:10-17 | with the corrected table, "pomme de terre" shows the potato |
| FridgeMatcher.IntendedApple | components/FridgeMatcher.tsx:10-17 | with the corrected table, "pomme" still shows the apple |
| FridgeMatcher.IntendedBeef | components/FridgeMatcher.tsx:10-17 | with the corrected table, "boeuf" shows beef |
| FridgeMatcher.IntendedEgg | components/FridgeMatcher.tsx:10-17 | with the corrected table, "oeuf" still shows the egg |
| FridgeMatcher.Without | components/FridgeMatcher.tsx:54-62 | keeps exactly the other items, adds no duplicate, and changes nothing when the item is absent |
| FridgeMatcher.WithoutConcat | components/FridgeMatcher.tsx:54-62 | the filter distributes over concatenation: it keeps the order and repeats of the other items |
| FridgeMatcher.RemoveAt | components/FridgeMatcher.tsx:46-52 | the item at the index dropped, the others in order; nothing when out of range |
| FridgeMatcher.RemoveAtKeeps | components/FridgeMatcher.tsx:46-52 | removal adds no item and no duplicate |
| FridgeMatcher.Distinct | components/FridgeMatcher.tsx:115-118 | no duplicate, the items seen first, and exactly the items of both lists |
| FridgeMatcher.DedupAll | components/FridgeMatcher.tsx:115-118 | no duplicate and exactly the items of the list |
| FridgeMatcher.DistinctConcat | components/FridgeMatcher.tsx:115-118 | deduplicating a concatenation deduplicates the parts in turn |
| FridgeMatcher.DistinctOfDistinct | components/FridgeMatcher.tsx:115-118 | a list already free of duplicates is kept as it is |
| FridgeMatcher.MergeKeepsFridge | components/FridgeMatcher.tsx:115-118 | the merge keeps the fridge in front and appends the new detections once each |
| FridgeMatcher.MergeConsistency | components/FridgeMatcher.tsx:115-118 | the merged fridge and the pot stay disjoint exactly when no detection is in the pot |
| FridgeMatcher.Workspace.constructor | components/FridgeMatcher.tsx:27-35 | empty lists and input, not in game mode, no suggestion |
| FridgeMatcher.Workspace.Type | components/FridgeMatcher.tsx:191 | the input becomes the text typed |
| FridgeMatcher.Workspace.AddIngredient | components/FridgeMatcher.tsx:38-44 | the trimmed input joins the fridge when non-empty and in neither list, and the input clears; the lists stay consistent |
| FridgeMatcher.Workspace.RemoveIngredient | components/FridgeMatcher.tsx:46-52 | drops the item at the index from the list named; the lists stay consistent |
| FridgeMatcher.Workspace.MoveToPot | components/FridgeMatcher.tsx:54-57 | the item leaves the fridge and joins the pot; the lists stay consistent exactly when it was not already in the pot |
| FridgeMatcher.Workspace.MoveToFridge | components/FridgeMatcher.tsx:59-62 | the mirror image of the move to the pot |
| FridgeMatcher.Workspace.Drop | components/FridgeMatcher.tsx:69-81 | nothing when the drag comes from the target zone, else the move into it |
| FridgeMatcher.Workspace.ChoosePhoto | components/FridgeMatcher.tsx:106-110 | a chosen file, while no analysis runs, starts one and captures the fridge as it is; otherwise nothing changes |
| FridgeMatcher.Workspace.PhotoAnalysed | components/FridgeMatcher.tsx:111-125 | with detections the fridge becomes the distinct items of the captured fridge followed by the detections and game mode starts, otherwise an alert; the analysis ends; when nothing moved meanwhile the old fridge stays in front and the lists stay consistent exactly when no detection is in the pot |
| FridgeMatcher.StaleMerge | components/FridgeMatcher.tsx:111-117 | an item moved to the pot during the analysis comes back into the fridge, breaking consistency; an item added meanwhile and not detected is lost |
| FridgeMatcher.Workspace.Suggest | components/FridgeMatcher.tsx:87-104 | asks with the pot in game mode and the fridge otherwise, not at all when that list is empty; a failure keeps the old suggestions |
| FridgeMatcher.Workspace.LeaveGameMode | components/FridgeMatcher.tsx:312 | leaves game mode and changes nothing else |
| FridgeMatcher.SuggestionDraft | components/FridgeMatcher.tsx:127-138 | the suggestion's title, ingredients, steps as instructions, time and nutrition, an empty picture and the main course |
| FridgeMatcher.SavedSuggestion | components/FridgeMatcher.tsx:127-138 | a saved suggestion always asks for a picture, keeps an empty one when generation fails, and is not a favourite |

## Left out

- Persistence in `localStorage`, JSON encoding and the sample recipes loaded on first start: the model starts from a given list.
- The prompts, request bodies, model names and response schemas: each request is represented by the reply it produced.
- Asynchrony: every `await` is a step, and the loading flags (`loading`, `isGeneratingImage`, `expandedIndex`) are not modelled; `analyzing` is.
- React's stale closures in the save handler: its create path reads the list captured by the handler, not the latest one. The model uses the current list there (the photo analysis does model its captured fridge).
- `Math.random` and `Date.now`: the new id and the date are parameters.
- `localeCompare`: the title order is a parameter, required to be a total preorder.
- The YouTube regular expression: the group it captures is a parameter of `RecipeDisplay.YoutubeId`.
- `FileReader`, `window.confirm`, `alert`, the share sheet and the clipboard fallback: their outcomes are parameters or results.
- `toLocaleDateString`, the header and the purely visual classes.
- Nutrition values are floats with no arithmetic on them: they are real numbers in the model.
- Text.ToLower: maps ASCII and Latin-1 letters only, not full Unicode case mapping.
- Text.ToUpper: maps ASCII and Latin-1 letters only, not full Unicode case mapping.
- RecipeQuery.View: the stability of the sort for ties is not stated.
- App.RecipeBook.UpdateRating: its effect on the rating range is stated in `RecipeCollection.RatingUpdateRange`, not in the method's contract.
- RecipeShare.ShareTextLines: assumes newline-free texts and non-empty lists; the message for other recipes is given by `RecipeShare.ShareText` alone.
- The style instructions of the image editor are a parameter of `ImageEditing.ImageEditor.PressStyle`.
- The photo payload of the fridge analysis is the same `GeminiService.DataPayload` as the image edit's.
- The cards' share texts are kept as their file stores them, with every non-ASCII character mis-encoded.

## Findings

| source | as written | input that shows it | evidently intended | confidence | as-written member | corrected member |
|---|---|---|---|---|---|---|
| components/FridgeMatcher.tsx:10-25 | "pomme" comes before "pomme de terre" in the table, and the lookup returns the first key contained in the name | "Pomme de terre" shows the apple | the potato | high, not executed | FridgeMatcher.PotatoUnreachable | FridgeMatcher.IntendedPotato |
| components/FridgeMatcher.tsx:10-25 | "oeuf" comes before "boeuf" in the table and is contained in it | "Boeuf haché" shows the egg | beef | high, not executed | FridgeMatcher.BeefUnreachable | FridgeMatcher.IntendedBeef |
