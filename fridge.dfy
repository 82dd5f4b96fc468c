/** The fridge matcher: the ingredients in the fridge and in the pot, the moves
    between them, the photo detection merge, the suggestion request, and the
    clipart shown for each ingredient. */
module FridgeMatcher {
  import opened Wrappers
  import opened Text
  import opened Types
  import opened GeminiService
  import App

  /** The ingredient-to-emoji table, in its declaration order. */
  const ClipartTable: seq<(string, string)> := [
    ("pomme", "🍎"), ("banane", "🍌"), ("tomate", "🍅"), ("poulet", "🍗"), ("oeuf", "🥚"),
    ("lait", "🥛"), ("fromage", "🧀"), ("carotte", "🥕"), ("oignon", "🧅"), ("ail", "🧄"),
    ("pomme de terre", "🥔"), ("riz", "🍚"), ("pâtes", "🍝"), ("boeuf", "🥩"), ("poisson", "🐟"),
    ("crevette", "🍤"), ("citron", "🍋"), ("fraise", "🍓"), ("orange", "🍊"), ("avocat", "🥑"),
    ("brocoli", "🥦"), ("champignon", "🍄"), ("poivron", "🫑"), ("aubergine", "🍆"),
    ("concombre", "🥒"), ("salade", "🥬"), ("maïs", "🌽"), ("beurre", "🧈"), ("pain", "🍞"),
    ("miel", "🍯"), ("chocolat", "🍫"), ("sucre", "🧂"), ("sel", "🧂"), ("poivre", "🧂"),
    ("huile", "🫗"), ("vin", "🍷"), ("bière", "🍺"), ("eau", "💧"), ("yaourt", "🍦"), ("jambon", "🥓"),
    ("lard", "🥓"), ("saucisse", "🌭"), ("farine", "🥡")
  ]

  const DefaultClipart := "📦"

  /** The emoji of the first key of `table` that occurs in `lower`, or the default. */
  function ClipartFor(table: seq<(string, string)>, lower: string): (emoji: string)
    ensures (forall k :: 0 <= k < |table| ==> !Contains(lower, table[k].0)) ==> emoji == DefaultClipart
    ensures emoji == DefaultClipart || exists k :: 0 <= k < |table| && FirstMatch(table, lower, k) && emoji == table[k].1
  {
    if table == [] then DefaultClipart
    else if Contains(lower, table[0].0) then
      assert FirstMatch(table, lower, 0);
      table[0].1
    else
      var rest := ClipartFor(table[1..], lower);
      assert forall k :: 0 <= k < |table[1..]| ==> table[1..][k] == table[k + 1];
      assert rest != DefaultClipart ==> exists k :: 0 <= k < |table| && FirstMatch(table, lower, k) && rest == table[k].1 by {
        if rest != DefaultClipart {
          var k :| 0 <= k < |table[1..]| && FirstMatch(table[1..], lower, k) && rest == table[1..][k].1;
          assert FirstMatch(table, lower, k + 1);
        }
      }
      rest
  }

  /** The key at `k` occurs in `lower` and no earlier key does. */
  predicate FirstMatch(table: seq<(string, string)>, lower: string, k: int)
    requires 0 <= k < |table|
  {
    Contains(lower, table[k].0) && forall j :: 0 <= j < k ==> !Contains(lower, table[j].0)
  }

  /** The key chosen is the first one that occurs. */
  lemma {:induction false} ClipartFirstMatch(table: seq<(string, string)>, lower: string, k: nat)
    requires k < |table| && FirstMatch(table, lower, k)
    ensures ClipartFor(table, lower) == table[k].1
  {
    if k > 0 {
      assert !Contains(lower, table[0].0);
      assert FirstMatch(table[1..], lower, k - 1);
      ClipartFirstMatch(table[1..], lower, k - 1);
    }
  }

  /** getClipart: the loop over the table's entries, in order, on the lower-cased name;
      run on `ClipartTable` it is the program as written, on `IntendedClipartTable`
      the corrected one. */
  method GetClipart(table: seq<(string, string)>, ingredient: string) returns (emoji: string)
    ensures emoji == ClipartFor(table, ToLower(ingredient))
  {
    var lower := ToLower(ingredient);
    for i := 0 to |table|
      invariant ClipartFor(table[i..], lower) == ClipartFor(table, lower)
    {
      assert table[i..][1..] == table[i + 1..];
      if Contains(lower, table[i].0) {
        return table[i].1;
      }
    }
    return DefaultClipart;
  }

  /** An entry whose key contains an earlier key is never chosen: when its emoji
      appears nowhere else in the table, no name shows that emoji. */
  lemma {:induction false} ShadowedEntry(table: seq<(string, string)>, lower: string, j: nat, m: nat, offset: int)
    requires j < m < |table| && OccursAt(table[m].0, table[j].0, offset)
    requires table[m].1 != DefaultClipart
    requires forall k | 0 <= k < |table| && k != m :: table[k].1 != table[m].1
    ensures ClipartFor(table, lower) != table[m].1
  {
    if Contains(lower, table[m].0) {
      ContainsPiece(lower, table[m].0, table[j].0, offset);
    }
  }

  /** As written, the entry "pomme de terre" is unreachable: "pomme" comes first and
      occurs in it, so no name ever shows a potato. */
  lemma {:induction false} PotatoUnreachable(lower: string)
    ensures ClipartFor(ClipartTable, lower) != "🥔"
  {
    var t := ClipartTable;
    assert t[0] == ("pomme", "🍎");
    assert t[10] == ("pomme de terre", "🥔");
    assert OccursAt(t[10].0, t[0].0, 0);
    NoPotatoBefore(t);
    NoPotatoAfter(t);
    ShadowedEntry(t, lower, 0, 10, 0);
  }

  /** Only the entry at 10 of the table as written shows a potato. */
  lemma {:induction false} NoPotatoBefore(t: seq<(string, string)>)
    requires t == ClipartTable
    ensures forall k | 0 <= k < 10 :: t[k].1 != "🥔"
  {
  }

  lemma {:induction false} NoPotatoAfter(t: seq<(string, string)>)
    requires t == ClipartTable
    ensures forall k | 10 < k < |t| :: t[k].1 != "🥔"
  {
  }

  /** As written, the entry "boeuf" is unreachable: "oeuf" comes first and occurs in
      it, so no name ever shows beef. */
  lemma {:induction false} BeefUnreachable(lower: string)
    ensures ClipartFor(ClipartTable, lower) != "🥩"
  {
    var t := ClipartTable;
    assert t[4] == ("oeuf", "🥚");
    assert t[13] == ("boeuf", "🥩");
    assert t[13].0[1..] == t[4].0;
    assert OccursAt(t[13].0, t[4].0, 1);
    NoBeefBefore(t);
    NoBeefAfter(t);
    ShadowedEntry(t, lower, 4, 13, 1);
  }

  /** Only the entry at 13 of the table as written shows beef. */
  lemma {:induction false} NoBeefBefore(t: seq<(string, string)>)
    requires t == ClipartTable
    ensures forall k | 0 <= k < 13 :: t[k].1 != "🥩"
  {
  }

  lemma {:induction false} NoBeefAfter(t: seq<(string, string)>)
    requires t == ClipartTable
    ensures forall k | 13 < k < |t| :: t[k].1 != "🥩"
  {
  }

  /** A potato shows the apple. */
  lemma {:induction false} PotatoShowsApple(lower: string)
    requires lower == "pomme de terre"
    ensures ClipartFor(ClipartTable, lower) == "🍎"
  {
    assert OccursAt(lower, "pomme", 0);
    assert FirstMatch(ClipartTable, lower, 0);
    ClipartFirstMatch(ClipartTable, lower, 0);
  }

  /** The table with "pomme de terre" ahead of "pomme" and "boeuf" ahead of "oeuf". */
  const IntendedClipartTable: seq<(string, string)> := [
    ("pomme de terre", "🥔"), ("pomme", "🍎"), ("banane", "🍌"), ("tomate", "🍅"), ("poulet", "🍗"),
    ("boeuf", "🥩"), ("oeuf", "🥚"), ("lait", "🥛"), ("fromage", "🧀"), ("carotte", "🥕"),
    ("oignon", "🧅"), ("ail", "🧄"), ("riz", "🍚"), ("pâtes", "🍝"), ("poisson", "🐟"),
    ("crevette", "🍤"), ("citron", "🍋"), ("fraise", "🍓"), ("orange", "🍊"), ("avocat", "🥑"),
    ("brocoli", "🥦"), ("champignon", "🍄"), ("poivron", "🫑"), ("aubergine", "🍆"),
    ("concombre", "🥒"), ("salade", "🥬"), ("maïs", "🌽"), ("beurre", "🧈"), ("pain", "🍞"),
    ("miel", "🍯"), ("chocolat", "🍫"), ("sucre", "🧂"), ("sel", "🧂"), ("poivre", "🧂"),
    ("huile", "🫗"), ("vin", "🍷"), ("bière", "🍺"), ("eau", "💧"), ("yaourt", "🍦"), ("jambon", "🥓"),
    ("lard", "🥓"), ("saucisse", "🌭"), ("farine", "🥡")
  ]

  /** The corrected lookup. */
  function IntendedClipart(lower: string): (emoji: string)
    ensures (forall k :: 0 <= k < |IntendedClipartTable| ==> !Contains(lower, IntendedClipartTable[k].0)) ==> emoji == DefaultClipart
  {
    ClipartFor(IntendedClipartTable, lower)
  }

  /** With the corrected table, a potato shows the potato. */
  lemma {:induction false} IntendedPotato(lower: string)
    requires lower == "pomme de terre"
    ensures IntendedClipart(lower) == "🥔"
  {
    var t := IntendedClipartTable;
    assert t[0] == ("pomme de terre", "🥔");
    assert OccursAt(lower, "pomme de terre", 0);
    assert FirstMatch(t, lower, 0);
    ClipartFirstMatch(t, lower, 0);
  }

  /** With the corrected table, an apple still shows the apple. */
  lemma {:induction false} IntendedApple(lower: string)
    requires lower == "pomme"
    ensures IntendedClipart(lower) == "🍎"
  {
    var t := IntendedClipartTable;
    assert t[0].0 == "pomme de terre" && t[1] == ("pomme", "🍎");
    assert OccursAt(lower, "pomme", 0);
    NotContained(lower, "pomme de terre");
    assert FirstMatch(t, lower, 1);
    ClipartFirstMatch(t, lower, 1);
  }

  /** The first five keys of the corrected table. */
  lemma {:induction false} IntendedHead(t: seq<(string, string)>)
    requires t == IntendedClipartTable
    ensures t[0].0 == "pomme de terre" && t[1].0 == "pomme" && t[2].0 == "banane"
    ensures t[3].0 == "tomate" && t[4].0 == "poulet"
  {
  }

  /** The next two entries of the corrected table: beef, then the egg. */
  lemma {:induction false} IntendedBeefThenEgg(t: seq<(string, string)>)
    requires t == IntendedClipartTable
    ensures t[5] == ("boeuf", "🥩") && t[6] == ("oeuf", "🥚")
  {
  }

  /** With the corrected table, beef shows beef. */
  lemma {:induction false} IntendedBeef(lower: string)
    requires lower == "boeuf"
    ensures IntendedClipart(lower) == "🥩"
  {
    var t := IntendedClipartTable;
    IntendedHead(t);
    IntendedBeefThenEgg(t);
    assert OccursAt(lower, t[5].0, 0);
    NotContained(lower, t[0].0);
    NotContained(lower, t[1].0);
    NotContained(lower, t[2].0);
    NotContained(lower, t[3].0);
    NotContained(lower, t[4].0);
    assert FirstMatch(t, lower, 5);
    ClipartFirstMatch(t, lower, 5);
  }

  /** With the corrected table, an egg still shows the egg. */
  lemma {:induction false} IntendedEgg(lower: string)
    requires lower == "oeuf"
    ensures IntendedClipart(lower) == "🥚"
  {
    var t := IntendedClipartTable;
    IntendedHead(t);
    IntendedBeefThenEgg(t);
    assert OccursAt(lower, t[6].0, 0);
    NotContained(lower, t[0].0);
    NotContained(lower, t[1].0);
    NotContained(lower, t[2].0);
    NotContained(lower, t[3].0);
    NotContained(lower, t[4].0);
    NotContained(lower, t[5].0);
    assert FirstMatch(t, lower, 6);
    ClipartFirstMatch(t, lower, 6);
  }

  /** No item twice. */
  predicate NoDup(s: seq<string>) {
    forall i, j :: 0 <= i < j < |s| ==> s[i] != s[j]
  }

  /** Each list free of duplicates, and no item in both: what the input form enforces
      when an ingredient is added. */
  predicate Consistent(fridge: seq<string>, pot: seq<string>) {
    NoDup(fridge) && NoDup(pot) && forall x :: x in fridge ==> x !in pot
  }

  /** `s.filter(i => i !== x)`. */
  function Without(s: seq<string>, x: string): (r: seq<string>)
    ensures |r| <= |s|
    ensures forall y :: y in r <==> y in s && y != x
    ensures NoDup(s) ==> NoDup(r)
    ensures x !in s ==> r == s
  {
    if s == [] then []
    else
      var rest := Without(s[1..], x);
      assert forall i :: 0 <= i < |s[1..]| ==> s[1..][i] == s[i + 1];
      if s[0] == x then rest
      else
        assert NoDup(s) ==> NoDup([s[0]] + rest) by {
          if NoDup(s) {
            assert s[0] !in s[1..];
            assert s[0] !in rest;
          }
        }
        assert x !in s ==> s == [s[0]] + s[1..];
        [s[0]] + rest
  }

  /** The filter works item by item: it distributes over concatenation, so the items
      kept stay in their order. */
  lemma {:induction false} WithoutConcat(a: seq<string>, b: seq<string>, x: string)
    ensures Without(a + b, x) == Without(a, x) + Without(b, x)
  {
    if a == [] {
      assert a + b == b;
    } else {
      assert (a + b)[0] == a[0] && (a + b)[1..] == a[1..] + b;
      WithoutConcat(a[1..], b, x);
    }
  }

  /** `s.filter((_, i) => i !== idx)`: the item at `idx` dropped, the rest in order;
      nothing dropped when `idx` is out of range. */
  function RemoveAt(s: seq<string>, idx: int): (r: seq<string>)
    ensures 0 <= idx < |s| ==> |r| == |s| - 1
    ensures 0 <= idx < |s| ==> forall i :: 0 <= i < idx ==> r[i] == s[i]
    ensures 0 <= idx < |s| ==> forall i :: idx <= i < |r| ==> r[i] == s[i + 1]
    ensures !(0 <= idx < |s|) ==> r == s
  {
    if 0 <= idx < |s| then s[..idx] + s[idx + 1..] else s
  }

  /** Removing an item keeps a list free of duplicates and adds nothing to it. */
  lemma {:induction false} RemoveAtKeeps(s: seq<string>, idx: int)
    ensures forall y :: y in RemoveAt(s, idx) ==> y in s
    ensures NoDup(s) ==> NoDup(RemoveAt(s, idx))
  {
    var r := RemoveAt(s, idx);
    if 0 <= idx < |s| {
      forall y | y in r
        ensures y in s
      {
        var i :| 0 <= i < |r| && r[i] == y;
        if i < idx { assert s[i] == y; } else { assert s[i + 1] == y; }
      }
      if NoDup(s) {
        forall i, j | 0 <= i < j < |r|
          ensures r[i] != r[j]
        {
          var si := if i < idx then i else i + 1;
          var sj := if j < idx then j else j + 1;
          assert r[i] == s[si] && r[j] == s[sj] && si < sj;
        }
      }
    }
  }

  /** `Array.from(new Set(seen.concat(s)))` when `seen` has no duplicate: the items in
      order of first appearance. */
  function Distinct(seen: seq<string>, s: seq<string>): (r: seq<string>)
    requires NoDup(seen)
    ensures NoDup(r)
    ensures |seen| <= |r| && r[..|seen|] == seen
    ensures forall y :: y in r <==> y in seen || y in s
    decreases |s|
  {
    if s == [] then seen
    else if s[0] in seen then Distinct(seen, s[1..])
    else
      var seen' := seen + [s[0]];
      assert NoDup(seen') by {
        forall i, j | 0 <= i < j < |seen'|
          ensures seen'[i] != seen'[j]
        {
          if j == |seen| { assert seen'[i] == seen[i]; }
        }
      }
      var r := Distinct(seen', s[1..]);
      assert seen'[..|seen|] == seen;
      assert r[..|seen|] == r[..|seen'|][..|seen|];
      r
  }

  /** `Array.from(new Set(s))`. */
  function DedupAll(s: seq<string>): (r: seq<string>)
    ensures NoDup(r)
    ensures forall y :: y in r <==> y in s
  {
    Distinct([], s)
  }

  /** Deduplicating a concatenation deduplicates the first part, then the second. */
  lemma {:induction false} DistinctConcat(seen: seq<string>, a: seq<string>, b: seq<string>)
    requires NoDup(seen)
    ensures Distinct(seen, a + b) == Distinct(Distinct(seen, a), b)
    decreases |a|
  {
    if a != [] {
      assert (a + b)[0] == a[0] && (a + b)[1..] == a[1..] + b;
      if a[0] in seen {
        DistinctConcat(seen, a[1..], b);
      } else {
        DistinctConcat(seen + [a[0]], a[1..], b);
      }
    } else {
      assert a + b == b;
    }
  }

  /** Items already distinct are kept as they are. */
  lemma {:induction false} DistinctOfDistinct(seen: seq<string>, a: seq<string>)
    requires NoDup(seen + a)
    ensures NoDup(seen) && Distinct(seen, a) == seen + a
    decreases |a|
  {
    assert seen == (seen + a)[..|seen|];
    assert NoDup(seen) by {
      forall i, j | 0 <= i < j < |seen|
        ensures seen[i] != seen[j]
      {
        assert seen[i] == (seen + a)[i] && seen[j] == (seen + a)[j];
      }
    }
    if a != [] {
      assert a[0] !in seen by {
        forall i | 0 <= i < |seen|
          ensures seen[i] != a[0]
        {
          assert (seen + a)[i] == seen[i] && (seen + a)[|seen|] == a[0];
        }
      }
      assert seen + a == (seen + [a[0]]) + a[1..];
      DistinctOfDistinct(seen + [a[0]], a[1..]);
    }
  }

  /** The merge of a fridge without duplicates keeps the fridge in front and appends
      the new detections, in order, each once. */
  lemma {:induction false} MergeKeepsFridge(fridge: seq<string>, detected: seq<string>)
    requires NoDup(fridge)
    ensures DedupAll(fridge + detected) == Distinct(fridge, detected)
  {
    DistinctConcat([], fridge, detected);
    assert [] + fridge == fridge;
    DistinctOfDistinct([], fridge);
  }

  /** The photo merge never duplicates an item of the fridge, keeps the fridge first,
      and leaves the lists consistent exactly when no detected item is in the pot. */
  lemma {:induction false} MergeConsistency(fridge: seq<string>, pot: seq<string>, detected: seq<string>)
    requires Consistent(fridge, pot)
    ensures Distinct(fridge, detected)[..|fridge|] == fridge
    ensures Consistent(Distinct(fridge, detected), pot) <==> forall i :: 0 <= i < |detected| ==> detected[i] !in pot
  {
    var merged := Distinct(fridge, detected);
    if !(forall i :: 0 <= i < |detected| ==> detected[i] !in pot) {
      var i :| 0 <= i < |detected| && detected[i] in pot;
      assert detected[i] in merged;
    }
  }

  /** Where a drag ends. */
  datatype Zone = Fridge | Pot {
    /** The source tag a drag from this zone carries. */
    function Tag(): string {
      match this
      case Fridge => "fridge"
      case Pot => "pot"
    }
  }

  /** The fridge matcher's state. */
  class Workspace {
    var fridge: seq<string>
    var pot: seq<string>
    var input: string
    var gameMode: bool
    var suggestions: seq<SuggestedRecipe>
    /** A photo analysis is running. */
    var analyzing: bool
    /** The fridge as it was when the photo being analysed was chosen: the list the
        reader's callback closes over. */
    var captured: seq<string>

    predicate Valid()
      reads this
    {
      Consistent(fridge, pot)
    }

    constructor ()
      ensures fridge == [] && pot == [] && input == "" && !gameMode && suggestions == []
      ensures !analyzing && captured == []
      ensures Valid()
    {
      fridge, pot, input, gameMode, suggestions := [], [], "", false, [];
      analyzing, captured := false, [];
    }

    /** Typing in the input field. */
    method Type(text: string)
      modifies this
      ensures input == text
      ensures fridge == old(fridge) && pot == old(pot)
      ensures gameMode == old(gameMode) && suggestions == old(suggestions)
      ensures analyzing == old(analyzing) && captured == old(captured)
    {
      input := text;
    }

    /** addIngredient: the trimmed input joins the fridge when it is not empty and in
        neither list; the input is then cleared. */
    method AddIngredient()
      modifies this
      ensures var t := Trim(old(input));
        if t != "" && t !in old(fridge) && t !in old(pot)
        then fridge == old(fridge) + [t] && input == ""
        else fridge == old(fridge) && input == old(input)
      ensures pot == old(pot) && gameMode == old(gameMode) && suggestions == old(suggestions)
      ensures analyzing == old(analyzing) && captured == old(captured)
      ensures old(Valid()) ==> Valid()
    {
      var t := Trim(input);
      if t != "" && t !in fridge && t !in pot {
        fridge := fridge + [t];
        input := "";
      }
    }

    /** removeIngredient: drop the item at `idx` of the pot or of the fridge. */
    method RemoveIngredient(idx: int, fromPot: bool)
      modifies this
      ensures fromPot ==> pot == RemoveAt(old(pot), idx) && fridge == old(fridge)
      ensures !fromPot ==> fridge == RemoveAt(old(fridge), idx) && pot == old(pot)
      ensures input == old(input) && gameMode == old(gameMode) && suggestions == old(suggestions)
      ensures analyzing == old(analyzing) && captured == old(captured)
      ensures old(Valid()) ==> Valid()
    {
      RemoveAtKeeps(pot, idx);
      RemoveAtKeeps(fridge, idx);
      if fromPot {
        pot := RemoveAt(pot, idx);
      } else {
        fridge := RemoveAt(fridge, idx);
      }
    }

    /** moveToPot: every copy of `x` leaves the fridge and one copy is appended to the pot.
        The lists stay consistent exactly when `x` was not already in the pot. */
    method MoveToPot(x: string)
      modifies this
      ensures fridge == Without(old(fridge), x) && pot == old(pot) + [x]
      ensures input == old(input) && gameMode == old(gameMode) && suggestions == old(suggestions)
      ensures analyzing == old(analyzing) && captured == old(captured)
      ensures old(Valid()) ==> (Valid() <==> x !in old(pot))
    {
      if x in pot {
        assert (pot + [x])[|pot|] == x;
      }
      fridge := Without(fridge, x);
      pot := pot + [x];
      if old(Valid()) && x in old(pot) {
        var i :| 0 <= i < |old(pot)| && old(pot)[i] == x;
        assert pot[i] == pot[|pot| - 1];
      }
    }

    /** moveToFridge: the mirror image of moveToPot. */
    method MoveToFridge(x: string)
      modifies this
      ensures pot == Without(old(pot), x) && fridge == old(fridge) + [x]
      ensures input == old(input) && gameMode == old(gameMode) && suggestions == old(suggestions)
      ensures analyzing == old(analyzing) && captured == old(captured)
      ensures old(Valid()) ==> (Valid() <==> x !in old(fridge))
    {
      pot := Without(pot, x);
      fridge := fridge + [x];
      if old(Valid()) && x in old(fridge) {
        var i :| 0 <= i < |old(fridge)| && old(fridge)[i] == x;
        assert fridge[i] == fridge[|fridge| - 1];
      }
    }

    /** handleDrop: nothing when the drag's source tag names the target zone, otherwise
        a move into the target. The tag and the item come from the drag data, so a drag
        that did not start in either list (empty tag, empty item) is moved too. */
    method Drop(x: string, source: string, target: Zone)
      modifies this
      ensures source == target.Tag() ==> fridge == old(fridge) && pot == old(pot)
      ensures source != target.Tag() && target == Pot ==> fridge == Without(old(fridge), x) && pot == old(pot) + [x]
      ensures source != target.Tag() && target == Fridge ==> pot == Without(old(pot), x) && fridge == old(fridge) + [x]
      ensures input == old(input) && gameMode == old(gameMode) && suggestions == old(suggestions)
      ensures analyzing == old(analyzing) && captured == old(captured)
      ensures old(Valid()) && source != target.Tag() ==>
        (Valid() <==> x !in (if target == Pot then old(pot) else old(fridge)))
    {
      if source == target.Tag() {
        return;
      }
      if target == Pot {
        MoveToPot(x);
      } else {
        MoveToFridge(x);
      }
    }

    /** handlePhotoAnalysis: a chosen file starts the analysis, and the callback that
        will read the answer keeps the fridge as it is now. The button is disabled
        while an analysis runs; with no file nothing happens. */
    method ChoosePhoto(fileChosen: bool)
      modifies this
      ensures if fileChosen && !old(analyzing)
        then analyzing && captured == old(fridge)
        else analyzing == old(analyzing) && captured == old(captured)
      ensures fridge == old(fridge) && pot == old(pot) && input == old(input)
      ensures gameMode == old(gameMode) && suggestions == old(suggestions)
    {
      if fileChosen && !analyzing {
        analyzing := true;
        captured := fridge;
      }
    }

    /** The analysis answers: when something was detected, the fridge becomes the
        distinct items of the fridge captured when the photo was chosen followed by the
        detections, and the game mode starts; otherwise an alert is shown. Either way
        the analysis ends. */
    method PhotoAnalysed(reply: TextReply) returns (alerted: bool)
      modifies this
      ensures var detected := AnalyzeFridgeImage(reply);
        if detected == [] then fridge == old(fridge) && gameMode == old(gameMode) && alerted
        else fridge == DedupAll(old(captured) + detected) && gameMode && !alerted
      ensures !analyzing && captured == old(captured)
      ensures pot == old(pot) && input == old(input) && suggestions == old(suggestions)
      ensures old(Valid()) && old(captured) == old(fridge) ==> old(fridge) <= fridge
      ensures old(Valid()) && old(captured) == old(fridge) ==>
        (Valid() <==> forall i :: 0 <= i < |AnalyzeFridgeImage(reply)| ==> AnalyzeFridgeImage(reply)[i] !in pot)
    {
      var detected := AnalyzeFridgeImage(reply);
      alerted := detected == [];
      if detected != [] {
        if Valid() && captured == fridge {
          MergeKeepsFridge(fridge, detected);
          MergeConsistency(fridge, pot, detected);
        }
        fridge := DedupAll(captured + detected);
        gameMode := true;
      }
      analyzing := false;
    }

    /** handleSuggest: the pot's items in game mode, the fridge's otherwise; nothing is
        requested when that list is empty. A failed request keeps the old suggestions. */
    method Suggest(reply: JsonReply<seq<SuggestedRecipe>>) returns (requested: Option<seq<string>>)
      modifies this
      ensures var used := if gameMode then pot else fridge;
        if used == [] then requested.None? && suggestions == old(suggestions)
        else requested == Some(used) && suggestions == SuggestRecipes(reply).recipesOr(old(suggestions))
      ensures fridge == old(fridge) && pot == old(pot) && input == old(input) && gameMode == old(gameMode)
      ensures analyzing == old(analyzing) && captured == old(captured)
    {
      var used := if gameMode then pot else fridge;
      if used == [] {
        return None;
      }
      requested := Some(used);
      match SuggestRecipes(reply) {
        case Thrown =>
        case Suggested(v) => suggestions := v;
      }
    }

    /** The "back" button of the game mode. */
    method LeaveGameMode()
      modifies this
      ensures !gameMode
      ensures fridge == old(fridge) && pot == old(pot) && input == old(input) && suggestions == old(suggestions)
      ensures analyzing == old(analyzing) && captured == old(captured)
    {
      gameMode := false;
    }
  }

  /** The merge reads the fridge captured when the photo was chosen. An item moved to
      the pot while the analysis ran comes back into the fridge, so the two lists are
      no longer disjoint; an item added to the fridge meanwhile, and not detected, is
      lost. */
  lemma {:induction false} StaleMerge(captured: seq<string>, pot: seq<string>, detected: seq<string>, moved: string, added: string)
    requires moved in captured && moved in pot
    requires added !in captured && added !in detected
    ensures !Consistent(DedupAll(captured + detected), pot)
    ensures added !in DedupAll(captured + detected)
  {
    assert moved in captured + detected;
  }

  /** handleSaveToMyRecipes: the draft a suggestion becomes. */
  function SuggestionDraft(s: SuggestedRecipe): (d: RecipeDraft)
    ensures d.title == s.title && d.category == MainCourse && d.prepTime == Some(s.prepTime)
    ensures d.ingredients == s.ingredients && d.instructions == s.steps && d.nutrition == s.nutrition
    ensures d.image == Some("") && d.videoUrl.None? && d.rating.None? && d.isFavorite.None?
  {
    RecipeDraft(s.title, MainCourse, s.ingredients, s.steps, Some(""), None, Some(s.prepTime), None, None, s.nutrition)
  }

  /** A saved suggestion always asks for an image, since its image is empty; it keeps
      an empty image when generation fails, its steps become the instructions, and it is
      stored as a main course that is not a favourite. */
  lemma {:induction false} SavedSuggestion(s: SuggestedRecipe, id: string, now: int, imageReply: ImageReply, video: Option<string>,
                                           nutrition: Option<Nutrition>)
    ensures var d := SuggestionDraft(s);
      var image := App.Enriched(d.image, ImageOf(imageReply));
      var r := App.NewRecipe(d, id, now, image, video, nutrition);
      !Truthy(d.image) &&
      image == (if ImageOf(imageReply).Some? then ImageOf(imageReply) else Some("")) &&
      r.instructions == s.steps && r.category == MainCourse && !IsSet(r.isFavorite)
  {
  }
}
