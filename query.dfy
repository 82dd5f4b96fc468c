/** The list App shows: the recipes that pass the category filter and the search,
    sorted by creation date (newest first) or by title. */
module RecipeQuery {
  import opened Text
  import opened Types

  /** The category chip: everything, the favourites, or one category. */
  datatype CategoryFilter = All | Favorites | Only(category: Category)

  datatype SortOrder = Recent | Alphabetical

  predicate MatchesCategory(r: Recipe, f: CategoryFilter) {
    match f
    case All => true
    case Favorites => IsSet(r.isFavorite)
    case Only(c) => r.category == c
  }

  /** The lower-cased query occurs in the lower-cased title or in some lower-cased ingredient. */
  predicate MatchesSearch(r: Recipe, query: string) {
    var q := ToLower(query);
    Contains(ToLower(r.title), q) ||
    exists i :: 0 <= i < |r.ingredients| && Contains(ToLower(r.ingredients[i]), q)
  }

  predicate Matches(r: Recipe, f: CategoryFilter, query: string) {
    MatchesCategory(r, f) && MatchesSearch(r, query)
  }

  /** `rs.filter(...)`: the matching records in their stored order. */
  function Filter(rs: seq<Recipe>, f: CategoryFilter, query: string): (out: seq<Recipe>)
    ensures |out| <= |rs|
    ensures forall x :: x in out <==> x in rs && Matches(x, f, query)
    ensures forall x :: x in out ==> multiset(out)[x] == multiset(rs)[x]
  {
    if rs == [] then []
    else
      assert rs == [rs[0]] + rs[1..];
      if Matches(rs[0], f, query) then [rs[0]] + Filter(rs[1..], f, query)
      else Filter(rs[1..], f, query)
  }

  /** `le` orders every pair and is transitive. */
  ghost predicate TotalPreorder<T(!new)>(le: (T, T) -> bool) {
    (forall a, b :: le(a, b) || le(b, a)) &&
    (forall a, b, c :: le(a, b) && le(b, c) ==> le(a, c))
  }

  predicate SortedBy<T>(s: seq<T>, le: (T, T) -> bool) {
    forall i, j :: 0 <= i < j < |s| ==> le(s[i], s[j])
  }

  /** `x` placed before the first item it may precede. */
  function Insert<T>(x: T, ys: seq<T>, le: (T, T) -> bool): (r: seq<T>)
    ensures multiset(r) == multiset(ys) + multiset{x}
  {
    if ys == [] then [x]
    else if le(x, ys[0]) then [x] + ys
    else
      assert ys == [ys[0]] + ys[1..];
      [ys[0]] + Insert(x, ys[1..], le)
  }

  /** A stable sort: items that compare both ways keep their input order, as with
      `Array.prototype.sort`. */
  function SortBy<T>(xs: seq<T>, le: (T, T) -> bool): (r: seq<T>)
    ensures multiset(r) == multiset(xs)
  {
    if xs == [] then []
    else
      assert xs == [xs[0]] + xs[1..];
      Insert(xs[0], SortBy(xs[1..], le), le)
  }

  lemma {:induction false} InsertSorted<T(!new)>(x: T, ys: seq<T>, le: (T, T) -> bool)
    requires TotalPreorder(le) && SortedBy(ys, le)
    ensures SortedBy(Insert(x, ys, le), le)
  {
    if ys != [] && !le(x, ys[0]) {
      var rest := Insert(x, ys[1..], le);
      InsertSorted(x, ys[1..], le);
      var r := [ys[0]] + rest;
      forall k | 0 <= k < |rest|
        ensures le(ys[0], rest[k])
      {
        assert rest[k] in multiset(rest);
        if rest[k] != x {
          assert rest[k] in multiset(ys[1..]);
          var j :| 0 <= j < |ys[1..]| && ys[1..][j] == rest[k];
          assert ys[j + 1] == rest[k];
        }
      }
      forall i, j | 0 <= i < j < |r|
        ensures le(r[i], r[j])
      {
        if i == 0 {
          assert r[j] == rest[j - 1];
        } else {
          assert r[i] == rest[i - 1] && r[j] == rest[j - 1];
        }
      }
    }
  }

  lemma {:induction false} SortBySorted<T(!new)>(xs: seq<T>, le: (T, T) -> bool)
    requires TotalPreorder(le)
    ensures SortedBy(SortBy(xs, le), le)
  {
    if xs != [] {
      SortBySorted(xs[1..], le);
      InsertSorted(xs[0], SortBy(xs[1..], le), le);
    }
  }

  /** The comparison of the chosen order: newest first (`b.createdAt - a.createdAt`),
      or `titleLe`, which stands for `a.title.localeCompare(b.title) <= 0`. */
  function Precedes(order: SortOrder, titleLe: (string, string) -> bool): (Recipe, Recipe) -> bool {
    match order
    case Recent => (a: Recipe, b: Recipe) => a.createdAt >= b.createdAt
    case Alphabetical => (a: Recipe, b: Recipe) => titleLe(a.title, b.title)
  }

  lemma {:induction false} PrecedesTotal(order: SortOrder, titleLe: (string, string) -> bool)
    requires order == Alphabetical ==> TotalPreorder(titleLe)
    ensures TotalPreorder(Precedes(order, titleLe))
  {
    var le := Precedes(order, titleLe);
    if order == Alphabetical {
      forall a: Recipe, b: Recipe
        ensures le(a, b) || le(b, a)
      {
        assert titleLe(a.title, b.title) || titleLe(b.title, a.title);
      }
      forall a: Recipe, b: Recipe, c: Recipe | le(a, b) && le(b, c)
        ensures le(a, c)
      {
        assert titleLe(a.title, b.title) && titleLe(b.title, c.title);
      }
    }
  }

  /** The records shown, in display order. */
  function View(rs: seq<Recipe>, f: CategoryFilter, query: string, order: SortOrder,
                titleLe: (string, string) -> bool): (out: seq<Recipe>)
    ensures multiset(out) == multiset(Filter(rs, f, query))
    ensures forall x :: x in out <==> x in rs && Matches(x, f, query)
  {
    var filtered := Filter(rs, f, query);
    var out := SortBy(filtered, Precedes(order, titleLe));
    assert forall x :: x in out <==> x in multiset(filtered);
    out
  }

  /** The view is sorted: newest first, or by title when the title comparison is a total preorder. */
  lemma {:induction false} ViewSorted(rs: seq<Recipe>, f: CategoryFilter, query: string, order: SortOrder,
                                      titleLe: (string, string) -> bool)
    requires order == Alphabetical ==> TotalPreorder(titleLe)
    ensures SortedBy(View(rs, f, query, order, titleLe), Precedes(order, titleLe))
    ensures order == Recent ==> forall i, j :: 0 <= i < j < |View(rs, f, query, order, titleLe)| ==>
      View(rs, f, query, order, titleLe)[i].createdAt >= View(rs, f, query, order, titleLe)[j].createdAt
  {
    PrecedesTotal(order, titleLe);
    SortBySorted(Filter(rs, f, query), Precedes(order, titleLe));
  }

  /** Every record matches the empty search. */
  lemma {:induction false} EmptySearchMatchesAll(r: Recipe)
    ensures MatchesSearch(r, "")
  {
    assert OccursAt(ToLower(r.title), ToLower(""), 0);
  }

  /** With an empty search, the Favourites chip shows exactly the favourites. */
  lemma {:induction false} FavoritesShowsFavorites(rs: seq<Recipe>, order: SortOrder, titleLe: (string, string) -> bool)
    ensures forall x :: x in View(rs, Favorites, "", order, titleLe) <==> x in rs && IsSet(x.isFavorite)
  {
    forall x | x in rs
      ensures Matches(x, Favorites, "") <==> IsSet(x.isFavorite)
    {
      EmptySearchMatchesAll(x);
    }
  }

  /** A title containing the query matches it, whatever the case of either. */
  lemma {:induction false} TitleContainingQueryMatches(r: Recipe, query: string)
    requires Contains(r.title, query)
    ensures MatchesSearch(r, query)
  {
    ContainsIgnoringCase(r.title, query);
  }

  /** An ingredient "Tomates" is found by the query "TOMATE". */
  lemma {:induction false} IngredientSearchExample(r: Recipe)
    requires r.ingredients == ["Tomates"]
    ensures MatchesSearch(r, "TOMATE")
  {
    assert ToLower("TOMATE") == "tomate";
    assert ToLower("Tomates") == "tomates";
    assert OccursAt(ToLower(r.ingredients[0]), ToLower("TOMATE"), 0);
  }

  /** Recipes created at 100, 300 and 200 are shown newest first in Recent order. */
  lemma {:induction false} RecentOrderExample(a: Recipe, b: Recipe, c: Recipe, titleLe: (string, string) -> bool)
    requires a.createdAt == 100 && b.createdAt == 300 && c.createdAt == 200
    ensures SortBy([a, b, c], Precedes(Recent, titleLe)) == [b, c, a]
  {
    var le := Precedes(Recent, titleLe);
    assert [a, b, c][1..] == [b, c] && [b, c][1..] == [c];
    assert SortBy([c], le) == [c];
    assert Insert(b, [c], le) == [b, c];
    assert [b, c][1..] == [c] && Insert(a, [c], le) == [c, a];
    assert Insert(a, [b, c], le) == [b, c, a];
  }
}
