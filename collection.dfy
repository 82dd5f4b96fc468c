/** The transformations App applies to its list of recipes: every update is a `map`
    over the list that changes the record with a given id, deletion is a `filter`,
    creation prepends. */
module RecipeCollection {
  import opened Wrappers
  import opened Types

  /** Some record of `rs` has id `id`. */
  predicate HasId(rs: seq<Recipe>, id: string) {
    exists i :: 0 <= i < |rs| && rs[i].id == id
  }

  /** No two records share an id. The application relies on it (lookups, React keys)
      but does not enforce it. */
  predicate UniqueIds(rs: seq<Recipe>) {
    forall i, j :: 0 <= i < j < |rs| ==> rs[i].id != rs[j].id
  }

  /** Every present rating lies in 0..5. */
  predicate RatingsInRange(rs: seq<Recipe>) {
    forall i :: 0 <= i < |rs| ==> (rs[i].rating.Some? ==> 0 <= rs[i].rating.value <= 5)
  }

  /** The changes App makes to one record. */
  datatype Patch =
    | FlipFavorite
    | SetImage(newImage: string)
    | SetRating(newRating: int)
      /** An edit: `{...r, ...draft, image, videoUrl, nutrition}` with the enriched values. */
    | Overlay(draft: RecipeDraft, image: Option<string>, videoUrl: Option<string>, nutrition: Option<Nutrition>)

  /** A key of the draft overrides the stored one only when present. */
  function Override<T>(fromDraft: Option<T>, stored: Option<T>): (r: Option<T>)
    ensures fromDraft.Some? ==> r == fromDraft
    ensures fromDraft.None? ==> r == stored
  {
    if fromDraft.Some? then fromDraft else stored
  }

  /** The record after the change. */
  function Patched(r: Recipe, p: Patch): (q: Recipe)
    ensures q.id == r.id && q.createdAt == r.createdAt
  {
    match p
    case FlipFavorite => r.(isFavorite := Some(!IsSet(r.isFavorite)))
    case SetImage(image) => r.(image := Some(image))
    case SetRating(v) => r.(rating := Some(v))
    case Overlay(d, image, videoUrl, nutrition) =>
      r.(title := d.title, category := d.category, ingredients := d.ingredients,
         instructions := d.instructions, isFavorite := Override(d.isFavorite, r.isFavorite),
         prepTime := Override(d.prepTime, r.prepTime), rating := Override(d.rating, r.rating),
         image := image, videoUrl := videoUrl, nutrition := nutrition)
  }

  /** `rs.map(r => r.id === id ? patched : r)`. */
  function UpdateWhere(rs: seq<Recipe>, id: string, p: Patch): (out: seq<Recipe>)
    ensures |out| == |rs|
    ensures forall i :: 0 <= i < |rs| ==> out[i] == if rs[i].id == id then Patched(rs[i], p) else rs[i]
    ensures !HasId(rs, id) ==> out == rs
  {
    if rs == [] then []
    else [if rs[0].id == id then Patched(rs[0], p) else rs[0]] + UpdateWhere(rs[1..], id, p)
  }

  /** An update keeps every id in place, so uniqueness is kept. */
  lemma {:induction false} UpdateKeepsIds(rs: seq<Recipe>, id: string, p: Patch)
    ensures forall i :: 0 <= i < |rs| ==> UpdateWhere(rs, id, p)[i].id == rs[i].id
    ensures UniqueIds(rs) ==> UniqueIds(UpdateWhere(rs, id, p))
    ensures forall x :: HasId(UpdateWhere(rs, id, p), x) <==> HasId(rs, x)
  {
    var out := UpdateWhere(rs, id, p);
    forall x
      ensures HasId(out, x) <==> HasId(rs, x)
    {
      if HasId(out, x) {
        var i :| 0 <= i < |out| && out[i].id == x;
        assert rs[i].id == x;
      }
      if HasId(rs, x) {
        var i :| 0 <= i < |rs| && rs[i].id == x;
        assert out[i].id == x;
      }
    }
  }

  /** Toggling the favourite flag twice restores its truth value and changes nothing else. */
  lemma {:induction false} ToggleTwice(rs: seq<Recipe>, id: string)
    ensures var twice := UpdateWhere(UpdateWhere(rs, id, FlipFavorite), id, FlipFavorite);
      |twice| == |rs| &&
      forall i :: 0 <= i < |rs| ==>
        IsSet(twice[i].isFavorite) == IsSet(rs[i].isFavorite) &&
        twice[i].(isFavorite := rs[i].isFavorite) == rs[i]
  {
    var once := UpdateWhere(rs, id, FlipFavorite);
    var twice := UpdateWhere(once, id, FlipFavorite);
    forall i | 0 <= i < |rs|
      ensures IsSet(twice[i].isFavorite) == IsSet(rs[i].isFavorite)
      ensures twice[i].(isFavorite := rs[i].isFavorite) == rs[i]
    {
      assert once[i].id == rs[i].id;
      if rs[i].id == id {
        assert once[i] == rs[i].(isFavorite := Some(!IsSet(rs[i].isFavorite)));
        assert twice[i] == once[i].(isFavorite := Some(!IsSet(once[i].isFavorite)));
      }
    }
  }

  /** A rating update keeps all ratings in 0..5 exactly when the new rating is in
      0..5 or no record carries the id: nothing checks the value. */
  lemma {:induction false} RatingUpdateRange(rs: seq<Recipe>, id: string, v: int)
    ensures RatingsInRange(rs) ==>
      (RatingsInRange(UpdateWhere(rs, id, SetRating(v))) <==> (0 <= v <= 5 || !HasId(rs, id)))
  {
    var out := UpdateWhere(rs, id, SetRating(v));
    if HasId(rs, id) && !(0 <= v <= 5) {
      var i :| 0 <= i < |rs| && rs[i].id == id;
      assert out[i].rating == Some(v);
    }
  }

  /** An edit replaces the content fields, the image and the video link, keeps id and
      creation date, and keeps the stored favourite flag, preparation time and rating
      unless the draft has them; the other records are untouched. */
  lemma {:induction false} EditOverlay(rs: seq<Recipe>, id: string, d: RecipeDraft,
                                       image: Option<string>, videoUrl: Option<string>, nutrition: Option<Nutrition>)
    ensures var out := UpdateWhere(rs, id, Overlay(d, image, videoUrl, nutrition));
      forall i :: 0 <= i < |rs| && rs[i].id == id ==>
        out[i].id == id && out[i].createdAt == rs[i].createdAt &&
        out[i].title == d.title && out[i].ingredients == d.ingredients &&
        out[i].category == d.category && out[i].instructions == d.instructions &&
        out[i].image == image && out[i].videoUrl == videoUrl && out[i].nutrition == nutrition &&
        out[i].rating == (if d.rating.Some? then d.rating else rs[i].rating) &&
        out[i].isFavorite == (if d.isFavorite.Some? then d.isFavorite else rs[i].isFavorite) &&
        out[i].prepTime == (if d.prepTime.Some? then d.prepTime else rs[i].prepTime)
    ensures var out := UpdateWhere(rs, id, Overlay(d, image, videoUrl, nutrition));
      |out| == |rs| && forall i :: 0 <= i < |rs| && rs[i].id != id ==> out[i] == rs[i]
  {
  }

  /** `rs.filter(r => r.id !== id)`. */
  function RemoveId(rs: seq<Recipe>, id: string): (out: seq<Recipe>)
    ensures |out| <= |rs|
    ensures forall x :: x in out <==> x in rs && x.id != id
    ensures !HasId(out, id)
  {
    if rs == [] then []
    else if rs[0].id == id then RemoveId(rs[1..], id)
    else [rs[0]] + RemoveId(rs[1..], id)
  }

  /** The filter keeps the order of the rest: it distributes over concatenation. */
  lemma {:induction false} RemoveIdConcat(a: seq<Recipe>, b: seq<Recipe>, id: string)
    ensures RemoveId(a + b, id) == RemoveId(a, id) + RemoveId(b, id)
  {
    if a == [] {
      assert a + b == b;
    } else {
      assert (a + b)[1..] == a[1..] + b;
      RemoveIdConcat(a[1..], b, id);
    }
  }

  /** Deleting an id no record has changes nothing. */
  lemma {:induction false} RemoveUnknownId(rs: seq<Recipe>, id: string)
    requires !HasId(rs, id)
    ensures RemoveId(rs, id) == rs
  {
    if rs != [] {
      assert !HasId(rs[1..], id) by {
        forall i | 0 <= i < |rs[1..]|
          ensures rs[1..][i].id != id
        {
          assert rs[1..][i] == rs[i + 1];
        }
      }
      RemoveUnknownId(rs[1..], id);
      assert rs == [rs[0]] + rs[1..];
    }
  }

  /** Deletion keeps ids unique. */
  lemma {:induction false} RemoveKeepsUnique(rs: seq<Recipe>, id: string)
    requires UniqueIds(rs)
    ensures UniqueIds(RemoveId(rs, id))
  {
    if rs != [] {
      var rest := RemoveId(rs[1..], id);
      assert UniqueIds(rs[1..]) by {
        forall i, j | 0 <= i < j < |rs[1..]|
          ensures rs[1..][i].id != rs[1..][j].id
        {
          assert rs[1..][i] == rs[i + 1] && rs[1..][j] == rs[j + 1];
        }
      }
      RemoveKeepsUnique(rs[1..], id);
      if rs[0].id != id {
        var out := [rs[0]] + rest;
        forall i, j | 0 <= i < j < |out|
          ensures out[i].id != out[j].id
        {
          if i == 0 {
            assert out[j] in rest;
            assert out[j] in rs[1..];
            var k :| 0 <= k < |rs[1..]| && rs[1..][k] == out[j];
            assert rs[k + 1] == out[j];
          } else {
            assert out[i] == rest[i - 1] && out[j] == rest[j - 1];
          }
        }
      }
    }
  }

  /** `[newRecipe, ...rs]`. */
  function Prepend(r: Recipe, rs: seq<Recipe>): (out: seq<Recipe>)
    ensures |out| == |rs| + 1 && out[0] == r && out[1..] == rs
  {
    [r] + rs
  }

  /** Prepending keeps ids unique exactly when the new id is fresh. Nothing checks
      it: the random id is trusted to be fresh. */
  lemma {:induction false} PrependUnique(r: Recipe, rs: seq<Recipe>)
    requires UniqueIds(rs)
    ensures UniqueIds(Prepend(r, rs)) <==> !HasId(rs, r.id)
  {
    var out := Prepend(r, rs);
    if HasId(rs, r.id) {
      var i :| 0 <= i < |rs| && rs[i].id == r.id;
      assert out[0].id == out[i + 1].id;
    } else {
      forall i, j | 0 <= i < j < |out|
        ensures out[i].id != out[j].id
      {
        if i == 0 {
          assert out[j] == rs[j - 1];
        } else {
          assert out[i] == rs[i - 1] && out[j] == rs[j - 1];
        }
      }
    }
  }

  /** `rs.find(r => r.id === id)`: the first record with the id. */
  function FindById(rs: seq<Recipe>, id: string): (r: Option<Recipe>)
    ensures r.None? <==> !HasId(rs, id)
    ensures r.Some? ==> r.value in rs && r.value.id == id
    ensures r.Some? ==> exists i :: 0 <= i < |rs| && rs[i] == r.value && forall j :: 0 <= j < i ==> rs[j].id != id
  {
    if rs == [] then None
    else if rs[0].id == id then Some(rs[0])
    else
      var found := FindById(rs[1..], id);
      assert HasId(rs, id) ==> HasId(rs[1..], id) by {
        if HasId(rs, id) {
          var i :| 0 <= i < |rs| && rs[i].id == id;
          assert rs[1..][i - 1].id == id;
        }
      }
      assert HasId(rs[1..], id) ==> HasId(rs, id) by {
        if HasId(rs[1..], id) {
          var i :| 0 <= i < |rs[1..]| && rs[1..][i].id == id;
          assert rs[i + 1].id == id;
        }
      }
      assert found.Some? ==> exists i :: 0 <= i < |rs| && rs[i] == found.value && forall j :: 0 <= j < i ==> rs[j].id != id by {
        if found.Some? {
          var k :| 0 <= k < |rs[1..]| && rs[1..][k] == found.value && forall j :: 0 <= j < k ==> rs[1..][j].id != id;
          assert rs[k + 1] == found.value;
          assert forall j :: 0 <= j < k + 1 ==> rs[j].id != id by {
            forall j | 0 <= j < k + 1
              ensures rs[j].id != id
            {
              if j > 0 {
                assert rs[j] == rs[1..][j - 1];
              }
            }
          }
        }
      }
      found
  }

  /** After an update of `id`, looking `id` up finds the patched record. */
  lemma {:induction false} FindAfterUpdate(rs: seq<Recipe>, id: string, p: Patch)
    ensures FindById(UpdateWhere(rs, id, p), id) ==
      if HasId(rs, id) then Some(Patched(FindById(rs, id).value, p)) else None
  {
    if rs != [] {
      var out := UpdateWhere(rs, id, p);
      assert out[1..] == UpdateWhere(rs[1..], id, p);
      FindAfterUpdate(rs[1..], id, p);
      UpdateKeepsIds(rs, id, p);
    }
  }

  /** After a deletion of `id`, looking `id` up finds nothing and looking up any
      other id finds the same record as before. */
  lemma {:induction false} FindAfterRemove(rs: seq<Recipe>, id: string, other: string)
    ensures FindById(RemoveId(rs, id), other) == if other == id then None else FindById(rs, other)
  {
    if rs != [] && other != id {
      FindAfterRemove(rs[1..], id, other);
      if rs[0].id != id {
        assert ([rs[0]] + RemoveId(rs[1..], id))[1..] == RemoveId(rs[1..], id);
      }
    }
  }
}
