/** The records of the application: a recipe, the draft a form or a suggestion
    submits, and a recipe suggested by the model. */
module Types {
  import opened Wrappers

  /** The closed enumeration of dish categories, with the labels the application stores. */
  datatype Category = Entree | MainCourse | Dessert | Snack | Drink {
    function Label(): string {
      match this
      case Entree => "Entrée"
      case MainCourse => "Plat Principal"
      case Dessert => "Dessert"
      case Snack => "Snack"
      case Drink => "Boisson"
    }
  }

  /** The categories in declaration order (`Object.values(Category)`). */
  const AllCategories: seq<Category> := [Entree, MainCourse, Dessert, Snack, Drink]

  /** The category whose label is `s`, if any. */
  function CategoryOfLabel(s: string): (c: Option<Category>)
    ensures c.Some? ==> c.value.Label() == s
  {
    if s == "Entrée" then Some(Entree)
    else if s == "Plat Principal" then Some(MainCourse)
    else if s == "Dessert" then Some(Dessert)
    else if s == "Snack" then Some(Snack)
    else if s == "Boisson" then Some(Drink)
    else None
  }

  /** Labels identify categories: reading a label back gives its category, and
      the five categories are all listed, each once. */
  lemma {:induction false} LabelRoundTrip(c: Category)
    ensures CategoryOfLabel(c.Label()) == Some(c)
    ensures c in AllCategories && |AllCategories| == 5
    ensures forall i, j :: 0 <= i < j < |AllCategories| ==> AllCategories[i].Label() != AllCategories[j].Label()
  {
  }

  /** Nutrition facts. Numbers are carried, never computed with. `EmptyObject` is the
      `{}` that parsing an absent model answer produces: it has none of the fields. */
  datatype Nutrition =
    | Facts(calories: real, protein: real, carbs: real, fat: real, advice: Option<string>)
    | EmptyObject

  datatype Recipe = Recipe(
    id: string,
    title: string,
    category: Category,
    ingredients: seq<string>,
    instructions: seq<string>,
    image: Option<string>,
    createdAt: int,
    isFavorite: Option<bool>,
    prepTime: Option<string>,
    videoUrl: Option<string>,
    rating: Option<int>,
    nutrition: Option<Nutrition>)

  /** A recipe without `id` and `createdAt`, as the forms and the suggestion view submit
      it. For `isFavorite`, `prepTime` and `rating`, None means the key is absent, so an
      edit keeps the stored value. */
  datatype RecipeDraft = RecipeDraft(
    title: string,
    category: Category,
    ingredients: seq<string>,
    instructions: seq<string>,
    image: Option<string>,
    isFavorite: Option<bool>,
    prepTime: Option<string>,
    videoUrl: Option<string>,
    rating: Option<int>,
    nutrition: Option<Nutrition>)

  /** A recipe proposed by the model; never stored as it is. */
  datatype SuggestedRecipe = SuggestedRecipe(
    title: string,
    description: string,
    ingredients: seq<string>,
    steps: seq<string>,
    prepTime: string,
    nutrition: Option<Nutrition>)

  /** JavaScript truthiness of an optional string: present and not empty. */
  predicate Truthy(s: Option<string>) {
    s.Some? && s.value != ""
  }

  /** JavaScript truthiness of an optional boolean. */
  predicate IsSet(b: Option<bool>) {
    b == Some(true)
  }

  /** `rating || 0`. */
  function RatingOrZero(r: Option<int>): int {
    r.GetOr(0)
  }
}
