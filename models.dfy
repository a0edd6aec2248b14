/** The documents of the backend's collections, as values.  Stored documents
    hold ingredient ids; a read through `populate` replaces each id by the
    ingredient document it names, or by `null` when that ingredient no
    longer exists. */
module Models {
  import opened Common

  /** An ingredient of the catalog. */
  datatype Ingredient = Ingredient(name: string)

  /** The shapes an ingredient reference can take when it reaches the
      service: missing (`null`/`undefined`), a plain string, a raw
      ObjectId, a populated ingredient document, or an object that has
      neither an `_id` nor a `toString`. */
  datatype IngredientRef =
    | Absent
    | Text(text: string)
    | RawObjectId(hex: IngredientId)
    | PopulatedDoc(id: IngredientId, ingredient: Ingredient)
    | Bare

  /** `populate`: the stored id becomes the ingredient document when the
      catalog has it and `null` otherwise. */
  function Populate(id: IngredientId, catalog: map<IngredientId, Ingredient>): (r: IngredientRef)
    ensures r.PopulatedDoc? <==> id in catalog
    ensures r.PopulatedDoc? ==> r.id == id && r.ingredient == catalog[id]
    ensures r.Absent? <==> id !in catalog
  {
    if id in catalog then PopulatedDoc(id, catalog[id]) else Absent
  }

  /** One line of a recipe: the ingredient, an optional quantity and an
      optional unit. */
  datatype RecipeIngredient = RecipeIngredient(ingredient: IngredientId, quantity: Option<real>, unit: Option<string>)

  /** One user's rating of a recipe. */
  datatype RatingEntry = RatingEntry(userId: UserId, value: real)

  /** A recipe document.  `ratings` is `None` for a document that has no
      ratings array at all. */
  datatype Recipe = Recipe(
    id: RecipeId,
    title: string,
    timeRequired: Option<real>,
    difficulty: string,
    recipeType: string,
    ingredients: seq<RecipeIngredient>,
    rating: real,
    ratingCount: nat,
    ratingTotal: real,
    ratings: Option<seq<RatingEntry>>)

  /** One entry of a user's fridge. */
  datatype FridgeItem = FridgeItem(ingredient: IngredientId, quantity: real, unit: string, addedAt: Timestamp)

  /** One entry of a user's view history. */
  datatype HistoryItem = HistoryItem(recipe: RecipeId, viewedAt: Timestamp)
}
