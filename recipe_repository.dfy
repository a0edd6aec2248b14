/** The recipe repository: the field rules applied before a recipe is
    saved, the "every ingredient at hand" search, and rating upsert with
    its running aggregates. */
module RecipeRepository {
  import opened Common
  import opened Models

  const AllowedTypes: seq<string> := ["Ecuatoriana", "Italiana", "Mexicana", "Asiática", "Postres", "Rápida"]
  const AllowedDifficulties: seq<string> := ["Principiante", "Intermedio", "Avanzado"]

  /** The type every short recipe is forced into. */
  const QuickType: string := "Rápida"

  /** The fields of a create or update request body; `None` is a field the
      request leaves out.  Any field of the document may be supplied,
      the rating aggregates included. */
  datatype RecipeData = RecipeData(
    title: Option<string>,
    timeRequired: Option<real>,
    difficulty: Option<string>,
    recipeType: Option<string>,
    ingredients: Option<seq<RecipeIngredient>>,
    rating: Option<real>,
    ratingCount: Option<nat>,
    ratingTotal: Option<real>,
    ratings: Option<seq<RatingEntry>>)

  datatype RecipeError = InvalidDifficulty | InvalidType | InvalidRating

  // ---------------------------------------------------------------------
  // Field rules of create / updateById

  /** `data.timeRequired && data.timeRequired <= 15`: a supplied, non-zero
      time of at most 15 minutes. */
  predicate ForcesQuick(data: RecipeData) {
    data.timeRequired.Some? && data.timeRequired.value != 0.0 && data.timeRequired.value <= 15.0
  }

  /** `data.f && !ALLOWED.includes(data.f)`: a supplied, non-empty value that
      is not on the allow-list. */
  predicate Disallowed(field: Option<string>, allowed: seq<string>) {
    field.Some? && field.value != "" && field.value !in allowed
  }

  /** The rules `create` and `updateById` apply before saving: a short
      recipe becomes quick, then the difficulty and the type are checked,
      in that order.  A forced quick type always passes. */
  function ValidateForSave(data: RecipeData): (r: Result<RecipeData, RecipeError>)
    ensures r.Ok? ==> r.value == data.(recipeType := r.value.recipeType)
    ensures r.Ok? ==> r.value.recipeType == (if ForcesQuick(data) then Some(QuickType) else data.recipeType)
    ensures r.Ok? ==> !Disallowed(r.value.difficulty, AllowedDifficulties) && !Disallowed(r.value.recipeType, AllowedTypes)
    ensures r == Err(InvalidDifficulty) <==> Disallowed(data.difficulty, AllowedDifficulties)
    ensures r == Err(InvalidType) <==>
      !Disallowed(data.difficulty, AllowedDifficulties) && !ForcesQuick(data) && Disallowed(data.recipeType, AllowedTypes)
    ensures r.Ok? || r == Err(InvalidDifficulty) || r == Err(InvalidType)
  {
    var checked := if ForcesQuick(data) then data.(recipeType := Some(QuickType)) else data;
    if Disallowed(checked.difficulty, AllowedDifficulties) then Err(InvalidDifficulty)
    else if Disallowed(checked.recipeType, AllowedTypes) then Err(InvalidType)
    else Ok(checked)
  }

  /** A time of 0 or no time at all forces nothing. */
  lemma ZeroTimeForcesNothing(data: RecipeData)
    requires data.timeRequired == None || data.timeRequired == Some(0.0)
    ensures ValidateForSave(data).Ok? ==> ValidateForSave(data).value == data
  {
  }

  /** The update `findByIdAndUpdate(id, data)` makes to a stored recipe:
      every supplied field replaces the stored one, the others are kept. */
  function Patched(recipe: Recipe, data: RecipeData): (r: Recipe)
    ensures r.id == recipe.id
    ensures r.title == data.title.GetOr(recipe.title)
    ensures r.timeRequired == (if data.timeRequired.Some? then data.timeRequired else recipe.timeRequired)
    ensures r.difficulty == data.difficulty.GetOr(recipe.difficulty)
    ensures r.recipeType == data.recipeType.GetOr(recipe.recipeType)
    ensures r.ingredients == data.ingredients.GetOr(recipe.ingredients)
    ensures r.rating == data.rating.GetOr(recipe.rating)
    ensures r.ratingCount == data.ratingCount.GetOr(recipe.ratingCount)
    ensures r.ratingTotal == data.ratingTotal.GetOr(recipe.ratingTotal)
    ensures r.ratings == (if data.ratings.Some? then data.ratings else recipe.ratings)
  {
    Recipe(recipe.id,
           data.title.GetOr(recipe.title),
           if data.timeRequired.Some? then data.timeRequired else recipe.timeRequired,
           data.difficulty.GetOr(recipe.difficulty),
           data.recipeType.GetOr(recipe.recipeType),
           data.ingredients.GetOr(recipe.ingredients),
           data.rating.GetOr(recipe.rating),
           data.ratingCount.GetOr(recipe.ratingCount),
           data.ratingTotal.GetOr(recipe.ratingTotal),
           if data.ratings.Some? then data.ratings else recipe.ratings)
  }

  /** A request that supplies none of the fields the aggregate invariant
      relates. */
  predicate LeavesAggregates(data: RecipeData) {
    data.ratingCount.None? && data.ratingTotal.None? && data.ratings.None?
  }

  /** An update that leaves the aggregates alone keeps a consistent recipe
      consistent. */
  lemma PatchKeepsAggregates(recipe: Recipe, data: RecipeData)
    requires RatingsConsistent(recipe) && LeavesAggregates(data)
    ensures RatingsConsistent(Patched(recipe, data))
  {
  }

  /** An update can break the aggregates: overwriting the total of a
      recipe rated once with 4 by 99 leaves it disagreeing with the
      ratings array. */
  lemma PatchCanBreakAggregates(recipe: Recipe, userId: UserId)
    requires recipe.ratings == Some([RatingEntry(userId, 4.0)]) && RatingsConsistent(recipe)
    ensures !RatingsConsistent(Patched(recipe, RecipeData(None, None, None, None, None, None, None, Some(99.0), None)))
  {
    assert SumValues([RatingEntry(userId, 4.0)]) == 4.0 by {
      assert [RatingEntry(userId, 4.0)][1..] == [];
    }
  }

  // ---------------------------------------------------------------------
  // findByIngredients

  /** The ingredient ids of a stored recipe, in order, duplicates kept. */
  function RecipeIngredientIds(recipe: Recipe): (ids: seq<IngredientId>)
    ensures |ids| == |recipe.ingredients|
    ensures forall k :: 0 <= k < |ids| ==> ids[k] == recipe.ingredients[k].ingredient
  {
    seq(|recipe.ingredients|, k requires 0 <= k < |recipe.ingredients| => recipe.ingredients[k].ingredient)
  }

  /** The query ids that survive `ObjectId.isValid`. */
  function ValidIds(ids: seq<string>, validId: string -> bool): (r: seq<string>)
    ensures forall x :: x in r <==> x in ids && validId(x)
    ensures |r| <= |ids|
  {
    if ids == [] then []
    else (if validId(ids[0]) then [ids[0]] else []) + ValidIds(ids[1..], validId)
  }

  /** The aggregation's test: the size of the SET intersection of the
      recipe's ids with the query equals the LENGTH of the recipe's list. */
  predicate ExactMatch(ids: seq<IngredientId>, query: set<IngredientId>) {
    |Elements(ids) * query| == |ids|
  }

  lemma {:induction false} ElementsSize<T>(s: seq<T>)
    ensures |Elements(s)| <= |s|
    ensures |Elements(s)| == |s| <==> Distinct(s)
  {
    if s == [] {
    } else {
      var rest := s[1..];
      ElementsSize(rest);
      assert Elements(s) == {s[0]} + Elements(rest) by {
        forall x ensures x in Elements(s) <==> x in {s[0]} + Elements(rest) {
          if x in Elements(s) && x != s[0] {
            var k :| 0 <= k < |s| && s[k] == x;
            assert rest[k - 1] == x;
          }
        }
      }
      if s[0] in rest {
        assert Elements(s) == Elements(rest);
        var k :| 0 <= k < |rest| && rest[k] == s[0];
        assert s[k + 1] == s[0];
        assert !Distinct(s);
      } else {
        assert |Elements(s)| == 1 + |Elements(rest)|;
        if Distinct(s) {
          assert Distinct(rest) by {
            forall i, j | 0 <= i < j < |rest| ensures rest[i] != rest[j] {
              assert rest[i] == s[i + 1] && rest[j] == s[j + 1];
            }
          }
        }
        if Distinct(rest) {
          forall i, j | 0 <= i < j < |s| ensures s[i] != s[j] {
            if i == 0 {
              assert s[j] == rest[j - 1];
            } else {
              assert s[i] == rest[i - 1] && s[j] == rest[j - 1];
            }
          }
        }
      }
    }
  }

  lemma IntersectionSize<T>(a: set<T>, b: set<T>)
    ensures |a * b| <= |a|
    ensures |a * b| == |a| <==> a <= b
  {
    if !(a <= b) {
      var x :| x in a && x !in b;
      assert a * b <= a - {x};
      SubsetSize(a * b, a - {x});
    } else {
      assert a * b == a;
    }
    SubsetSize(a * b, a);
  }

  lemma SubsetSize<T>(a: set<T>, b: set<T>)
    requires a <= b
    ensures |a| <= |b|
  {
    assert b == a + (b - a);
  }

  /** The aggregation's test means: every ingredient of the recipe is in
      the query, and the recipe lists no ingredient twice. */
  lemma {:induction false} ExactMatchMeans(ids: seq<IngredientId>, query: set<IngredientId>)
    ensures ExactMatch(ids, query) <==> (forall k :: 0 <= k < |ids| ==> ids[k] in query) && Distinct(ids)
  {
    ElementsSize(ids);
    IntersectionSize(Elements(ids), query);
    if forall k :: 0 <= k < |ids| ==> ids[k] in query {
      assert Elements(ids) <= query;
    }
    if Elements(ids) <= query {
      forall k | 0 <= k < |ids| ensures ids[k] in query {
        assert ids[k] in Elements(ids);
      }
    }
  }

  /** `findByIngredients`: the recipes of the catalog, in catalog order,
      whose ingredient list passes the test against the valid query ids. */
  function FindByIngredients(catalog: seq<Recipe>, ingredientIds: seq<string>, validId: string -> bool)
    : (r: seq<Recipe>)
    ensures forall x :: x in r <==>
      x in catalog && ExactMatch(RecipeIngredientIds(x), Elements(ValidIds(ingredientIds, validId)))
    ensures |r| <= |catalog|
  {
    if catalog == [] then []
    else
      var query := Elements(ValidIds(ingredientIds, validId));
      var head := if ExactMatch(RecipeIngredientIds(catalog[0]), query) then [catalog[0]] else [];
      head + FindByIngredients(catalog[1..], ingredientIds, validId)
  }

  /** A recipe with no ingredients is always found; one that lists an
      ingredient twice, or needs an ingredient the query lacks or gives
      only as an invalid id, never is. */
  lemma FindByIngredientsCases(catalog: seq<Recipe>, ingredientIds: seq<string>, validId: string -> bool, x: Recipe)
    requires x in catalog
    ensures x.ingredients == [] ==> x in FindByIngredients(catalog, ingredientIds, validId)
    ensures !Distinct(RecipeIngredientIds(x)) ==> x !in FindByIngredients(catalog, ingredientIds, validId)
    ensures (exists k :: 0 <= k < |x.ingredients|
               && (x.ingredients[k].ingredient !in ingredientIds || !validId(x.ingredients[k].ingredient)))
            ==> x !in FindByIngredients(catalog, ingredientIds, validId)
  {
    var query := Elements(ValidIds(ingredientIds, validId));
    ExactMatchMeans(RecipeIngredientIds(x), query);
    if x.ingredients == [] {
      assert RecipeIngredientIds(x) == [];
      assert Elements(RecipeIngredientIds(x)) == {};
    }
  }

  // ---------------------------------------------------------------------
  // rateRecipe

  /** Sum of the rating values. */
  function SumValues(rs: seq<RatingEntry>): real {
    if rs == [] then 0.0 else rs[0].value + SumValues(rs[1..])
  }

  predicate UniqueRaters(rs: seq<RatingEntry>) {
    forall i, j :: 0 <= i < j < |rs| ==> rs[i].userId != rs[j].userId
  }

  /** The aggregates of a recipe agree with its ratings array. */
  predicate RatingsConsistent(recipe: Recipe) {
    recipe.ratings.Some? ==>
      && recipe.ratingTotal == SumValues(recipe.ratings.value)
      && recipe.ratingCount == |recipe.ratings.value|
      && UniqueRaters(recipe.ratings.value)
  }

  /** `ratings.find(r => r.userId.equals(userId))`: the first entry of the
      user, or -1. */
  function FindRater(rs: seq<RatingEntry>, userId: UserId): (i: int)
    ensures -1 <= i < |rs|
    ensures i >= 0 ==> rs[i].userId == userId && forall k :: 0 <= k < i ==> rs[k].userId != userId
    ensures i == -1 ==> forall k :: 0 <= k < |rs| ==> rs[k].userId != userId
  {
    if rs == [] then -1
    else if rs[0].userId == userId then 0
    else
      var j := FindRater(rs[1..], userId);
      if j == -1 then -1 else j + 1
  }

  /** The recipe after `userId` rates it `value`: the user's entry is
      replaced (total adjusted by new minus old, count kept) or appended
      (count and total grow), and the mean is recomputed. */
  function RatedRecipe(recipe: Recipe, userId: UserId, value: real): (r: Recipe)
    requires RatingsConsistent(recipe)
  {
    match recipe.ratings
    case Some(rs) =>
      var i := FindRater(rs, userId);
      if i >= 0 then
        var total := recipe.ratingTotal - rs[i].value + value;
        recipe.(ratingTotal := total, ratings := Some(rs[i := rs[i].(value := value)]),
                rating := total / (recipe.ratingCount as real))
      else
        var total, count := recipe.ratingTotal + value, recipe.ratingCount + 1;
        recipe.(ratingTotal := total, ratingCount := count, ratings := Some(rs + [RatingEntry(userId, value)]),
                rating := total / (count as real))
    case None =>
      var total, count := recipe.ratingTotal + value, recipe.ratingCount + 1;
      recipe.(ratingTotal := total, ratingCount := count, rating := total / (count as real))
  }

  lemma {:induction false} SumValuesAppend(rs: seq<RatingEntry>, e: RatingEntry)
    ensures SumValues(rs + [e]) == SumValues(rs) + e.value
  {
    if rs != [] {
      assert (rs + [e])[1..] == rs[1..] + [e];
      SumValuesAppend(rs[1..], e);
    }
  }

  lemma {:induction false} SumValuesUpdate(rs: seq<RatingEntry>, i: int, e: RatingEntry)
    requires 0 <= i < |rs|
    ensures SumValues(rs[i := e]) == SumValues(rs) - rs[i].value + e.value
  {
    if i > 0 {
      assert rs[i := e][1..] == rs[1..][i - 1 := e];
      SumValuesUpdate(rs[1..], i - 1, e);
    }
  }

  /** Rating keeps the aggregates consistent with the entries, keeps at most
      one entry per user, records the user's value, and leaves the mean
      equal to total over count. */
  lemma RatingKeepsAggregates(recipe: Recipe, userId: UserId, value: real)
    requires RatingsConsistent(recipe)
    ensures var r := RatedRecipe(recipe, userId, value);
      && RatingsConsistent(r)
      && r.ratingCount > 0 && r.rating == r.ratingTotal / (r.ratingCount as real)
      && r.id == recipe.id && r.ingredients == recipe.ingredients
  {
    var r := RatedRecipe(recipe, userId, value);
    if recipe.ratings.Some? {
      var rs := recipe.ratings.value;
      var i := FindRater(rs, userId);
      if i >= 0 {
        SumValuesUpdate(rs, i, rs[i].(value := value));
      } else {
        SumValuesAppend(rs, RatingEntry(userId, value));
        var rs' := rs + [RatingEntry(userId, value)];
        forall a, b | 0 <= a < b < |rs'| ensures rs'[a].userId != rs'[b].userId {
          if b == |rs| { assert rs'[a] == rs[a]; }
        }
      }
    }
  }

  /** Upsert by user: a user who already rated keeps the count; a new user
      adds one entry; either way the user ends with exactly one entry,
      carrying `value`, and the other users' entries are untouched. */
  lemma RatingUpsertsByUser(recipe: Recipe, userId: UserId, value: real)
    requires RatingsConsistent(recipe) && recipe.ratings.Some?
    ensures var rs, r := recipe.ratings.value, RatedRecipe(recipe, userId, value);
      && r.ratings.Some?
      && r.ratingCount == (if FindRater(rs, userId) >= 0 then recipe.ratingCount else recipe.ratingCount + 1)
      && (forall e :: e in rs && e.userId != userId ==> e in r.ratings.value)
      && (forall e :: e in r.ratings.value && e.userId != userId ==> e in rs)
      && (forall e :: e in r.ratings.value && e.userId == userId ==> e.value == value)
      && RatingEntry(userId, value) in r.ratings.value
      && (FindRater(rs, userId) < 0 ==> r.ratings.value == rs + [RatingEntry(userId, value)])
      && (FindRater(rs, userId) >= 0 ==> r.ratings.value == rs[FindRater(rs, userId) := RatingEntry(userId, value)])
  {
    var rs, r := recipe.ratings.value, RatedRecipe(recipe, userId, value);
    var i := FindRater(rs, userId);
    if i >= 0 {
      var rs' := rs[i := rs[i].(value := value)];
      assert rs'[i] == RatingEntry(userId, value);
      forall e | e in rs && e.userId != userId ensures e in rs' {
        var k :| 0 <= k < |rs| && rs[k] == e;
        assert rs'[k] == e;
      }
      forall e | e in rs' && e.userId == userId ensures e.value == value {
        var k :| 0 <= k < |rs'| && rs'[k] == e;
      }
    } else {
      var rs' := rs + [RatingEntry(userId, value)];
      assert rs'[|rs|] == RatingEntry(userId, value);
      forall e | e in rs' && e.userId == userId ensures e.value == value {
        var k :| 0 <= k < |rs'| && rs'[k] == e;
        if k < |rs| { assert rs[k] == e; }
      }
    }
  }

  /** Re-rating by the only rater: the count stays 1 and the mean becomes
      the new value. */
  lemma SoleRaterRerates(recipe: Recipe, userId: UserId, v1: real, v2: real)
    requires recipe.ratings == Some([RatingEntry(userId, v1)]) && RatingsConsistent(recipe)
    ensures RatedRecipe(recipe, userId, v2).ratingCount == 1
    ensures RatedRecipe(recipe, userId, v2).rating == v2
  {
    var rs := [RatingEntry(userId, v1)];
    assert FindRater(rs, userId) == 0;
    assert SumValues(rs) == v1 by { assert rs[1..] == []; }
  }

  /** The recipes collection. */
  class RecipeCollection {
    var recipes: map<RecipeId, Recipe>

    /** Every stored recipe's aggregates agree with its ratings array. */
    ghost predicate Valid()
      reads this
    {
      forall id :: id in recipes ==> RatingsConsistent(recipes[id])
    }

    constructor (initial: map<RecipeId, Recipe>)
      requires forall id :: id in initial ==> RatingsConsistent(initial[id])
      ensures Valid() && recipes == initial
    {
      recipes := initial;
    }

    /** `updateById`: the field rules run first (so an invalid request
        fails even for an unknown id); then an unknown id gives `null`, and
        a known one is patched with the supplied fields. */
    method UpdateById(id: RecipeId, data: RecipeData) returns (r: Result<Option<Recipe>, RecipeError>)
      modifies this
      ensures old(Valid()) && LeavesAggregates(data) ==> Valid()
      ensures ValidateForSave(data).Err? ==> r == Err(ValidateForSave(data).error) && recipes == old(recipes)
      ensures ValidateForSave(data).Ok? && id !in old(recipes) ==> r == Ok(None) && recipes == old(recipes)
      ensures ValidateForSave(data).Ok? && id in old(recipes) ==>
        var updated := Patched(old(recipes)[id], ValidateForSave(data).value);
        r == Ok(Some(updated)) && recipes == old(recipes)[id := updated]
    {
      var checked := ValidateForSave(data);
      if checked.Err? {
        return Err(checked.error);
      }
      if id !in recipes {
        return Ok(None);
      }
      var updated := Patched(recipes[id], checked.value);
      recipes := recipes[id := updated];
      r := Ok(Some(updated));
    }

    /** `rateRecipe`: a value outside [1, 5] is rejected before any lookup,
        an unknown recipe gives `null`, otherwise the rating is upserted
        and the recipe saved. */
    method RateRecipe(recipeId: RecipeId, userId: UserId, value: real)
      returns (r: Result<Option<Recipe>, RecipeError>)
      requires Valid()
      modifies this
      ensures Valid()
      ensures (value < 1.0 || value > 5.0) ==> r == Err(InvalidRating) && recipes == old(recipes)
      ensures 1.0 <= value <= 5.0 && recipeId !in old(recipes) ==> r == Ok(None) && recipes == old(recipes)
      ensures 1.0 <= value <= 5.0 && recipeId in old(recipes) ==>
        var rated := RatedRecipe(old(recipes)[recipeId], userId, value);
        r == Ok(Some(rated)) && recipes == old(recipes)[recipeId := rated]
    {
      if value < 1.0 || value > 5.0 {
        return Err(InvalidRating);
      }
      if recipeId !in recipes {
        return Ok(None);
      }
      var recipe := recipes[recipeId];
      ghost var before := recipe;
      if recipe.ratings.Some? {
        var rs := recipe.ratings.value;
        var i := FindRater(rs, userId);
        if i >= 0 {
          recipe := recipe.(ratingTotal := recipe.ratingTotal - rs[i].value);
          recipe := recipe.(ratingTotal := recipe.ratingTotal + value);
          recipe := recipe.(ratings := Some(rs[i := rs[i].(value := value)]));
        } else {
          recipe := recipe.(ratings := Some(rs + [RatingEntry(userId, value)]));
          recipe := recipe.(ratingTotal := recipe.ratingTotal + value);
          recipe := recipe.(ratingCount := recipe.ratingCount + 1);
        }
      } else {
        recipe := recipe.(ratingTotal := recipe.ratingTotal + value);
        recipe := recipe.(ratingCount := recipe.ratingCount + 1);
      }
      recipe := recipe.(rating := recipe.ratingTotal / (recipe.ratingCount as real));
      assert recipe == RatedRecipe(before, userId, value);
      RatingKeepsAggregates(before, userId, value);
      recipes := recipes[recipeId := recipe];
      r := Ok(Some(recipe));
    }
  }
}
