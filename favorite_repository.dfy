/** The favorites collection: per user, a set of recipe ids kept as an
    array. */
module FavoriteRepository {
  import opened Common

  /** Casting a user id or a recipe id that is not an ObjectId fails. */
  datatype FavoriteError = InvalidUserId(id: string) | InvalidRecipeId(id: string)

  /** `$addToSet`: appends the id unless it is already there. */
  function AddToSet(recipes: seq<RecipeId>, recipeId: RecipeId): (r: seq<RecipeId>)
    ensures forall x :: x in r <==> x in recipes || x == recipeId
    ensures |r| == if recipeId in recipes then |recipes| else |recipes| + 1
    ensures recipeId in recipes ==> r == recipes
    ensures recipeId !in recipes ==> r == recipes + [recipeId]
  {
    if recipeId in recipes then recipes else recipes + [recipeId]
  }

  /** `$pull`: drops every occurrence of the id, the rest stays in order. */
  function Pull(recipes: seq<RecipeId>, recipeId: RecipeId): (r: seq<RecipeId>)
    ensures forall x :: x in r <==> x in recipes && x != recipeId
    ensures |r| <= |recipes|
  {
    if recipes == [] then []
    else (if recipes[0] == recipeId then [] else [recipes[0]]) + Pull(recipes[1..], recipeId)
  }

  /** Exactly the occurrences of the id are dropped. */
  lemma {:induction false} PullLength(recipes: seq<RecipeId>, recipeId: RecipeId)
    ensures |Pull(recipes, recipeId)| == |recipes| - Occurrences(recipes, recipeId)
  {
    if recipes != [] {
      PullLength(recipes[1..], recipeId);
    }
  }

  /** Adding twice is adding once; adding keeps the ids distinct. */
  lemma AddToSetProperties(recipes: seq<RecipeId>, recipeId: RecipeId)
    ensures AddToSet(AddToSet(recipes, recipeId), recipeId) == AddToSet(recipes, recipeId)
    ensures Distinct(recipes) ==> Distinct(AddToSet(recipes, recipeId))
  {
    if recipeId !in recipes && Distinct(recipes) {
      var r := recipes + [recipeId];
      forall i, j | 0 <= i < j < |r| ensures r[i] != r[j] {
        assert r[i] == recipes[i];
        if j < |recipes| { assert r[j] == recipes[j]; }
      }
    }
  }

  /** Pulling an id that is not there changes nothing, so removing a
      favorite just added restores the list. */
  lemma {:induction false} PullAbsent(recipes: seq<RecipeId>, recipeId: RecipeId)
    requires recipeId !in recipes
    ensures Pull(recipes, recipeId) == recipes
  {
    if recipes != [] {
      assert recipeId !in recipes[1..];
      PullAbsent(recipes[1..], recipeId);
    }
  }

  lemma {:induction false} PullAppend(a: seq<RecipeId>, b: seq<RecipeId>, recipeId: RecipeId)
    ensures Pull(a + b, recipeId) == Pull(a, recipeId) + Pull(b, recipeId)
  {
    if a == [] {
      assert a + b == b;
    } else {
      assert (a + b)[0] == a[0] && (a + b)[1..] == a[1..] + b;
      PullAppend(a[1..], b, recipeId);
      var head := if a[0] == recipeId then [] else [a[0]];
      assert Pull(a + b, recipeId) == head + Pull(a[1..] + b, recipeId);
      assert Pull(a, recipeId) == head + Pull(a[1..], recipeId);
      assert head + (Pull(a[1..], recipeId) + Pull(b, recipeId)) == (head + Pull(a[1..], recipeId)) + Pull(b, recipeId);
    }
  }

  lemma AddThenRemove(recipes: seq<RecipeId>, recipeId: RecipeId)
    requires recipeId !in recipes
    ensures Pull(AddToSet(recipes, recipeId), recipeId) == recipes
  {
    PullAppend(recipes, [recipeId], recipeId);
    PullAbsent(recipes, recipeId);
    assert Pull([recipeId], recipeId) == [] by {
      assert [recipeId][1..] == [];
    }
  }

  /** Removing is idempotent, and keeps distinct ids distinct. */
  lemma {:induction false} PullProperties(recipes: seq<RecipeId>, recipeId: RecipeId)
    ensures Pull(Pull(recipes, recipeId), recipeId) == Pull(recipes, recipeId)
    ensures Distinct(recipes) ==> Distinct(Pull(recipes, recipeId))
  {
    if recipes != [] {
      var t := recipes[1..];
      var rest := Pull(t, recipeId);
      PullProperties(t, recipeId);
      assert Distinct(recipes) ==> Distinct(t) by {
        if Distinct(recipes) {
          forall i, j | 0 <= i < j < |t| ensures t[i] != t[j] {
            assert t[i] == recipes[i + 1] && t[j] == recipes[j + 1];
          }
        }
      }
      if recipes[0] != recipeId {
        var r := [recipes[0]] + rest;
        assert r[0] == recipes[0] && r[1..] == rest;
        assert Pull(r, recipeId) == [recipes[0]] + Pull(rest, recipeId);
        if Distinct(recipes) {
          assert recipes[0] !in t by {
            forall j | 0 <= j < |t| ensures t[j] != recipes[0] {
              assert t[j] == recipes[j + 1];
            }
          }
          forall i, j | 0 <= i < j < |r| ensures r[i] != r[j] {
            assert r[j] == rest[j - 1];
            if i > 0 { assert r[i] == rest[i - 1]; }
          }
        }
      } else {
        assert Pull(recipes, recipeId) == rest;
      }
    }
  }

  /** The favorites collection, keyed by user. */
  class FavoriteCollection {
    var favorites: map<UserId, seq<RecipeId>>

    constructor (initial: map<UserId, seq<RecipeId>>)
      ensures favorites == initial
    {
      favorites := initial;
    }

    /** `addFavorite`: adds the id to the user's set, creating the
        document when missing (upsert).  The filter on `userId` is cast
        before the update's recipe id. */
    method AddFavorite(userId: UserId, recipeId: RecipeId, validId: string -> bool)
      returns (r: Result<seq<RecipeId>, FavoriteError>)
      modifies this
      ensures !validId(userId) ==> r == Err(InvalidUserId(userId)) && favorites == old(favorites)
      ensures validId(userId) && !validId(recipeId) ==> r == Err(InvalidRecipeId(recipeId)) && favorites == old(favorites)
      ensures validId(userId) && validId(recipeId) ==>
        var s := AddToSet(if userId in old(favorites) then old(favorites)[userId] else [], recipeId);
        r == Ok(s) && favorites == old(favorites)[userId := s]
    {
      if !validId(userId) {
        return Err(InvalidUserId(userId));
      }
      if !validId(recipeId) {
        return Err(InvalidRecipeId(recipeId));
      }
      var recipes := if userId in favorites then favorites[userId] else [];
      if recipeId !in recipes {
        recipes := recipes + [recipeId];
      }
      favorites := favorites[userId := recipes];
      r := Ok(recipes);
    }

    /** `removeFavorite`: pulls the id from an existing document; a
        missing one gives `null` and is not created.  The user id is cast
        first, then the recipe id. */
    method RemoveFavorite(userId: UserId, recipeId: RecipeId, validId: string -> bool)
      returns (r: Result<Option<seq<RecipeId>>, FavoriteError>)
      modifies this
      ensures !validId(userId) ==> r == Err(InvalidUserId(userId)) && favorites == old(favorites)
      ensures validId(userId) && !validId(recipeId) ==> r == Err(InvalidRecipeId(recipeId)) && favorites == old(favorites)
      ensures validId(userId) && validId(recipeId) && userId !in old(favorites) ==> r == Ok(None) && favorites == old(favorites)
      ensures validId(userId) && validId(recipeId) && userId in old(favorites) ==>
        var s := Pull(old(favorites)[userId], recipeId);
        r == Ok(Some(s)) && favorites == old(favorites)[userId := s]
    {
      if !validId(userId) {
        return Err(InvalidUserId(userId));
      }
      if !validId(recipeId) {
        return Err(InvalidRecipeId(recipeId));
      }
      if userId !in favorites {
        return Ok(None);
      }
      var s := Pull(favorites[userId], recipeId);
      favorites := favorites[userId := s];
      r := Ok(Some(s));
    }
  }
}
