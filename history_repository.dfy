/** The histories collection: per user, the recipes viewed, most recent
    first, each recipe at most once. */
module HistoryRepository {
  import opened Common
  import opened Models

  /** Casting a recipe id that is not an ObjectId fails. */
  datatype HistoryError = InvalidRecipeId(id: string)

  /** The recipes of a history, in order. */
  function Recipes(items: seq<HistoryItem>): (r: seq<RecipeId>)
    ensures |r| == |items|
    ensures forall k :: 0 <= k < |items| ==> r[k] == items[k].recipe
  {
    if items == [] then [] else [items[0].recipe] + Recipes(items[1..])
  }

  /** `$pull: { items: { recipe: recipeId } }`: every entry of the recipe
      goes, the others stay in order. */
  function PullRecipe(items: seq<HistoryItem>, recipeId: RecipeId): (r: seq<HistoryItem>)
    ensures forall x :: x in r <==> x in items && x.recipe != recipeId
    ensures |r| <= |items|
  {
    if items == [] then []
    else (if items[0].recipe == recipeId then [] else [items[0]]) + PullRecipe(items[1..], recipeId)
  }

  /** The history after viewing `recipeId` at `now`: earlier views of it
      pulled, then the new view pushed at position 0. */
  function Viewed(items: seq<HistoryItem>, recipeId: RecipeId, now: Timestamp): seq<HistoryItem> {
    [HistoryItem(recipeId, now)] + PullRecipe(items, recipeId)
  }

  lemma {:induction false} PullRecipeLength(items: seq<HistoryItem>, recipeId: RecipeId)
    ensures |PullRecipe(items, recipeId)| == |items| - Occurrences(Recipes(items), recipeId)
    ensures recipeId !in Recipes(PullRecipe(items, recipeId))
  {
    if items != [] {
      PullRecipeLength(items[1..], recipeId);
      assert Recipes(items)[1..] == Recipes(items[1..]);
      var rest := PullRecipe(items[1..], recipeId);
      if items[0].recipe != recipeId {
        assert Recipes([items[0]] + rest) == [items[0].recipe] + Recipes(rest) by {
          assert ([items[0]] + rest)[1..] == rest;
        }
      }
    }
  }

  /** Pulling distributes over concatenation, so the entries that stay keep
      their relative order. */
  lemma {:induction false} PullRecipeAppend(a: seq<HistoryItem>, b: seq<HistoryItem>, recipeId: RecipeId)
    ensures PullRecipe(a + b, recipeId) == PullRecipe(a, recipeId) + PullRecipe(b, recipeId)
  {
    if a == [] {
      assert a + b == b;
    } else {
      assert (a + b)[0] == a[0] && (a + b)[1..] == a[1..] + b;
      PullRecipeAppend(a[1..], b, recipeId);
      var head := if a[0].recipe == recipeId then [] else [a[0]];
      assert PullRecipe(a + b, recipeId) == head + PullRecipe(a[1..] + b, recipeId);
      assert PullRecipe(a, recipeId) == head + PullRecipe(a[1..], recipeId);
      ConcatAssoc(head, PullRecipe(a[1..], recipeId), PullRecipe(b, recipeId));
    }
  }

  /** After a view the recipe heads the history with the new time, occurs
      exactly once, the rest is the old history without it, and the
      length is the old one, minus its earlier views, plus one. */
  lemma ViewedShape(items: seq<HistoryItem>, recipeId: RecipeId, now: Timestamp)
    ensures var v := Viewed(items, recipeId, now);
      && v[0] == HistoryItem(recipeId, now)
      && v[1..] == PullRecipe(items, recipeId)
      && Occurrences(Recipes(v), recipeId) == 1
      && |v| == |items| - Occurrences(Recipes(items), recipeId) + 1
      && (forall x :: x in v[1..] <==> x in items && x.recipe != recipeId)
  {
    var v := Viewed(items, recipeId, now);
    PullRecipeLength(items, recipeId);
    assert Recipes(v) == [recipeId] + Recipes(PullRecipe(items, recipeId)) by {
      assert v[1..] == PullRecipe(items, recipeId);
    }
    OccurrencesAppend([recipeId], Recipes(PullRecipe(items, recipeId)), recipeId);
  }

  lemma DistinctTail(items: seq<HistoryItem>)
    requires items != [] && Distinct(Recipes(items))
    ensures Distinct(Recipes(items[1..]))
    ensures forall x :: x in items[1..] ==> x.recipe != items[0].recipe
  {
    var t := items[1..];
    forall i, j | 0 <= i < j < |t| ensures Recipes(t)[i] != Recipes(t)[j] {
      assert Recipes(items)[i + 1] == Recipes(t)[i] && Recipes(items)[j + 1] == Recipes(t)[j];
    }
    forall x | x in t ensures x.recipe != items[0].recipe {
      var m :| 0 <= m < |t| && t[m] == x;
      assert Recipes(items)[m + 1] == x.recipe;
    }
  }

  lemma DistinctCons(h: HistoryItem, rest: seq<HistoryItem>)
    requires Distinct(Recipes(rest))
    requires forall x :: x in rest ==> x.recipe != h.recipe
    ensures Distinct(Recipes([h] + rest))
  {
    var r := [h] + rest;
    forall i, j | 0 <= i < j < |r| ensures Recipes(r)[i] != Recipes(r)[j] {
      assert r[j] == rest[j - 1];
      if i > 0 { assert r[i] == rest[i - 1]; }
    }
  }

  /** Pulling keeps every other recipe's entries distinct. */
  lemma {:induction false} PullRecipeKeepsDistinct(items: seq<HistoryItem>, recipeId: RecipeId)
    requires Distinct(Recipes(items))
    ensures Distinct(Recipes(PullRecipe(items, recipeId)))
  {
    if items != [] {
      var t := items[1..];
      DistinctTail(items);
      PullRecipeKeepsDistinct(t, recipeId);
      var rest := PullRecipe(t, recipeId);
      if items[0].recipe != recipeId {
        DistinctCons(items[0], rest);
      }
    }
  }

  /** A history of distinct recipes stays one after a view. */
  lemma ViewedKeepsDistinct(items: seq<HistoryItem>, recipeId: RecipeId, now: Timestamp)
    requires Distinct(Recipes(items))
    ensures Distinct(Recipes(Viewed(items, recipeId, now)))
  {
    PullRecipeKeepsDistinct(items, recipeId);
    DistinctCons(HistoryItem(recipeId, now), PullRecipe(items, recipeId));
  }

  /** Pulling a recipe that is already gone changes nothing. */
  lemma {:induction false} PullRecipeAbsent(items: seq<HistoryItem>, recipeId: RecipeId)
    requires forall k :: 0 <= k < |items| ==> items[k].recipe != recipeId
    ensures PullRecipe(items, recipeId) == items
  {
    if items != [] {
      PullRecipeAbsent(items[1..], recipeId);
    }
  }

  /** Viewing the same recipe again only refreshes its time. */
  lemma ViewedTwice(items: seq<HistoryItem>, recipeId: RecipeId, t1: Timestamp, t2: Timestamp)
    ensures Viewed(Viewed(items, recipeId, t1), recipeId, t2)
         == [HistoryItem(recipeId, t2)] + Viewed(items, recipeId, t1)[1..]
  {
    var v := Viewed(items, recipeId, t1);
    var rest := PullRecipe(items, recipeId);
    PullRecipeLength(items, recipeId);
    assert v[1..] == rest;
    assert PullRecipe(v, recipeId) == PullRecipe(rest, recipeId) by {
      assert v[0].recipe == recipeId;
    }
    forall k | 0 <= k < |rest| ensures rest[k].recipe != recipeId {
      assert Recipes(rest)[k] == rest[k].recipe;
    }
    PullRecipeAbsent(rest, recipeId);
  }

  /** The histories collection, keyed by user. */
  class HistoryCollection {
    var histories: map<UserId, seq<HistoryItem>>

    constructor (initial: map<UserId, seq<HistoryItem>>)
      ensures histories == initial
    {
      histories := initial;
    }

    /** `addRecipe`: pulls the recipe from the user's history, if there is
        one, then pushes the new view at the front, creating the history
        when missing (upsert). */
    method AddRecipe(userId: UserId, recipeId: RecipeId, now: Timestamp, validId: string -> bool)
      returns (r: Result<seq<HistoryItem>, HistoryError>)
      modifies this
      ensures !validId(recipeId) ==> r == Err(InvalidRecipeId(recipeId)) && histories == old(histories)
      ensures validId(recipeId) ==>
        var v := Viewed(if userId in old(histories) then old(histories)[userId] else [], recipeId, now);
        r == Ok(v) && histories == old(histories)[userId := v]
    {
      if !validId(recipeId) {
        return Err(InvalidRecipeId(recipeId));
      }
      if userId in histories {
        histories := histories[userId := PullRecipe(histories[userId], recipeId)];
      }
      var items := if userId in histories then histories[userId] else [];
      items := [HistoryItem(recipeId, now)] + items;
      histories := histories[userId := items];
      r := Ok(items);
    }

    /** `clearHistory`: empties an existing history; a missing one gives
        `null` and is not created. */
    method ClearHistory(userId: UserId) returns (r: Option<seq<HistoryItem>>)
      modifies this
      ensures userId in old(histories) ==> r == Some([]) && histories == old(histories)[userId := []]
      ensures userId !in old(histories) ==> r == None && histories == old(histories)
    {
      if userId !in histories {
        return None;
      }
      histories := histories[userId := []];
      r := Some([]);
    }
  }
}
