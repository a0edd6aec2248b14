/** The recipe service: resolving ingredient references, cooking a recipe
    against the user's fridge, ranking recipes by how many of their
    ingredients are at hand, and the rating guard. */
module RecipeService {
  import opened Common
  import opened Models
  import opened FridgeRepository
  import opened RecipeRepository

  // ---------------------------------------------------------------------
  // getIngredientId

  /** `getIngredientId`: the id of a populated document, the text of a
      string or ObjectId, and "" for anything missing. */
  function GetIngredientId(ref: IngredientRef): string {
    match ref
    case Absent => ""
    case Text(s) => s
    case RawObjectId(hex) => hex
    case PopulatedDoc(id, _) => id
    case Bare => ""
  }

  /** The id a populated read yields for a stored reference. */
  function ResolvedId(id: IngredientId, catalog: map<IngredientId, Ingredient>): string {
    GetIngredientId(Populate(id, catalog))
  }

  /** A stored reference resolves to its own id while the ingredient
      exists, and to "" once it has been deleted. */
  lemma ResolvedIdMeans(id: IngredientId, catalog: map<IngredientId, Ingredient>)
    ensures ResolvedId(id, catalog) == if id in catalog then id else ""
    ensures GetIngredientId(Text(id)) == id && GetIngredientId(RawObjectId(id)) == id
  {
  }

  // ---------------------------------------------------------------------
  // cookRecipe

  datatype CookError =
    | InvalidId(id: string)
    | RecipeNotFound
    | FridgeNotFound
    | IngredientNotFound(id: string)
    | MissingRepositoryMethod

  /** `rIng.quantity || 0`. */
  function Amount(quantity: Option<real>): real {
    quantity.GetOr(0.0)
  }

  /** The deduction target of a recipe line: the first fridge entry whose
      resolved id is the line's and whose unit string is exactly the
      line's unit (a line without a unit matches nothing). */
  function FindTarget(items: seq<FridgeItem>, rid: string, unit: Option<string>,
                      catalog: map<IngredientId, Ingredient>): (i: int)
    ensures -1 <= i < |items|
    ensures i >= 0 ==> ResolvedId(items[i].ingredient, catalog) == rid && unit == Some(items[i].unit)
    ensures i >= 0 ==> forall k :: 0 <= k < i ==> !(ResolvedId(items[k].ingredient, catalog) == rid && unit == Some(items[k].unit))
    ensures i == -1 ==> forall k :: 0 <= k < |items| ==> !(ResolvedId(items[k].ingredient, catalog) == rid && unit == Some(items[k].unit))
  {
    if items == [] then -1
    else if ResolvedId(items[0].ingredient, catalog) == rid && unit == Some(items[0].unit) then 0
    else
      var j := FindTarget(items[1..], rid, unit, catalog);
      if j == -1 then -1 else j + 1
  }

  /** One iteration of the cook loop: with no target the line is skipped;
      a target whose ingredient is not in the catalog aborts; otherwise a
      positive amount is deducted, removing the entry when it would not
      stay above zero.  The flag says whether the fridge changed. */
  function CookLine(items: seq<FridgeItem>, line: RecipeIngredient, catalog: map<IngredientId, Ingredient>)
    : Result<(seq<FridgeItem>, bool), CookError>
  {
    var rid := ResolvedId(line.ingredient, catalog);
    var idx := FindTarget(items, rid, line.unit, catalog);
    if idx == -1 then Ok((items, false))
    else if rid !in catalog then Err(IngredientNotFound(rid))
    else
      var amount := Amount(line.quantity);
      if amount > 0.0 then
        if items[idx].quantity > amount then Ok((items[idx := items[idx].(quantity := items[idx].quantity - amount)], true))
        else Ok((RemoveAt(items, idx), true))
      else Ok((items, false))
  }

  /** The rest of the cook loop from a fridge state and flag on. */
  function CookFrom(items: seq<FridgeItem>, updated: bool, lines: seq<RecipeIngredient>,
                    catalog: map<IngredientId, Ingredient>): Result<(seq<FridgeItem>, bool), CookError>
    decreases |lines|
  {
    if lines == [] then Ok((items, updated))
    else
      match CookLine(items, lines[0], catalog)
      case Err(e) => Err(e)
      case Ok((next, changed)) => CookFrom(next, updated || changed, lines[1..], catalog)
  }

  /** The normalised unit comparison that guards the conversion branch
      always holds for the target: the target was chosen by identical
      unit strings.  So `convertUnit` is never called and the amount is
      always the line's own quantity. */
  lemma ConversionBranchUnreachable(items: seq<FridgeItem>, line: RecipeIngredient,
                                    catalog: map<IngredientId, Ingredient>)
    requires FindTarget(items, ResolvedId(line.ingredient, catalog), line.unit, catalog) >= 0
    ensures var idx := FindTarget(items, ResolvedId(line.ingredient, catalog), line.unit, catalog);
      NormalizeUnit(items[idx].unit) == NormalizeUnit(line.unit.GetOr(""))
  {
  }

  /** What one line does: it changes the fridge exactly when it has a
      target and a positive amount; then the target either drops by the
      amount and stays positive (so a removal on reaching zero after the
      decrement never happens) or is removed, and nothing else moves. */
  lemma CookLineEffect(items: seq<FridgeItem>, line: RecipeIngredient, catalog: map<IngredientId, Ingredient>)
    requires CookLine(items, line, catalog).Ok?
    ensures var (r, changed) := CookLine(items, line, catalog).value;
      var idx := FindTarget(items, ResolvedId(line.ingredient, catalog), line.unit, catalog);
      var amount := Amount(line.quantity);
      && (changed <==> idx >= 0 && amount > 0.0)
      && (!changed ==> r == items)
      && (changed && items[idx].quantity > amount ==>
            |r| == |items| && r[idx].quantity == items[idx].quantity - amount && r[idx].quantity > 0.0
            && r[idx].ingredient == items[idx].ingredient && r[idx].unit == items[idx].unit
            && r[idx].addedAt == items[idx].addedAt
            && r == items[idx := items[idx].(quantity := items[idx].quantity - amount)]
            && forall k :: 0 <= k < |items| && k != idx ==> r[k] == items[k])
      && (changed && items[idx].quantity <= amount ==> r == RemoveAt(items, idx))
  {
  }

  /** A matched line fails exactly when its ingredient is not in the
      catalog, and the failure names the resolved id. */
  lemma CookLineFails(items: seq<FridgeItem>, line: RecipeIngredient, catalog: map<IngredientId, Ingredient>)
    ensures var rid := ResolvedId(line.ingredient, catalog);
      CookLine(items, line, catalog).Err? <==> FindTarget(items, rid, line.unit, catalog) >= 0 && rid !in catalog
    ensures CookLine(items, line, catalog).Err? ==>
      CookLine(items, line, catalog).error == IngredientNotFound(ResolvedId(line.ingredient, catalog))
  {
  }

  /** Total quantity held by a fridge, over all its entries. */
  function TotalStock(items: seq<FridgeItem>): real {
    if items == [] then 0.0 else items[0].quantity + TotalStock(items[1..])
  }

  function Min(a: real, b: real): real {
    if a <= b then a else b
  }

  lemma {:induction false} TotalStockUpdate(items: seq<FridgeItem>, i: int, e: FridgeItem)
    requires 0 <= i < |items|
    ensures TotalStock(items[i := e]) == TotalStock(items) - items[i].quantity + e.quantity
  {
    if i > 0 {
      assert items[i := e][1..] == items[1..][i - 1 := e];
      TotalStockUpdate(items[1..], i - 1, e);
    }
  }

  lemma {:induction false} TotalStockRemove(items: seq<FridgeItem>, i: int)
    requires 0 <= i < |items|
    ensures TotalStock(RemoveAt(items, i)) == TotalStock(items) - items[i].quantity
  {
    if i == 0 {
      assert RemoveAt(items, 0) == items[1..];
    } else {
      assert RemoveAt(items, i)[0] == items[0];
      assert RemoveAt(items, i)[1..] == RemoveAt(items[1..], i - 1);
      TotalStockRemove(items[1..], i - 1);
    }
  }

  /** A line takes out of the fridge exactly the smaller of the target's
      quantity and the amount. */
  lemma CookLineStock(items: seq<FridgeItem>, line: RecipeIngredient, catalog: map<IngredientId, Ingredient>)
    requires CookLine(items, line, catalog).Ok?
    ensures var (r, changed) := CookLine(items, line, catalog).value;
      var idx := FindTarget(items, ResolvedId(line.ingredient, catalog), line.unit, catalog);
      TotalStock(r) == TotalStock(items) - (if changed then Min(items[idx].quantity, Amount(line.quantity)) else 0.0)
  {
    var rid := ResolvedId(line.ingredient, catalog);
    var idx := FindTarget(items, rid, line.unit, catalog);
    var amount := Amount(line.quantity);
    CookLineCases(items, line, catalog, rid, idx, amount);
    if idx >= 0 && amount > 0.0 {
      DeductStock(items, idx, amount);
    }
  }

  /** Deducting from one entry takes out the smaller of its quantity and
      the amount. */
  lemma DeductStock(items: seq<FridgeItem>, idx: int, amount: real)
    requires 0 <= idx < |items|
    ensures items[idx].quantity > amount ==>
      TotalStock(items[idx := items[idx].(quantity := items[idx].quantity - amount)])
        == TotalStock(items) - Min(items[idx].quantity, amount)
    ensures items[idx].quantity <= amount ==>
      TotalStock(RemoveAt(items, idx)) == TotalStock(items) - Min(items[idx].quantity, amount)
  {
    TotalStockUpdate(items, idx, items[idx].(quantity := items[idx].quantity - amount));
    TotalStockRemove(items, idx);
  }

  lemma CookLineKeepsPositive(items: seq<FridgeItem>, line: RecipeIngredient, catalog: map<IngredientId, Ingredient>)
    requires AllPositive(items)
    requires CookLine(items, line, catalog).Ok?
    ensures AllPositive(CookLine(items, line, catalog).value.0)
    ensures |CookLine(items, line, catalog).value.0| <= |items|
  {
    var (r, changed) := CookLine(items, line, catalog).value;
    var idx := FindTarget(items, ResolvedId(line.ingredient, catalog), line.unit, catalog);
    if changed && items[idx].quantity <= Amount(line.quantity) {
      RemoveAtIndex(items, idx);
    }
  }

  /** Cooking never adds an entry, never leaves a zero or negative one,
      never adds stock, and takes some stock exactly when it reports a
      change. */
  lemma {:induction false} CookFromShrinks(items: seq<FridgeItem>, updated: bool, lines: seq<RecipeIngredient>,
                                           catalog: map<IngredientId, Ingredient>)
    requires AllPositive(items)
    requires CookFrom(items, updated, lines, catalog).Ok?
    ensures var (r, u) := CookFrom(items, updated, lines, catalog).value;
      && AllPositive(r) && |r| <= |items| && TotalStock(r) <= TotalStock(items)
      && (u == updated || u)
      && (u && !updated ==> TotalStock(r) < TotalStock(items))
      && (!u ==> r == items)
    decreases |lines|
  {
    if lines != [] {
      var (next, changed) := CookLine(items, lines[0], catalog).value;
      CookLineKeepsPositive(items, lines[0], catalog);
      CookLineStock(items, lines[0], catalog);
      CookLineEffect(items, lines[0], catalog);
      if changed {
        var idx := FindTarget(items, ResolvedId(lines[0].ingredient, catalog), lines[0].unit, catalog);
        assert items[idx].quantity > 0.0;
      }
      CookFromShrinks(next, updated || changed, lines[1..], catalog);
    }
  }

  lemma CookAdvance(items: seq<FridgeItem>, updated: bool, lines: seq<RecipeIngredient>, i: int,
                    catalog: map<IngredientId, Ingredient>, next: seq<FridgeItem>, changed: bool)
    requires 0 <= i < |lines|
    requires CookLine(items, lines[i], catalog) == Ok((next, changed))
    ensures CookFrom(items, updated, lines[i..], catalog) == CookFrom(next, updated || changed, lines[i + 1..], catalog)
  {
    assert lines[i..][0] == lines[i] && lines[i..][1..] == lines[i + 1..];
  }

  lemma CookAbort(items: seq<FridgeItem>, updated: bool, lines: seq<RecipeIngredient>, i: int,
                  catalog: map<IngredientId, Ingredient>, e: CookError)
    requires 0 <= i < |lines|
    requires CookLine(items, lines[i], catalog) == Err(e)
    ensures CookFrom(items, updated, lines[i..], catalog) == Err(e)
  {
    assert lines[i..][0] == lines[i];
  }

  lemma CookLineCases(items: seq<FridgeItem>, line: RecipeIngredient, catalog: map<IngredientId, Ingredient>,
                      rid: string, idx: int, amount: real)
    requires rid == ResolvedId(line.ingredient, catalog) && idx == FindTarget(items, rid, line.unit, catalog)
    requires amount == Amount(line.quantity)
    ensures idx == -1 ==> CookLine(items, line, catalog) == Ok((items, false))
    ensures idx >= 0 && rid !in catalog ==> CookLine(items, line, catalog) == Err(IngredientNotFound(rid))
    ensures idx >= 0 && rid in catalog && amount <= 0.0 ==> CookLine(items, line, catalog) == Ok((items, false))
    ensures idx >= 0 && rid in catalog && amount > 0.0 && items[idx].quantity > amount ==>
      CookLine(items, line, catalog) == Ok((items[idx := items[idx].(quantity := items[idx].quantity - amount)], true))
    ensures idx >= 0 && rid in catalog && amount > 0.0 && items[idx].quantity <= amount ==>
      CookLine(items, line, catalog) == Ok((RemoveAt(items, idx), true))
  {
  }

  /** One pass of the loop body of `cookRecipe`: find the target, look
      the ingredient up, and deduct from or remove the entry. */
  method CookStep(items: seq<FridgeItem>, line: RecipeIngredient, catalog: map<IngredientId, Ingredient>)
    returns (r: Result<(seq<FridgeItem>, bool), CookError>)
    ensures r == CookLine(items, line, catalog)
  {
    var rid := GetIngredientId(Populate(line.ingredient, catalog));
    var idx := FindTarget(items, rid, line.unit, catalog);
    CookLineCases(items, line, catalog, rid, idx, Amount(line.quantity));
    if idx == -1 {
      return Ok((items, false));
    }
    if rid !in catalog {
      return Err(IngredientNotFound(rid));
    }
    var amount := Amount(line.quantity);
    if amount > 0.0 {
      if items[idx].quantity > amount {
        r := Ok((items[idx := items[idx].(quantity := items[idx].quantity - amount)], true));
      } else {
        r := Ok((RemoveAt(items, idx), true));
      }
    } else {
      r := Ok((items, false));
    }
  }

  /** The loop of `cookRecipe` over a copy of the fridge's entries:
      returns the entries after every line and whether any line changed
      them, or the first failure. */
  method ApplyLines(start: seq<FridgeItem>, lines: seq<RecipeIngredient>, catalog: map<IngredientId, Ingredient>)
    returns (r: Result<(seq<FridgeItem>, bool), CookError>)
    ensures r == CookFrom(start, false, lines, catalog)
  {
    var items := start;
    var updated := false;
    var i := 0;
    while i < |lines|
      invariant 0 <= i <= |lines|
      invariant CookFrom(items, updated, lines[i..], catalog) == CookFrom(start, false, lines, catalog)
    {
      var step := CookStep(items, lines[i], catalog);
      match step
      case Err(e) =>
        CookAbort(items, updated, lines, i, catalog, e);
        return Err(e);
      case Ok((next, changed)) =>
        CookAdvance(items, updated, lines, i, catalog, next, changed);
        items, updated := next, updated || changed;
      i := i + 1;
    }
    assert lines[i..] == [];
    r := Ok((items, updated));
  }

  /** `cookRecipe`: the recipe and then the fridge must exist, and each
      lookup first casts its id to an ObjectId, failing on one that is not;
      the lines
      are applied one by one to a copy of the fridge's entries; a failure
      leaves the stored fridge as it was, and it is saved only when some
      line changed it.  The entries are returned either way. */
  method CookRecipe(recipes: RecipeCollection, fridges: FridgeCollection, catalog: map<IngredientId, Ingredient>,
                    recipeId: RecipeId, userId: UserId, validId: string -> bool)
    returns (r: Result<seq<FridgeItem>, CookError>)
    modifies fridges
    ensures !validId(recipeId) ==> r == Err(InvalidId(recipeId)) && fridges.fridges == old(fridges.fridges)
    ensures validId(recipeId) && recipeId !in recipes.recipes ==> r == Err(RecipeNotFound) && fridges.fridges == old(fridges.fridges)
    ensures validId(recipeId) && recipeId in recipes.recipes && !validId(userId) ==>
      r == Err(InvalidId(userId)) && fridges.fridges == old(fridges.fridges)
    ensures validId(recipeId) && recipeId in recipes.recipes && validId(userId) && userId !in old(fridges.fridges) ==>
      r == Err(FridgeNotFound) && fridges.fridges == old(fridges.fridges)
    ensures validId(recipeId) && recipeId in recipes.recipes && validId(userId) && userId in old(fridges.fridges) ==>
      match CookFrom(old(fridges.fridges)[userId], false, recipes.recipes[recipeId].ingredients, catalog)
      case Err(e) => r == Err(e) && fridges.fridges == old(fridges.fridges)
      case Ok((items, updated)) =>
        r == Ok(items) && fridges.fridges == if updated then old(fridges.fridges)[userId := items] else old(fridges.fridges)
  {
    if !validId(recipeId) {
      return Err(InvalidId(recipeId));
    }
    if recipeId !in recipes.recipes {
      return Err(RecipeNotFound);
    }
    var recipe := recipes.recipes[recipeId];
    if !validId(userId) {
      return Err(InvalidId(userId));
    }
    if userId !in fridges.fridges {
      return Err(FridgeNotFound);
    }
    var outcome := ApplyLines(fridges.fridges[userId], recipe.ingredients, catalog);
    match outcome
    case Err(e) =>
      r := Err(e);
    case Ok((items, updated)) =>
      if updated {
        fridges.fridges := fridges.fridges[userId := items];
      }
      r := Ok(items);
  }

  /** The line loop as the source writes it: `ingredientRepository` has no
      `findById`, so the call made for every matched line throws. */
  function CookLineAsWritten(items: seq<FridgeItem>, line: RecipeIngredient, catalog: map<IngredientId, Ingredient>)
    : Result<(seq<FridgeItem>, bool), CookError>
  {
    var rid := ResolvedId(line.ingredient, catalog);
    if FindTarget(items, rid, line.unit, catalog) == -1 then Ok((items, false))
    else Err(MissingRepositoryMethod)
  }

  /** As written, no line ever deducts anything: it is skipped or it
      throws.  On a fridge with 5 g of an ingredient and a line asking for
      2 g, the written code throws while the intended lookup deducts. */
  lemma AsWrittenNeverDeducts(items: seq<FridgeItem>, line: RecipeIngredient, catalog: map<IngredientId, Ingredient>)
    ensures CookLineAsWritten(items, line, catalog).Ok? ==> CookLineAsWritten(items, line, catalog).value == (items, false)
    ensures var a := "a";
      var fridge := [FridgeItem(a, 5.0, "gramo", 0)];
      var cat := map[a := Ingredient("arroz")];
      var l := RecipeIngredient(a, Some(2.0), Some("gramo"));
      && CookLineAsWritten(fridge, l, cat) == Err(MissingRepositoryMethod)
      && CookLine(fridge, l, cat) == Ok(([FridgeItem(a, 3.0, "gramo", 0)], true))
  {
    var a := "a";
    var fridge := [FridgeItem(a, 5.0, "gramo", 0)];
    var cat := map[a := Ingredient("arroz")];
    var l := RecipeIngredient(a, Some(2.0), Some("gramo"));
    ResolvedIdMeans(a, cat);
    assert FindTarget(fridge, a, l.unit, cat) == 0;
    CookLineCases(fridge, l, cat, a, 0, 2.0);
    assert fridge[0 := fridge[0].(quantity := 5.0 - 2.0)] == [FridgeItem(a, 3.0, "gramo", 0)];
  }

  /** Cooking a 2 g line three times on 5 g leaves 3 g, then 1 g, then
      removes the entry; a line written "Gramo" finds nothing to deduct
      from an entry in "gramo", and neither does a line in cups. */
  lemma CookExamples()
    ensures var a := "a";
      var cat := map[a := Ingredient("arroz")];
      var l := RecipeIngredient(a, Some(2.0), Some("gramo"));
      && CookFrom([FridgeItem(a, 5.0, "gramo", 0)], false, [l, l, l], cat) == Ok(([], true))
      && CookLine([FridgeItem(a, 5.0, "gramo", 0)], RecipeIngredient(a, Some(2.0), Some("Gramo")), cat)
           == Ok(([FridgeItem(a, 5.0, "gramo", 0)], false))
      && CookLine([FridgeItem(a, 500.0, "gramo", 0)], RecipeIngredient(a, Some(1.0), Some("taza")), cat)
           == Ok(([FridgeItem(a, 500.0, "gramo", 0)], false))
  {
    var a := "a";
    var cat := map[a := Ingredient("arroz")];
    var l := RecipeIngredient(a, Some(2.0), Some("gramo"));
    ResolvedIdMeans(a, cat);
    var f5, f3, f1 := [FridgeItem(a, 5.0, "gramo", 0)], [FridgeItem(a, 3.0, "gramo", 0)], [FridgeItem(a, 1.0, "gramo", 0)];
    assert FindTarget(f5, a, l.unit, cat) == 0;
    CookLineCases(f5, l, cat, a, 0, 2.0);
    assert f5[0 := f5[0].(quantity := 5.0 - 2.0)] == f3;
    assert FindTarget(f3, a, l.unit, cat) == 0;
    CookLineCases(f3, l, cat, a, 0, 2.0);
    assert f3[0 := f3[0].(quantity := 3.0 - 2.0)] == f1;
    assert FindTarget(f1, a, l.unit, cat) == 0;
    CookLineCases(f1, l, cat, a, 0, 2.0);
    assert RemoveAt(f1, 0) == [];
    assert [l, l, l][1..] == [l, l] && [l, l][1..] == [l] && [l][1..] == [];
    assert CookFrom(f1, true, [l], cat) == CookFrom([], true, [], cat);
    assert CookFrom(f3, true, [l, l], cat) == CookFrom(f1, true, [l], cat);
    assert CookFrom(f5, false, [l, l, l], cat) == CookFrom(f3, true, [l, l], cat);
  }

  /** A line whose ingredient was deleted resolves to "", and so does a
      fridge entry whose ingredient was deleted: with equal units the two
      match and the lookup of "" fails. */
  lemma DeletedIngredientFails(e: FridgeItem, line: RecipeIngredient, catalog: map<IngredientId, Ingredient>)
    requires e.ingredient !in catalog && line.ingredient !in catalog && "" !in catalog
    requires line.unit == Some(e.unit)
    ensures CookLine([e], line, catalog) == Err(IngredientNotFound(""))
  {
    assert FindTarget([e], "", line.unit, catalog) == 0;
  }

  // ---------------------------------------------------------------------
  // findRecipesByProximity

  /** The per-recipe record the proximity search builds. */
  datatype ProximityMatch = ProximityMatch(
    recipe: Recipe,
    matched: nat,
    total: nat,
    missing: int,
    matchedIngredientIds: seq<string>,
    missingIngredientIds: seq<string>,
    percentage: real)

  /** The resolved ingredient ids of a recipe, in order, duplicates kept. */
  function ResolvedIds(recipe: Recipe, catalog: map<IngredientId, Ingredient>): (ids: seq<string>)
    ensures |ids| == |recipe.ingredients|
    ensures forall k :: 0 <= k < |ids| ==> ids[k] == ResolvedId(recipe.ingredients[k].ingredient, catalog)
  {
    seq(|recipe.ingredients|, k requires 0 <= k < |recipe.ingredients| => ResolvedId(recipe.ingredients[k].ingredient, catalog))
  }

  /** `ids.filter(id => query.includes(id))` and its complement. */
  function KeepIn(ids: seq<string>, query: seq<string>, keep: bool): (r: seq<string>)
    ensures |r| <= |ids|
    ensures forall x :: x in r <==> x in ids && ((x in query) == keep)
  {
    if ids == [] then []
    else (if (ids[0] in query) == keep then [ids[0]] else []) + KeepIn(ids[1..], query, keep)
  }

  function MatchOf(recipe: Recipe, query: seq<string>, catalog: map<IngredientId, Ingredient>): ProximityMatch {
    var ids := ResolvedIds(recipe, catalog);
    var hit := KeepIn(ids, query, true);
    var total := |ids|;
    ProximityMatch(recipe, |hit|, total, total - |hit|, hit, KeepIn(ids, query, false),
                   if total > 0 then (|hit| as real) / (total as real) else 0.0)
  }

  /** The two filters split the list: every id lands in exactly one. */
  lemma {:induction false} KeepInSplits(ids: seq<string>, query: seq<string>)
    ensures |KeepIn(ids, query, true)| + |KeepIn(ids, query, false)| == |ids|
    ensures multiset(KeepIn(ids, query, true)) + multiset(KeepIn(ids, query, false)) == multiset(ids)
  {
    if ids != [] {
      KeepInSplits(ids[1..], query);
      assert ids == [ids[0]] + ids[1..];
    }
  }

  /** The two filters split the list in order: the list is an interleaving
      of the ids in the query and the ids not in it. */
  lemma {:induction false} KeepInInterleaves(ids: seq<string>, query: seq<string>)
    ensures Interleaves(ids, KeepIn(ids, query, true), KeepIn(ids, query, false))
  {
    if ids != [] {
      var hit, rest := KeepIn(ids, query, true), KeepIn(ids, query, false);
      KeepInInterleaves(ids[1..], query);
      if ids[0] in query {
        assert hit == [ids[0]] + KeepIn(ids[1..], query, true);
        assert hit[1..] == KeepIn(ids[1..], query, true);
        assert rest == KeepIn(ids[1..], query, false);
        assert hit != [] && hit[0] == ids[0] && Interleaves(ids[1..], hit[1..], rest);
      } else {
        assert rest == [ids[0]] + KeepIn(ids[1..], query, false);
        assert rest[1..] == KeepIn(ids[1..], query, false);
        assert hit == KeepIn(ids[1..], query, true);
        assert rest != [] && rest[0] == ids[0] && Interleaves(ids[1..], hit, rest[1..]);
      }
    }
  }

  /** Each filter distributes over concatenation. */
  lemma {:induction false} KeepInAppend(a: seq<string>, b: seq<string>, query: seq<string>, keep: bool)
    ensures KeepIn(a + b, query, keep) == KeepIn(a, query, keep) + KeepIn(b, query, keep)
  {
    if a == [] {
      assert a + b == b;
    } else {
      assert (a + b)[0] == a[0] && (a + b)[1..] == a[1..] + b;
      KeepInAppend(a[1..], b, query, keep);
      var head := if (a[0] in query) == keep then [a[0]] else [];
      assert KeepIn(a + b, query, keep) == head + KeepIn(a[1..] + b, query, keep);
      assert KeepIn(a, query, keep) == head + KeepIn(a[1..], query, keep);
      ConcatAssoc(head, KeepIn(a[1..], query, keep), KeepIn(b, query, keep));
    }
  }

  /** The metrics of a match: total is the length of the id list
      (duplicates included), matched and missing ids partition it, and the
      percentage is their ratio, in [0, 1], and 0 for an empty recipe. */
  lemma MatchMetrics(recipe: Recipe, query: seq<string>, catalog: map<IngredientId, Ingredient>)
    ensures var m := MatchOf(recipe, query, catalog);
      && m.total == |recipe.ingredients|
      && m.matched == |m.matchedIngredientIds|
      && m.missing == |m.missingIngredientIds| == m.total - m.matched >= 0
      && multiset(m.matchedIngredientIds) + multiset(m.missingIngredientIds) == multiset(ResolvedIds(recipe, catalog))
      && Interleaves(ResolvedIds(recipe, catalog), m.matchedIngredientIds, m.missingIngredientIds)
      && (forall x :: x in m.matchedIngredientIds ==> x in query)
      && (forall x :: x in m.missingIngredientIds ==> x !in query)
      && 0.0 <= m.percentage <= 1.0
      && (m.total == 0 ==> m.percentage == 0.0)
  {
    var m := MatchOf(recipe, query, catalog);
    KeepInSplits(ResolvedIds(recipe, catalog), query);
    KeepInInterleaves(ResolvedIds(recipe, catalog), query);
    if m.total > 0 {
      RatioFacts(m.matched, m.total);
    }
  }

  lemma RatioFacts(h: nat, t: nat)
    requires h <= t && t > 0
    ensures 0.0 <= (h as real) / (t as real) <= 1.0
  {
  }

  /** Over the same total, equal ratios mean equal counts. */
  lemma RatioInjective(h1: nat, h2: nat, t: nat)
    requires t > 0 && (h1 as real) / (t as real) == (h2 as real) / (t as real)
    ensures h1 == h2
  {
  }

  /** The recipes with at least one ingredient at hand, with their
      metrics, in catalog order. */
  function Candidates(recipes: seq<Recipe>, query: seq<string>, catalog: map<IngredientId, Ingredient>)
    : (r: seq<ProximityMatch>)
    ensures |r| <= |recipes|
  {
    if recipes == [] then []
    else CandidateOf(recipes[0], query, catalog) + Candidates(recipes[1..], query, catalog)
  }

  /** The entry one recipe contributes: its metrics when it has a match,
      nothing otherwise. */
  function CandidateOf(x: Recipe, query: seq<string>, catalog: map<IngredientId, Ingredient>): seq<ProximityMatch> {
    var m := MatchOf(x, query, catalog);
    if m.matched > 0 then [m] else []
  }

  /** The candidates are the metrics of exactly the recipes with at least
      one ingredient at hand. */
  lemma {:induction false} CandidatesMembers(recipes: seq<Recipe>, query: seq<string>, catalog: map<IngredientId, Ingredient>)
    ensures forall m :: m in Candidates(recipes, query, catalog) <==>
      exists x :: x in recipes && m == MatchOf(x, query, catalog) && m.matched > 0
  {
    if recipes != [] {
      var x, t := recipes[0], recipes[1..];
      assert recipes == [x] + t;
      CandidatesMembers(t, query, catalog);
      CandidatesCons(x, t, query, catalog);
      forall m | exists y :: y in recipes && m == MatchOf(y, query, catalog) && m.matched > 0
        ensures m in Candidates(recipes, query, catalog)
      {
        var y :| y in recipes && m == MatchOf(y, query, catalog) && m.matched > 0;
        if y != x {
          assert y in t;
        }
      }
    }
  }

  /** The candidates of a concatenated catalog are the candidates of each
      part, in order: one entry per listing, in catalog order. */
  lemma {:induction false} CandidatesAppend(a: seq<Recipe>, b: seq<Recipe>, query: seq<string>,
                                            catalog: map<IngredientId, Ingredient>)
    ensures Candidates(a + b, query, catalog) == Candidates(a, query, catalog) + Candidates(b, query, catalog)
  {
    if a == [] {
      assert a + b == b;
    } else {
      var x, t := a[0], a[1..];
      assert a == [x] + t;
      assert a + b == [x] + (t + b);
      var head := CandidateOf(x, query, catalog);
      CandidatesAppend(t, b, query, catalog);
      CandidatesCons(x, t + b, query, catalog);
      CandidatesCons(x, t, query, catalog);
      ConcatAssoc(head, Candidates(t, query, catalog), Candidates(b, query, catalog));
    }
  }

  lemma CandidatesCons(x: Recipe, t: seq<Recipe>, query: seq<string>, catalog: map<IngredientId, Ingredient>)
    ensures Candidates([x] + t, query, catalog) == CandidateOf(x, query, catalog) + Candidates(t, query, catalog)
  {
    assert ([x] + t)[0] == x && ([x] + t)[1..] == t;
  }

  /** A single recipe is a candidate, once, exactly when some of its
      ingredients are at hand. */
  lemma CandidatesSingle(x: Recipe, query: seq<string>, catalog: map<IngredientId, Ingredient>)
    ensures Candidates([x], query, catalog)
         == if MatchOf(x, query, catalog).matched > 0 then [MatchOf(x, query, catalog)] else []
  {
    assert [x][1..] == [];
  }

  /** The sort comparator: fewer ingredients first, then the higher
      percentage, then fewer missing. */
  function Compare(a: ProximityMatch, b: ProximityMatch): real {
    if a.total != b.total then (a.total - b.total) as real
    else if b.percentage != a.percentage then b.percentage - a.percentage
    else (a.missing - b.missing) as real
  }

  /** The order the comparator defines, written out as keys. */
  predicate InOrder(a: ProximityMatch, b: ProximityMatch) {
    a.total < b.total
    || (a.total == b.total && (a.percentage > b.percentage
        || (a.percentage == b.percentage && a.missing <= b.missing)))
  }

  /** Same position in the order: equal keys. */
  predicate Tied(a: ProximityMatch, b: ProximityMatch) {
    a.total == b.total && a.percentage == b.percentage && a.missing == b.missing
  }

  lemma CompareMeans(a: ProximityMatch, b: ProximityMatch)
    ensures Compare(a, b) <= 0.0 <==> InOrder(a, b)
    ensures Compare(a, b) == 0.0 <==> Tied(a, b)
    ensures Compare(b, a) == -Compare(a, b)
  {
  }

  /** Stable insertion: `x` goes before the first element it is not
      after. */
  function Insert(x: ProximityMatch, s: seq<ProximityMatch>): (r: seq<ProximityMatch>)
    ensures multiset(r) == multiset(s) + multiset{x}
    ensures |r| == |s| + 1
    ensures forall y :: y in r <==> y == x || y in s
  {
    assert s != [] ==> s == [s[0]] + s[1..];
    if s == [] then [x]
    else if Compare(x, s[0]) <= 0.0 then [x] + s
    else [s[0]] + Insert(x, s[1..])
  }

  function SortMatches(s: seq<ProximityMatch>): (r: seq<ProximityMatch>)
    ensures multiset(r) == multiset(s)
    ensures |r| == |s|
    ensures forall y :: y in r <==> y in s
  {
    assert s != [] ==> s == [s[0]] + s[1..];
    if s == [] then [] else Insert(s[0], SortMatches(s[1..]))
  }

  predicate Sorted(s: seq<ProximityMatch>) {
    forall i, j :: 0 <= i < j < |s| ==> InOrder(s[i], s[j])
  }

  lemma {:induction false} InsertSorted(x: ProximityMatch, s: seq<ProximityMatch>)
    requires Sorted(s)
    ensures Sorted(Insert(x, s))
  {
    if s != [] {
      CompareMeans(x, s[0]);
      if Compare(x, s[0]) <= 0.0 {
        var r := [x] + s;
        forall i, j | 0 <= i < j < |r| ensures InOrder(r[i], r[j]) {
          assert r[j] == s[j - 1];
          if i > 0 { assert r[i] == s[i - 1]; }
        }
      } else {
        var t := s[1..];
        assert Sorted(t) by {
          forall i, j | 0 <= i < j < |t| ensures InOrder(t[i], t[j]) {
            assert t[i] == s[i + 1] && t[j] == s[j + 1];
          }
        }
        InsertSorted(x, t);
        var ins := Insert(x, t);
        var r := [s[0]] + ins;
        forall y | y in ins ensures InOrder(s[0], y) {
          if y != x {
            var k :| 0 <= k < |t| && t[k] == y;
            assert s[k + 1] == y;
          }
        }
        forall i, j | 0 <= i < j < |r| ensures InOrder(r[i], r[j]) {
          assert r[j] == ins[j - 1];
          if i > 0 { assert r[i] == ins[i - 1]; }
        }
      }
    }
  }

  lemma {:induction false} SortMatchesSorted(s: seq<ProximityMatch>)
    ensures Sorted(SortMatches(s))
  {
    if s != [] {
      SortMatchesSorted(s[1..]);
      InsertSorted(s[0], SortMatches(s[1..]));
    }
  }

  /** The entries tied with `a`, in order. */
  function TiedWith(s: seq<ProximityMatch>, a: ProximityMatch): seq<ProximityMatch> {
    if s == [] then [] else (if Tied(s[0], a) then [s[0]] else []) + TiedWith(s[1..], a)
  }

  lemma TiedWithCons(h: ProximityMatch, t: seq<ProximityMatch>, a: ProximityMatch)
    ensures TiedWith([h] + t, a) == (if Tied(h, a) then [h] else []) + TiedWith(t, a)
  {
    assert ([h] + t)[0] == h && ([h] + t)[1..] == t;
  }

  lemma {:induction false} InsertTied(x: ProximityMatch, s: seq<ProximityMatch>, a: ProximityMatch)
    ensures TiedWith(Insert(x, s), a) == (if Tied(x, a) then [x] else []) + TiedWith(s, a)
  {
    if s == [] {
      TiedWithCons(x, [], a);
    } else if Compare(x, s[0]) <= 0.0 {
      TiedWithCons(x, s, a);
    } else {
      var t := s[1..];
      var ins := Insert(x, t);
      assert Insert(x, s) == [s[0]] + ins;
      InsertTied(x, t, a);
      TiedWithCons(s[0], ins, a);
      assert s == [s[0]] + t;
      TiedWithCons(s[0], t, a);
      CompareMeans(x, s[0]);
      if Tied(x, a) {
        assert !Tied(s[0], a);
        assert TiedWith(Insert(x, s), a) == [x] + TiedWith(t, a);
        assert TiedWith(s, a) == TiedWith(t, a);
      } else {
        assert TiedWith(Insert(x, s), a) == (if Tied(s[0], a) then [s[0]] else []) + TiedWith(t, a);
      }
    }
  }

  /** The sort is stable: entries with equal keys keep their order. */
  lemma {:induction false} SortMatchesStable(s: seq<ProximityMatch>, a: ProximityMatch)
    ensures TiedWith(SortMatches(s), a) == TiedWith(s, a)
  {
    if s != [] {
      SortMatchesStable(s[1..], a);
      InsertTied(s[0], SortMatches(s[1..]), a);
    }
  }

  /** `findRecipesByProximity`: the candidates, stably sorted. */
  function FindRecipesByProximity(recipes: seq<Recipe>, query: seq<string>, catalog: map<IngredientId, Ingredient>)
    : seq<ProximityMatch>
  {
    SortMatches(Candidates(recipes, query, catalog))
  }

  /** The result holds exactly the recipes with a match, as often as the
      catalog lists them, in the comparator's order, keeping catalog order
      among ties. */
  lemma ProximityResult(recipes: seq<Recipe>, query: seq<string>, catalog: map<IngredientId, Ingredient>,
                        a: ProximityMatch)
    ensures var r := FindRecipesByProximity(recipes, query, catalog);
      && multiset(r) == multiset(Candidates(recipes, query, catalog))
      && (forall m :: m in r <==> exists x :: x in recipes && m == MatchOf(x, query, catalog) && m.matched > 0)
      && (forall i, j :: 0 <= i < j < |r| ==> r[i].total <= r[j].total)
      && (forall i, j :: 0 <= i < j < |r| && r[i].total == r[j].total ==> r[i].percentage >= r[j].percentage)
      && (forall i, j :: 0 <= i < j < |r| && r[i].total == r[j].total && r[i].percentage == r[j].percentage
            ==> r[i].missing <= r[j].missing)
      && TiedWith(r, a) == TiedWith(Candidates(recipes, query, catalog), a)
  {
    var c := Candidates(recipes, query, catalog);
    CandidatesMembers(recipes, query, catalog);
    var r := SortMatches(c);
    SortMatchesSorted(c);
    SortMatchesStable(c, a);
  }

  /** For two matches with an ingredient at hand, equal totals and equal
      percentages force equal missing counts: the third key never
      decides. */
  lemma ThirdKeyNeverDecides(x: Recipe, y: Recipe, query: seq<string>, catalog: map<IngredientId, Ingredient>)
    requires MatchOf(x, query, catalog).matched > 0 && MatchOf(y, query, catalog).matched > 0
    requires MatchOf(x, query, catalog).total == MatchOf(y, query, catalog).total
    requires MatchOf(x, query, catalog).percentage == MatchOf(y, query, catalog).percentage
    ensures MatchOf(x, query, catalog).missing == MatchOf(y, query, catalog).missing
  {
    var mx, my := MatchOf(x, query, catalog), MatchOf(y, query, catalog);
    MatchMetrics(x, query, catalog);
    MatchMetrics(y, query, catalog);
    RatioInjective(mx.matched, my.matched, mx.total);
  }

  // ---------------------------------------------------------------------
  // rateRecipe

  /** The service's `rateRecipe`: the range guard, then the repository. */
  method RateRecipe(recipes: RecipeCollection, recipeId: RecipeId, userId: UserId, value: real)
    returns (r: Result<Option<Recipe>, RecipeError>)
    requires recipes.Valid()
    modifies recipes
    ensures recipes.Valid()
    ensures (value < 1.0 || value > 5.0) ==> r == Err(InvalidRating) && recipes.recipes == old(recipes.recipes)
    ensures 1.0 <= value <= 5.0 && recipeId !in old(recipes.recipes) ==> r == Ok(None) && recipes.recipes == old(recipes.recipes)
    ensures 1.0 <= value <= 5.0 && recipeId in old(recipes.recipes) ==>
      var rated := RatedRecipe(old(recipes.recipes)[recipeId], userId, value);
      r == Ok(Some(rated)) && recipes.recipes == old(recipes.recipes)[recipeId := rated]
  {
    if value < 1.0 || value > 5.0 {
      return Err(InvalidRating);
    }
    r := recipes.RateRecipe(recipeId, userId, value);
  }
}
