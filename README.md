# Recipe and inventory engine — a Dafny model

The system is a recipe backend. Users keep a *fridge* (a list of stock
entries: ingredient, quantity, unit, time added), a viewing *history*, and a
set of *favorite* recipes. Recipes list ingredient lines (ingredient,
quantity, unit) and carry user ratings with running aggregates.

This project models the logic at the centre of that backend:

- **UnitConversion** — the five kitchen units and the fixed rate table behind
  `convertUnit`.
- **Validators** — the four string validators: email, name, username and
  strong password. Each regular expression is restated as character classes and
  structure. **JsText** holds the JavaScript built-ins they rely on:
  `String.prototype.trim`, the `\s` class and `toLowerCase`.
- **Models** — the stored documents (ingredient, recipe line, rating entry,
  recipe, fridge entry, history entry), and the reference shapes a populated
  read can give.
- **RecipeRepository** — the field rules of `create`/`updateById`, the
  exact-containment search `findByIngredients`, and `rateRecipe`'s upsert by
  user with its running total, count and mean.
- **FridgeRepository** — `addOrUpdateIngredients` (additive merge keyed by
  ingredient and normalised unit), `removeIngredients` and
  `updateIngredients`.
- **HistoryRepository** — `addRecipe` (pull older views, then push the new
  view at the front, with upsert) and `clearHistory`.
- **FavoriteRepository** — `addFavorite` (`$addToSet` with upsert) and
  `removeFavorite` (`$pull`, no upsert).
- **RecipeService** — `getIngredientId`, `cookRecipe` (deduct a recipe's
  lines from the user's fridge), `findRecipesByProximity` (rank recipes by
  the ingredients at hand) and the rating guard.

Each Mongoose collection is a class holding a `map` from its key to the
stored document, so upsert, `findOneAndUpdate` returning `null`, and "no
document is created" can all be stated. Each repository method is a method on
that class. It is specified against a pure function of the old state, and the
properties the source promises are proved about those functions as lemmas.
The two loops in the source are imperative methods with loop invariants: the
merge loop of `addOrUpdateIngredients` and the line loop of `cookRecipe`.
Each is proved equal to a recursive fold, `MergeAll` and `CookFrom`.

Quantities, rates, percentages and ratings are `real`, so they are exact
rationals. Timestamps are an opaque `Timestamp` parameter. Mongoose's
`ObjectId.isValid` and the `new ObjectId(id)` cast are a parameter
`validId: string -> bool`. A populated read is `Models.Populate` over a
catalog `map` of the ingredients that exist.

The model follows the code in these places:

- The proximity sort's first key is `total` (fewer ingredients first), then
  `percentage`, then `missing`. The doc comment mentions only percentage and
  size.
- `findByIngredients` compares the size of a *set* intersection with the
  *length* of the recipe's ingredient list, so a recipe that lists an
  ingredient twice is never returned.
- The proximity metrics count duplicate ids.
- In `cookRecipe` the target entry is chosen by an identical unit string, so
  the normalised unit comparison always holds. The `convertUnit` branch can
  never run: the model leaves it out of `CookLine` and `CookStep`, and the
  lemma `ConversionBranchUnreachable` shows that the guard is always true.

## Model

| member | source | states |
|---|---|---|
| UnitConversion.ParseUnit | src/utils/unitConversion.ts:3-6 | a string parses to a unit exactly when it is one of the five key spellings, and the parsed unit spells that string |
| UnitConversion.ConvertUnit | src/utils/unitConversion.ts:45-58 | equal unit strings give the quantity back unchanged; for different strings, success iff both name a unit; every failure is the error naming the ingredient and both units |
| UnitConversion.ConvertTyped | src/utils/unitConversion.ts:45-58 | on the five unit names conversion never fails and equals quantity × table rate, the identity short-cut included |
| UnitConversion.ConvertFailsOnUnknownUnit | src/utils/unitConversion.ts:53-57 | distinct strings with a from-unit outside the enumeration give the "no rate" error |
| UnitConversion.DiagonalIsOne | src/utils/unitConversion.ts:8-40 | every diagonal rate is 1, so the identity branch agrees with the table |
| UnitConversion.ConvertExamples | src/utils/unitConversion.ts:31-38 | 2 cucharada are 6 cucharadita and 1 taza is 20 cucharadita |
| UnitConversion.GramoRowIsMililitroRow | src/utils/unitConversion.ts:7-20 | the gramo and mililitro rows of the table are identical |
| UnitConversion.ConvertLinear | src/utils/unitConversion.ts:53-54 | conversion of 0 is 0, and conversion of a + b is the sum of the conversions |
| UnitConversion.NotReciprocal | src/utils/unitConversion.ts:26-38 | cucharadita→taza times taza→cucharadita is 4: the table is not reciprocal |
| JsText.Trim | src/utils/validators.ts:8 | the result starts and ends with non-white space or is empty |
| JsText.TrimSplit | src/utils/validators.ts:8 | every string is leading white space + its trim + trailing white space |
| JsText.TrimUnique | src/utils/validators.ts:8 | any split of a string into padding, a trimmed core and padding has the trim as its core |
| JsText.TrimIdempotent | src/utils/validators.ts:8 | trimming twice is trimming once |
| JsText.ToLowerIdempotent | src/utils/validators.ts:8 | lowercasing twice is lowercasing once |
| JsText.TrimToLowerCommute | src/utils/validators.ts:8 | trimming and lowercasing may be applied in either order |
| Validators.MatchesEmailShape | src/utils/validators.ts:7 | the regular expression's test holds iff the string is local@domain.tld with one '@', all three parts non-empty and free of white space and '@' |
| Validators.IsValidEmail | src/utils/validators.ts:6-9 | valid iff trimmed and lowercased, the address has the three-part shape |
| Validators.EmailIgnoresCaseAndPadding | src/utils/validators.ts:8 | white space around an address and letter case do not change validity |
| Validators.IsValidName | src/utils/validators.ts:14-16 | valid iff the name has a non-white-space character and every character is an ASCII letter, an accented vowel, Ñ/ñ or white space |
| Validators.IsValidUsername | src/utils/validators.ts:21-23 | valid iff the username is white space, a non-empty run of [a-zA-Z0-9_.], then white space |
| Validators.Lookahead | src/utils/validators.ts:31 | a `(?=.*[c])` lookahead holds iff a character of the class occurs before the first line terminator |
| Validators.IsStrongPassword | src/utils/validators.ts:30-33 | strong iff at least 8 characters, no line terminator, and a lowercase letter, an uppercase letter, a digit and a non-word character or '_' |
| Validators.StrongPasswordExample | src/utils/validators.ts:30-33 | "Cocina#1" is strong |
| Validators.WeakPasswordExamples | src/utils/validators.ts:30-33 | "cocina#1" (no uppercase) and "Co#1" (too short) are not strong |
| Models.Populate | src/repositories/fridgeRepository.ts:6 | a populated reference is the ingredient document iff the ingredient exists, and null otherwise |
| RecipeRepository.ValidateForSave | src/repositories/recipeRepository.ts:9-20 | a truthy time ≤ 15 forces the type to 'Rápida'; a bad difficulty fails first, then a bad type; a forced type always passes, and success returns the data with only the type possibly changed |
| RecipeRepository.ZeroTimeForcesNothing | src/repositories/recipeRepository.ts:10-12 | a time of 0 or no time leaves the data as it was |
| RecipeRepository.Patched | src/repositories/recipeRepository.ts:33 | each supplied field of the request (title, time, difficulty, type, ingredients, rating, count, total, ratings) replaces the stored one, and every field left out is kept |
| RecipeRepository.PatchKeepsAggregates | src/repositories/recipeRepository.ts:33 | an update that supplies none of count, total and ratings keeps consistent aggregates consistent |
| RecipeRepository.PatchCanBreakAggregates | src/repositories/recipeRepository.ts:33 | an update that overwrites the total of a recipe rated once with 4 by 99 leaves total and ratings disagreeing |
| RecipeRepository.ValidIds | src/repositories/recipeRepository.ts:48-50 | the query keeps exactly the ids that are valid ObjectIds |
| RecipeRepository.ExactMatchMeans | src/repositories/recipeRepository.ts:66-77 | set-intersection size equals list length iff every ingredient of the recipe is in the query and none is listed twice |
| RecipeRepository.FindByIngredients | src/repositories/recipeRepository.ts:47-84 | a recipe is returned iff it is in the collection and passes the exact-match test against the valid query ids |
| RecipeRepository.FindByIngredientsCases | src/repositories/recipeRepository.ts:66-77 | an empty recipe is always found; a duplicate ingredient, or one the query lacks or gives only as an invalid id, excludes it |
| RecipeRepository.FindRater | src/repositories/recipeRepository.ts:114 | finds the first rating entry of the user, or reports none |
| RecipeRepository.RatingKeepsAggregates | src/repositories/recipeRepository.ts:113-128 | after rating, total = sum of values, count = number of entries, one entry per user, and mean = total / count with count > 0 |
| RecipeRepository.RatingUpsertsByUser | src/repositories/recipeRepository.ts:114-123 | a re-rating keeps the count and replaces the user's entry in place; a new rater adds one, pushed at the end; the user ends with the new value, and the other users' entries are kept exactly |
| RecipeRepository.SoleRaterRerates | src/repositories/recipeRepository.ts:113-128 | when the sole rater re-rates with v2, the count stays 1 and the mean becomes v2 |
| RecipeRepository.RecipeCollection.UpdateById | src/repositories/recipeRepository.ts:23-34 | validation errors change nothing; an unknown id gives null; otherwise the stored recipe is patched with the validated fields; consistent aggregates stay consistent only when the request leaves count, total and ratings alone |
| RecipeRepository.RecipeCollection.RateRecipe | src/repositories/recipeRepository.ts:108-131 | a value outside [1,5] is rejected before lookup; an unknown recipe gives null; otherwise exactly the rated recipe is stored, and consistent aggregates stay consistent |
| FridgeRepository.NormalizeUnitIdempotent | src/repositories/fridgeRepository.ts:19 | normalising a normalised unit changes nothing |
| FridgeRepository.NormalizeUnitIgnoresPaddingAndCase | src/repositories/fridgeRepository.ts:19-23 | white space around a unit and letter case do not change its key |
| FridgeRepository.FindKey | src/repositories/fridgeRepository.ts:20-24 | the first entry with the same id and normalised unit, or -1 when there is none |
| FridgeRepository.MergeOneCases | src/repositories/fridgeRepository.ts:25-37 | a match with a sum ≤ 0 is spliced out; a match with a positive sum is updated in place; without a match a positive quantity is appended with the normalised unit (failing on an invalid id), and otherwise nothing changes |
| FridgeRepository.MergeOneFails | src/repositories/fridgeRepository.ts:30-32 | one merge fails iff it would append a new entry whose id is not an ObjectId |
| FridgeRepository.MergeOneStock | src/repositories/fridgeRepository.ts:18-38 | with unique keys, the input's key ends with max(0, stock + quantity) and every other key keeps its stock |
| FridgeRepository.MergeOneKeepsKeysUnique | src/repositories/fridgeRepository.ts:18-38 | one merge never gives two entries the same key |
| FridgeRepository.MergeAllKeepsKeysUnique | src/repositories/fridgeRepository.ts:18-38 | if no two entries shared a key before, none do after the whole loop |
| FridgeRepository.MergeAllKeepsPositive | src/repositories/fridgeRepository.ts:25-37 | a fridge of positive entries stays positive after the loop |
| FridgeRepository.MergeAllUntouched | src/repositories/fridgeRepository.ts:18-38 | with unique keys, a key that no input names keeps its stock through the whole loop |
| FridgeRepository.MergeAllAppend | src/repositories/fridgeRepository.ts:18-38 | merging a ++ b is merging a and then b, and a failure in a aborts it |
| FridgeRepository.RemoveIds | src/repositories/fridgeRepository.ts:44-50 | exactly the entries whose ingredient is not listed remain, whatever their unit |
| FridgeRepository.RemoveIdsAppend | src/repositories/fridgeRepository.ts:47 | removal distributes over concatenation, so the remaining entries keep their order and multiplicity |
| FridgeRepository.RemoveIdsIdempotent | src/repositories/fridgeRepository.ts:47 | removing the same ids twice removes nothing more |
| FridgeRepository.RemoveIdsKeepsKeysUnique | src/repositories/fridgeRepository.ts:47 | removal keeps keys unique |
| FridgeRepository.FirstInvalid | src/repositories/fridgeRepository.ts:47 | returns none iff every id is an ObjectId, and otherwise the first invalid id of the list, the one `map` throws on |
| FridgeRepository.FridgeCollection.AddOrUpdateIngredients | src/repositories/fridgeRepository.ts:9-41 | a user id that is not an ObjectId fails the load; otherwise the loop computes the fold over the inputs, starting from an empty fridge when the user has none; success stores the result, and a failed id cast stores nothing |
| FridgeRepository.FridgeCollection.RemoveIngredients | src/repositories/fridgeRepository.ts:44-50 | an invalid ingredient id fails first, then an invalid user id; a missing fridge gives null and is not created; otherwise the listed ingredients are pulled |
| FridgeRepository.FridgeCollection.UpdateIngredients | src/repositories/fridgeRepository.ts:53-55 | an invalid user id fails with nothing changed; an existing fridge gets exactly the given items; a missing one gives null and is not created |
| HistoryRepository.PullRecipe | src/repositories/historyRepository.ts:25-28 | exactly the entries of other recipes remain |
| HistoryRepository.PullRecipeAppend | src/repositories/historyRepository.ts:25-28 | pulling distributes over concatenation, so the remaining views keep their relative order |
| HistoryRepository.PullRecipeLength | src/repositories/historyRepository.ts:25-28 | pulling drops exactly the recipe's occurrences and leaves none |
| HistoryRepository.ViewedShape | src/repositories/historyRepository.ts:25-36 | after a view the recipe heads the history with the new time and occurs exactly once; the rest is the old history without it, and length = old − occurrences + 1 |
| HistoryRepository.ViewedKeepsDistinct | src/repositories/historyRepository.ts:25-36 | a history without repeated recipes keeps that property after a view |
| HistoryRepository.ViewedTwice | src/repositories/historyRepository.ts:23-45 | viewing the same recipe again only replaces the head's time |
| HistoryRepository.HistoryCollection.AddRecipe | src/repositories/historyRepository.ts:23-45 | an invalid id changes nothing; otherwise the user's history, or an empty one when missing (upsert), becomes the viewed history |
| HistoryRepository.HistoryCollection.ClearHistory | src/repositories/historyRepository.ts:12-19 | an existing history becomes empty; a missing one gives null and is not created |
| FavoriteRepository.AddToSet | src/repositories/favoriteRepository.ts:15 | a present id leaves the list exactly as it was; an absent one is appended at the end |
| FavoriteRepository.Pull | src/repositories/favoriteRepository.ts:23 | exactly the other ids remain |
| FavoriteRepository.PullLength | src/repositories/favoriteRepository.ts:23 | pulling drops exactly the id's occurrences |
| FavoriteRepository.AddToSetProperties | src/repositories/favoriteRepository.ts:15 | adding is idempotent and keeps a list of distinct ids distinct |
| FavoriteRepository.PullProperties | src/repositories/favoriteRepository.ts:23 | removing is idempotent and keeps distinct ids distinct |
| FavoriteRepository.AddThenRemove | src/repositories/favoriteRepository.ts:12-26 | adding an absent id and then removing it restores the list |
| FavoriteRepository.FavoriteCollection.AddFavorite | src/repositories/favoriteRepository.ts:12-18 | an invalid user id, then an invalid recipe id, fails and changes nothing; otherwise the id is set-inserted into the user's list, which is created when missing |
| FavoriteRepository.FavoriteCollection.RemoveFavorite | src/repositories/favoriteRepository.ts:20-26 | an invalid user id, then an invalid recipe id, fails and changes nothing; a missing document gives null and is not created; otherwise every occurrence is pulled |
| RecipeService.ResolvedIdMeans | src/services/recipeService.ts:14-20 | a stored reference resolves to its id while the ingredient exists and to "" once it is deleted; a string or an ObjectId gives its own text |
| RecipeService.FindTarget | src/services/recipeService.ts:113-115 | the first fridge entry with the line's resolved id and an identical unit string, or -1 |
| RecipeService.ConversionBranchUnreachable | src/services/recipeService.ts:123-132 | for the target the normalised units are always equal, so `convertUnit` is never reached |
| RecipeService.CookLineEffect | src/services/recipeService.ts:116-145 | a line changes the fridge iff it has a target and a positive amount; then the target's quantity is decremented in place and stays positive with everything else, its time stamp included, unchanged (so the zero check after the decrement never fires), or it is removed |
| RecipeService.CookLineFails | src/services/recipeService.ts:118-121 | a line fails iff it has a target whose ingredient is not in the catalog, and the error names that id |
| RecipeService.CookLineStock | src/services/recipeService.ts:134-142 | a changing line removes exactly min(target quantity, amount) from the fridge's total stock |
| RecipeService.CookFromShrinks | src/services/recipeService.ts:111-146 | cooking never adds entries or stock and keeps every entry positive; it reports a change iff stock was taken, and with no change the fridge is the same |
| RecipeService.CookStep | src/services/recipeService.ts:112-145 | one pass of the loop body computes the line's outcome |
| RecipeService.ApplyLines | src/services/recipeService.ts:109-146 | the loop computes the fold of the lines over the fridge, stopping at the first failure |
| RecipeService.CookRecipe | src/services/recipeService.ts:102-150 | an invalid recipe id, a missing recipe, an invalid user id or a missing fridge fails, in that order, with nothing changed; a failing line leaves the stored fridge as it was; otherwise the entries are returned and stored only when some line changed them |
| RecipeService.CookExamples | src/services/recipeService.ts:111-144 | three 2-gramo lines on 5 gramo empty the fridge; a "Gramo" line, or a taza line, leaves a gramo entry untouched |
| RecipeService.DeletedIngredientFails | src/services/recipeService.ts:112-121 | a deleted line ingredient matches a deleted fridge ingredient with the same unit, and the lookup of "" then fails |
| RecipeService.AsWrittenNeverDeducts | src/services/recipeService.ts:118 | as written, a line is skipped or throws and never deducts; on 5 gramo and a 2-gramo line it throws where the intended code leaves 3 |
| RecipeService.KeepInSplits | src/services/recipeService.ts:168-169 | the matched and missing filters partition the id list |
| RecipeService.KeepInInterleaves | src/services/recipeService.ts:168-169 | the id list is an interleaving of the ids in the query and those not in it, each in list order |
| RecipeService.KeepInAppend | src/services/recipeService.ts:168-169 | each filter distributes over concatenation |
| RecipeService.MatchMetrics | src/services/recipeService.ts:159-171 | total = list length with duplicates; the list is an in-order interleaving of the matched ids (all in the query) and the missing ids (none in it); missing = total − matched; percentage in [0,1], and 0 when total is 0 |
| RecipeService.CandidatesMembers | src/services/recipeService.ts:158-174 | the candidates are the metrics of exactly the recipes with at least one match |
| RecipeService.CandidatesAppend | src/services/recipeService.ts:158-174 | the candidates of a concatenated catalog are those of each part, in order |
| RecipeService.CandidatesSingle | src/services/recipeService.ts:174 | one recipe contributes its metrics once when it has a match, and nothing otherwise |
| RecipeService.CompareMeans | src/services/recipeService.ts:176-180 | the comparator is ≤ 0 iff the keys are in order, = 0 iff they tie, and it is antisymmetric |
| RecipeService.Insert | src/services/recipeService.ts:176-180 | insertion adds exactly one element to the multiset |
| RecipeService.SortMatches | src/services/recipeService.ts:176-180 | sorting is a permutation |
| RecipeService.InsertSorted | src/services/recipeService.ts:176-180 | inserting into a sorted list keeps it sorted |
| RecipeService.SortMatchesSorted | src/services/recipeService.ts:176-180 | the sort's result is in the comparator's order |
| RecipeService.SortMatchesStable | src/services/recipeService.ts:176-180 | entries with equal keys keep their relative order |
| RecipeService.ProximityResult | src/services/recipeService.ts:156-183 | the result is a permutation of the recipes with a match; total never decreases, percentage never increases within a total, missing never decreases within both; ties keep catalog order |
| RecipeService.ThirdKeyNeverDecides | src/services/recipeService.ts:176-179 | for candidates, equal totals and equal percentages force equal missing counts |
| RecipeService.RateRecipe | src/services/recipeService.ts:89-94 | a value outside [1,5] is rejected first; otherwise the outcome is the repository's rating upsert |

## Left out

- The HTTP layer (controllers, routes, app and server set-up), configuration and the database connection: this is wiring, not logic.
- Authentication (bcrypt hashing, JWT tokens, the password-change flow): these are foreign calls.
- The thin repository wrappers: `findById`, `findAll`, `findByType`, `findByDifficulty`, `findPopular`, `findRecommended`, `findByUserId`, the `populate` calls beyond `Models.Populate`, the user, profile and ingredient repositories, and the services that only delegate.
- The display fields of a recipe (`imageUrl`, `description`, `servings`, `steps`) carry no logic and are not part of the `Recipe` record, nor of an update request. A supplied `ratingCount` is taken to be a natural number.
- `create` itself: only its field rules are modelled, as `ValidateForSave`. Inserting a new document and assigning it an id is Mongoose's.
- Mongoose schema validation on save (required fields, enum checks on the stored strings) is not part of this model.
- `isEmailTaken` and `isUsernameTaken`: they query the user collection.
- Timestamps: `new Date()` is a `Timestamp` parameter `now`.
- ObjectId validity and the `new Types.ObjectId(id)` cast: both are the `validId` parameter. The hex canonicalisation of ids is not modelled, and ids are compared as strings.
- The casts of a user or recipe id that `rateRecipe` (src/repositories/recipeRepository.ts:110,120) and `updateById` (line 33) perform are not modelled: those ids are taken as valid. The `userId` casts of the fridge and favorites queries (`userId` is an ObjectId path, src/models/Fridge.ts:23 and src/models/Favorite.ts:9) and the two lookups of `cookRecipe` are modelled by `validId`; the history's `userId` is a plain string and is not cast.
- FavoriteRepository.FavoriteCollection.AddFavorite and RemoveFavorite: the model fails on the user id before the recipe id, the order in which Mongoose casts a query's filter and then its update.
- Floating point: quantities, rates, percentages and means are exact rationals, so IEEE rounding, NaN and `undefined` aggregates are not modelled.
- The rate table is looked up only with the five unit spellings. A key such as `"constructor"`, which JavaScript resolves through the object prototype, is treated as absent.
- `\s` and `trim` use the ECMAScript white-space and line-terminator code points. `toLowerCase` is modelled for the ASCII and Latin-1 capitals only; other scripts and UTF-16 surrogate pairs are not modelled.
- Concurrency: the read-modify-write races between requests and the atomicity of saves are out of scope.
- IngredientRef: only the reference shapes a read of the stored data can produce are distinguished. Arbitrary JavaScript values passed to `getIngredientId` are not modelled.
- RecipeService.CookLine: the `<= 0` removal right after the decrement (src/services/recipeService.ts:137-139) is not written in the model. CookLineEffect proves it can never fire.
- RecipeService.CookRecipe: it models the intended catalog lookup, not the missing `findById` (see Findings). The recipe-level effect of the finding is shown line by line, by CookLineAsWritten.
- RecipeRepository.RecipeCollection.RateRecipe: requires the stored recipes' aggregates to agree with their ratings arrays (RatingsConsistent). The source does not check this, and on inconsistent documents the model does not say what the mean becomes. An update that writes the aggregates can break this (PatchCanBreakAggregates).
- RecipeService.RateRecipe: requires the same consistency, for the same reason.
- FridgeRepository.MergeOneStock: requires unique keys beforehand. With duplicate keys only the first entry is updated, and MergeOneCases still gives the exact result.
- The result of `findRecipesByProximity` returns the whole recipe document. The model keeps the recipe, but not the populated form it is serialised in.

## Findings

| source | as written | input that shows it | evidently intended | confidence | as-written member | corrected member |
|---|---|---|---|---|---|---|
| src/services/recipeService.ts:118 | `cookRecipe` calls `ingredientRepository.findById(rIngId)` for every matched line, but src/repositories/ingredientRepository.ts defines no `findById`, so the call throws a TypeError | a fridge holding 5 gramo of ingredient a and a recipe line asking 2 gramo of a: the written code throws and nothing is deducted | look the ingredient up in the catalog, fail only if it is missing, and deduct to 3 gramo | not executed | RecipeService.AsWrittenNeverDeducts | RecipeService.CookLineEffect |
