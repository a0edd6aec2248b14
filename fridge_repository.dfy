/** The fridges collection: one list of stock entries per user, merged by
    ingredient and normalised unit. */
module FridgeRepository {
  import opened Common
  import opened JsText
  import opened Models

  /** One entry of an add-or-update request. */
  datatype ItemInput = ItemInput(ingredient: string, quantity: real, unit: string)

  /** `new Types.ObjectId(id)` throws on a string that is not an ObjectId,
      and so does a query on `userId`, an ObjectId path, with such a
      string. */
  datatype FridgeError = InvalidObjectId(id: string)

  /** `unit.trim().toLowerCase()`. */
  function NormalizeUnit(u: string): string {
    ToLower(Trim(u))
  }

  /** Normalising a normalised unit changes nothing. */
  lemma NormalizeUnitIdempotent(u: string)
    ensures NormalizeUnit(NormalizeUnit(u)) == NormalizeUnit(u)
  {
    var t := Trim(u);
    TrimToLowerCommute(t);
    TrimIdempotent(u);
    ToLowerIdempotent(t);
  }

  /** White space around a unit and the case of its letters do not matter. */
  lemma NormalizeUnitIgnoresPaddingAndCase(w1: string, u: string, w2: string)
    requires AllWhitespace(w1) && AllWhitespace(w2)
    ensures NormalizeUnit(w1 + u + w2) == NormalizeUnit(u)
    ensures NormalizeUnit(ToLower(u)) == NormalizeUnit(u)
  {
    TrimOfPadded(w1, u, w2);
    TrimToLowerCommute(u);
    ToLowerIdempotent(Trim(u));
  }

  /** The merge key of a stock entry: the same ingredient id and the same
      normalised unit. */
  predicate Matches(item: FridgeItem, ingredient: string, unit: string) {
    item.ingredient == ingredient && NormalizeUnit(item.unit) == unit
  }

  /** `items.findIndex(...)` for a key: the first matching entry, or -1. */
  function FindKey(items: seq<FridgeItem>, ingredient: string, unit: string): (i: int)
    ensures -1 <= i < |items|
    ensures i >= 0 ==> Matches(items[i], ingredient, unit) && forall k :: 0 <= k < i ==> !Matches(items[k], ingredient, unit)
    ensures i == -1 ==> forall k :: 0 <= k < |items| ==> !Matches(items[k], ingredient, unit)
  {
    if items == [] then -1
    else if Matches(items[0], ingredient, unit) then 0
    else
      var j := FindKey(items[1..], ingredient, unit);
      if j == -1 then -1 else j + 1
  }

  /** No two entries share a merge key. */
  predicate KeysUnique(items: seq<FridgeItem>) {
    forall i, j :: 0 <= i < j < |items| ==> !SameKey(items[i], items[j])
  }

  /** The stock a fridge holds under a key: the quantity of the entry the
      merge would pick, or 0 when there is none. */
  function Stock(items: seq<FridgeItem>, ingredient: string, unit: string): real {
    var i := FindKey(items, ingredient, unit);
    if i >= 0 then items[i].quantity else 0.0
  }

  function Max0(x: real): real {
    if x > 0.0 then x else 0.0
  }

  /** `items.splice(idx, 1)`. */
  function RemoveAt(items: seq<FridgeItem>, idx: int): (r: seq<FridgeItem>)
    requires 0 <= idx < |items|
    ensures |r| == |items| - 1
  {
    items[..idx] + items[idx + 1..]
  }

  /** The entry being removed may first have had its quantity changed. */
  lemma RemoveAtUpdate(items: seq<FridgeItem>, idx: int, e: FridgeItem)
    requires 0 <= idx < |items|
    ensures RemoveAt(items[idx := e], idx) == RemoveAt(items, idx)
  {
    assert items[idx := e][..idx] == items[..idx];
    assert items[idx := e][idx + 1..] == items[idx + 1..];
  }

  /** One iteration of the `addOrUpdateIngredients` loop: add to the
      matching entry and drop it once it reaches 0 or less; without a
      match, append a new entry (unit normalised, time `now`) when the
      quantity is positive, and ignore the input otherwise.  Only the
      append converts the id, so only it can fail. */
  function MergeOne(items: seq<FridgeItem>, input: ItemInput, now: Timestamp, validId: string -> bool)
    : Result<seq<FridgeItem>, FridgeError>
  {
    var unit := NormalizeUnit(input.unit);
    var idx := FindKey(items, input.ingredient, unit);
    if idx >= 0 then
      var q := items[idx].quantity + input.quantity;
      if q <= 0.0 then Ok(RemoveAt(items, idx))
      else Ok(items[idx := items[idx].(quantity := q)])
    else if input.quantity > 0.0 then
      if validId(input.ingredient) then Ok(items + [FridgeItem(input.ingredient, input.quantity, unit, now)])
      else Err(InvalidObjectId(input.ingredient))
    else Ok(items)
  }

  /** The whole loop: the inputs merged one after the other; the first
      failure aborts it. */
  function MergeAll(items: seq<FridgeItem>, inputs: seq<ItemInput>, now: Timestamp, validId: string -> bool)
    : Result<seq<FridgeItem>, FridgeError>
    decreases |inputs|
  {
    if inputs == [] then Ok(items)
    else
      match MergeOne(items, inputs[0], now, validId)
      case Err(e) => Err(e)
      case Ok(next) => MergeAll(next, inputs[1..], now, validId)
  }

  /** The merge fails exactly on a new positive entry with an invalid id. */
  lemma MergeOneFails(items: seq<FridgeItem>, input: ItemInput, now: Timestamp, validId: string -> bool)
    ensures MergeOne(items, input, now, validId).Err? <==>
      FindKey(items, input.ingredient, NormalizeUnit(input.unit)) == -1 && input.quantity > 0.0 && !validId(input.ingredient)
  {
  }

  /** Changing a quantity moves no key. */
  lemma FindKeyUpdate(items: seq<FridgeItem>, idx: int, q: real, ingredient: string, unit: string)
    requires 0 <= idx < |items|
    ensures FindKey(items[idx := items[idx].(quantity := q)], ingredient, unit) == FindKey(items, ingredient, unit)
  {
    var r := items[idx := items[idx].(quantity := q)];
    assert forall k :: 0 <= k < |r| ==> (Matches(r[k], ingredient, unit) <==> Matches(items[k], ingredient, unit));
  }

  /** An appended entry is found only when no earlier entry has its key. */
  lemma FindKeyAppend(items: seq<FridgeItem>, e: FridgeItem, ingredient: string, unit: string)
    ensures FindKey(items + [e], ingredient, unit) ==
      if FindKey(items, ingredient, unit) >= 0 then FindKey(items, ingredient, unit)
      else if Matches(e, ingredient, unit) then |items| else -1
  {
    var r := items + [e];
    assert forall k :: 0 <= k < |items| ==> r[k] == items[k];
    assert r[|items|] == e;
  }

  /** The entries left after removing the one at `idx`, by index. */
  lemma RemoveAtIndex(items: seq<FridgeItem>, idx: int)
    requires 0 <= idx < |items|
    ensures var rest := RemoveAt(items, idx);
      forall k :: 0 <= k < |rest| ==> rest[k] == items[if k < idx then k else k + 1]
  {
  }

  /** Removing the entry of a unique key leaves no entry of that key. */
  lemma RemoveEntryGone(items: seq<FridgeItem>, idx: int, ingredient: string, unit: string)
    requires KeysUnique(items)
    requires 0 <= idx < |items| && Matches(items[idx], ingredient, unit)
    ensures FindKey(RemoveAt(items, idx), ingredient, unit) == -1
  {
    var rest := RemoveAt(items, idx);
    RemoveAtIndex(items, idx);
    forall k | 0 <= k < |rest| ensures !Matches(rest[k], ingredient, unit) {
      var m := if k < idx then k else k + 1;
      assert rest[k] == items[m];
      assert !SameKey(items[if m < idx then m else idx], items[if m < idx then idx else m]);
    }
  }

  /** Removing the entry of one key keeps the stock of every other key. */
  lemma RemoveEntryOthers(items: seq<FridgeItem>, idx: int, ingredient: string, unit: string, i2: string, u2: string)
    requires 0 <= idx < |items| && Matches(items[idx], ingredient, unit)
    requires (i2, u2) != (ingredient, unit)
    ensures Stock(RemoveAt(items, idx), i2, u2) == Stock(items, i2, u2)
  {
    var j := FindKey(items, i2, u2);
    assert !Matches(items[idx], i2, u2);
    if j >= 0 {
      RemoveKeepsFound(items, idx, i2, u2, j);
    } else {
      RemoveKeepsMissing(items, idx, i2, u2);
    }
  }

  lemma RemoveKeepsFound(items: seq<FridgeItem>, idx: int, i2: string, u2: string, j: int)
    requires 0 <= idx < |items| && !Matches(items[idx], i2, u2)
    requires 0 <= j < |items| && FindKey(items, i2, u2) == j
    ensures FindKey(RemoveAt(items, idx), i2, u2) == if j < idx then j else j - 1
    ensures RemoveAt(items, idx)[if j < idx then j else j - 1] == items[j]
  {
    var rest := RemoveAt(items, idx);
    RemoveAtIndex(items, idx);
    var j' := if j < idx then j else j - 1;
    assert rest[j'] == items[j];
    forall k | 0 <= k < j' ensures !Matches(rest[k], i2, u2) {
      assert rest[k] == items[if k < idx then k else k + 1];
    }
  }

  lemma RemoveKeepsMissing(items: seq<FridgeItem>, idx: int, i2: string, u2: string)
    requires 0 <= idx < |items| && FindKey(items, i2, u2) == -1
    ensures FindKey(RemoveAt(items, idx), i2, u2) == -1
  {
    var rest := RemoveAt(items, idx);
    RemoveAtIndex(items, idx);
    forall k | 0 <= k < |rest| ensures !Matches(rest[k], i2, u2) {
      assert rest[k] == items[if k < idx then k else k + 1];
    }
  }

  lemma StockAfterUpdate(items: seq<FridgeItem>, idx: int, q: real, ingredient: string, unit: string,
                         i2: string, u2: string)
    requires 0 <= idx < |items| && FindKey(items, ingredient, unit) == idx
    ensures var r := items[idx := items[idx].(quantity := q)];
      && Stock(r, ingredient, unit) == q
      && ((i2, u2) != (ingredient, unit) ==> Stock(r, i2, u2) == Stock(items, i2, u2))
  {
    var r := items[idx := items[idx].(quantity := q)];
    FindKeyUpdate(items, idx, q, ingredient, unit);
    FindKeyUpdate(items, idx, q, i2, u2);
    var j := FindKey(items, i2, u2);
    if j >= 0 && (i2, u2) != (ingredient, unit) {
      assert j != idx;
      assert r[j] == items[j];
    }
  }

  lemma StockAfterAppend(items: seq<FridgeItem>, e: FridgeItem, ingredient: string, unit: string,
                         i2: string, u2: string)
    requires FindKey(items, ingredient, unit) == -1 && Matches(e, ingredient, unit)
    ensures Stock(items + [e], ingredient, unit) == e.quantity
    ensures (i2, u2) != (ingredient, unit) && NormalizeUnit(e.unit) == unit ==>
      Stock(items + [e], i2, u2) == Stock(items, i2, u2)
  {
    FindKeyAppend(items, e, ingredient, unit);
    FindKeyAppend(items, e, i2, u2);
    var j := FindKey(items, i2, u2);
    if j >= 0 {
      assert (items + [e])[j] == items[j];
    }
  }

  /** The outcomes of one merge, for the key `unit` and the match `idx`. */
  lemma MergeOneCases(items: seq<FridgeItem>, input: ItemInput, now: Timestamp, validId: string -> bool,
                      unit: string, idx: int)
    requires unit == NormalizeUnit(input.unit) && idx == FindKey(items, input.ingredient, unit)
    ensures idx >= 0 && items[idx].quantity + input.quantity <= 0.0 ==>
      MergeOne(items, input, now, validId) == Ok(RemoveAt(items, idx))
    ensures idx >= 0 && items[idx].quantity + input.quantity > 0.0 ==>
      MergeOne(items, input, now, validId) == Ok(items[idx := items[idx].(quantity := items[idx].quantity + input.quantity)])
    ensures idx == -1 && input.quantity > 0.0 && validId(input.ingredient) ==>
      MergeOne(items, input, now, validId) == Ok(items + [FridgeItem(input.ingredient, input.quantity, unit, now)])
    ensures idx == -1 && input.quantity > 0.0 && !validId(input.ingredient) ==>
      MergeOne(items, input, now, validId) == Err(InvalidObjectId(input.ingredient))
    ensures idx == -1 && input.quantity <= 0.0 ==> MergeOne(items, input, now, validId) == Ok(items)
  {
  }

  lemma MergedStockMatched(items: seq<FridgeItem>, idx: int, ingredient: string, unit: string, delta: real,
                           r: seq<FridgeItem>, i2: string, u2: string)
    requires KeysUnique(items)
    requires 0 <= idx < |items| && FindKey(items, ingredient, unit) == idx
    requires items[idx].quantity + delta <= 0.0 ==> r == RemoveAt(items, idx)
    requires items[idx].quantity + delta > 0.0 ==> r == items[idx := items[idx].(quantity := items[idx].quantity + delta)]
    ensures Stock(r, ingredient, unit) == Max0(Stock(items, ingredient, unit) + delta)
    ensures (i2, u2) != (ingredient, unit) ==> Stock(r, i2, u2) == Stock(items, i2, u2)
  {
    if items[idx].quantity + delta <= 0.0 {
      RemoveEntryGone(items, idx, ingredient, unit);
      if (i2, u2) != (ingredient, unit) {
        RemoveEntryOthers(items, idx, ingredient, unit, i2, u2);
      }
    } else {
      StockAfterUpdate(items, idx, items[idx].quantity + delta, ingredient, unit, i2, u2);
    }
  }

  /** What one merge does to the stock: the key's stock becomes
      max(0, stock + quantity), and every other key keeps its stock. */
  lemma MergeOneStock(items: seq<FridgeItem>, input: ItemInput, now: Timestamp, validId: string -> bool,
                      i2: string, u2: string)
    requires KeysUnique(items)
    requires MergeOne(items, input, now, validId).Ok?
    ensures var unit, r := NormalizeUnit(input.unit), MergeOne(items, input, now, validId).value;
      && Stock(r, input.ingredient, unit) == Max0(Stock(items, input.ingredient, unit) + input.quantity)
      && ((i2, u2) != (input.ingredient, unit) ==> Stock(r, i2, u2) == Stock(items, i2, u2))
  {
    var unit := NormalizeUnit(input.unit);
    var idx := FindKey(items, input.ingredient, unit);
    MergeOneStockAt(items, input, now, validId, unit, idx, MergeOne(items, input, now, validId).value, i2, u2);
  }

  lemma MergeOneStockAt(items: seq<FridgeItem>, input: ItemInput, now: Timestamp, validId: string -> bool,
                        unit: string, idx: int, r: seq<FridgeItem>, i2: string, u2: string)
    requires KeysUnique(items)
    requires unit == NormalizeUnit(input.unit) && idx == FindKey(items, input.ingredient, unit)
    requires MergeOne(items, input, now, validId) == Ok(r)
    ensures Stock(r, input.ingredient, unit) == Max0(Stock(items, input.ingredient, unit) + input.quantity)
    ensures (i2, u2) != (input.ingredient, unit) ==> Stock(r, i2, u2) == Stock(items, i2, u2)
  {
    MergeOneCases(items, input, now, validId, unit, idx);
    if idx >= 0 {
      MatchedStock(items, input, unit, idx, r, i2, u2);
    } else if input.quantity > 0.0 {
      AppendStock(items, input, now, unit, i2, u2);
    }
  }

  lemma MatchedStock(items: seq<FridgeItem>, input: ItemInput, unit: string, idx: int, r: seq<FridgeItem>, i2: string, u2: string)
    requires KeysUnique(items)
    requires 0 <= idx < |items| && FindKey(items, input.ingredient, unit) == idx
    requires items[idx].quantity + input.quantity <= 0.0 ==> r == RemoveAt(items, idx)
    requires items[idx].quantity + input.quantity > 0.0 ==> r == items[idx := items[idx].(quantity := items[idx].quantity + input.quantity)]
    ensures Stock(r, input.ingredient, unit) == Max0(Stock(items, input.ingredient, unit) + input.quantity)
    ensures (i2, u2) != (input.ingredient, unit) ==> Stock(r, i2, u2) == Stock(items, i2, u2)
  {
    MergedStockMatched(items, idx, input.ingredient, unit, input.quantity, r, i2, u2);
  }

  lemma AppendStock(items: seq<FridgeItem>, input: ItemInput, now: Timestamp, unit: string, i2: string, u2: string)
    requires unit == NormalizeUnit(input.unit) && FindKey(items, input.ingredient, unit) == -1
    ensures var r := items + [FridgeItem(input.ingredient, input.quantity, unit, now)];
      && Stock(r, input.ingredient, unit) == input.quantity
      && ((i2, u2) != (input.ingredient, unit) ==> Stock(r, i2, u2) == Stock(items, i2, u2))
  {
    NormalizeUnitIdempotent(input.unit);
    StockAfterAppend(items, FridgeItem(input.ingredient, input.quantity, unit, now), input.ingredient, unit, i2, u2);
  }

  /** The merge key of two entries is the same. */
  predicate SameKey(a: FridgeItem, b: FridgeItem) {
    a.ingredient == b.ingredient && NormalizeUnit(a.unit) == NormalizeUnit(b.unit)
  }

  lemma UpdateKeepsKeysUnique(items: seq<FridgeItem>, idx: int, q: real)
    requires KeysUnique(items) && 0 <= idx < |items|
    ensures KeysUnique(items[idx := items[idx].(quantity := q)])
  {
    var r := items[idx := items[idx].(quantity := q)];
    assert forall k :: 0 <= k < |r| ==> r[k].ingredient == items[k].ingredient && r[k].unit == items[k].unit;
  }

  lemma RemoveKeepsKeysUnique(items: seq<FridgeItem>, idx: int)
    requires KeysUnique(items) && 0 <= idx < |items|
    ensures KeysUnique(RemoveAt(items, idx))
  {
    var rest := RemoveAt(items, idx);
    RemoveAtIndex(items, idx);
    forall i, j | 0 <= i < j < |rest| ensures !SameKey(rest[i], rest[j]) {
      assert rest[i] == items[if i < idx then i else i + 1];
      assert rest[j] == items[if j < idx then j else j + 1];
    }
  }

  lemma AppendKeepsKeysUnique(items: seq<FridgeItem>, e: FridgeItem)
    requires KeysUnique(items)
    requires forall k :: 0 <= k < |items| ==> !SameKey(items[k], e)
    ensures KeysUnique(items + [e])
  {
    var r := items + [e];
    forall i, j | 0 <= i < j < |r| ensures !SameKey(r[i], r[j]) {
      assert r[i] == items[i];
      if j < |items| { assert r[j] == items[j]; } else { assert r[j] == e; }
    }
  }

  /** A merge never creates two entries under one key. */
  lemma MergeOneKeepsKeysUnique(items: seq<FridgeItem>, input: ItemInput, now: Timestamp, validId: string -> bool)
    requires KeysUnique(items)
    requires MergeOne(items, input, now, validId).Ok?
    ensures KeysUnique(MergeOne(items, input, now, validId).value)
  {
    var unit := NormalizeUnit(input.unit);
    var idx := FindKey(items, input.ingredient, unit);
    if idx >= 0 {
      var q := items[idx].quantity + input.quantity;
      if q <= 0.0 {
        RemoveKeepsKeysUnique(items, idx);
      } else {
        UpdateKeepsKeysUnique(items, idx, q);
      }
    } else if input.quantity > 0.0 {
      NormalizeUnitIdempotent(input.unit);
      var e := FridgeItem(input.ingredient, input.quantity, unit, now);
      assert forall k :: 0 <= k < |items| ==> !Matches(items[k], input.ingredient, unit);
      AppendKeepsKeysUnique(items, e);
    }
  }

  /** `addOrUpdateIngredients` keeps a fridge free of duplicate keys. */
  lemma {:induction false} MergeAllKeepsKeysUnique(items: seq<FridgeItem>, inputs: seq<ItemInput>, now: Timestamp,
                                                    validId: string -> bool)
    requires KeysUnique(items)
    requires MergeAll(items, inputs, now, validId).Ok?
    ensures KeysUnique(MergeAll(items, inputs, now, validId).value)
    decreases |inputs|
  {
    if inputs != [] {
      MergeOneKeepsKeysUnique(items, inputs[0], now, validId);
      MergeAllKeepsKeysUnique(MergeOne(items, inputs[0], now, validId).value, inputs[1..], now, validId);
    }
  }

  predicate AllPositive(items: seq<FridgeItem>) {
    forall k :: 0 <= k < |items| ==> items[k].quantity > 0.0
  }

  lemma MergeOneKeepsPositive(items: seq<FridgeItem>, input: ItemInput, now: Timestamp, validId: string -> bool)
    requires AllPositive(items)
    requires MergeOne(items, input, now, validId).Ok?
    ensures AllPositive(MergeOne(items, input, now, validId).value)
  {
    var idx := FindKey(items, input.ingredient, NormalizeUnit(input.unit));
    if idx >= 0 && items[idx].quantity + input.quantity <= 0.0 {
      RemoveAtIndex(items, idx);
    }
  }

  /** Every entry a merge leaves or creates has a positive quantity, when
      the fridge started that way. */
  lemma {:induction false} MergeAllKeepsPositive(items: seq<FridgeItem>, inputs: seq<ItemInput>, now: Timestamp,
                                                  validId: string -> bool)
    requires AllPositive(items)
    requires MergeAll(items, inputs, now, validId).Ok?
    ensures AllPositive(MergeAll(items, inputs, now, validId).value)
    decreases |inputs|
  {
    if inputs != [] {
      MergeOneKeepsPositive(items, inputs[0], now, validId);
      MergeAllKeepsPositive(MergeOne(items, inputs[0], now, validId).value, inputs[1..], now, validId);
    }
  }

  /** No input names the key `(ingredient, unit)`. */
  predicate Untouched(inputs: seq<ItemInput>, ingredient: string, unit: string) {
    forall k :: 0 <= k < |inputs| ==> (inputs[k].ingredient, NormalizeUnit(inputs[k].unit)) != (ingredient, unit)
  }

  /** A key that no input names keeps its stock through the whole loop. */
  lemma {:induction false} MergeAllUntouched(items: seq<FridgeItem>, inputs: seq<ItemInput>, now: Timestamp,
                                             validId: string -> bool, ingredient: string, unit: string)
    requires KeysUnique(items)
    requires MergeAll(items, inputs, now, validId).Ok?
    requires Untouched(inputs, ingredient, unit)
    ensures Stock(MergeAll(items, inputs, now, validId).value, ingredient, unit) == Stock(items, ingredient, unit)
    decreases |inputs|
  {
    if inputs != [] {
      var next := MergeOne(items, inputs[0], now, validId).value;
      MergeOneStock(items, inputs[0], now, validId, ingredient, unit);
      MergeOneKeepsKeysUnique(items, inputs[0], now, validId);
      assert Untouched(inputs[1..], ingredient, unit) by {
        forall k | 0 <= k < |inputs[1..]|
          ensures (inputs[1..][k].ingredient, NormalizeUnit(inputs[1..][k].unit)) != (ingredient, unit)
        {
          assert inputs[1..][k] == inputs[k + 1];
        }
      }
      MergeAllUntouched(next, inputs[1..], now, validId, ingredient, unit);
    }
  }

  /** Merging the inputs `a + b` is merging `a`, then `b`. */
  lemma {:induction false} MergeAllAppend(items: seq<FridgeItem>, a: seq<ItemInput>, b: seq<ItemInput>, now: Timestamp,
                                          validId: string -> bool)
    ensures MergeAll(items, a + b, now, validId) ==
      match MergeAll(items, a, now, validId)
      case Err(e) => Err(e)
      case Ok(mid) => MergeAll(mid, b, now, validId)
    decreases |a|
  {
    if a == [] {
      assert a + b == b;
    } else {
      assert (a + b)[0] == a[0] && (a + b)[1..] == a[1..] + b;
      match MergeOne(items, a[0], now, validId)
      case Err(e) =>
      case Ok(next) => MergeAllAppend(next, a[1..], b, now, validId);
    }
  }

  lemma MergeAllStep(items: seq<FridgeItem>, inputs: seq<ItemInput>, i: int, now: Timestamp, validId: string -> bool)
    requires 0 <= i < |inputs|
    ensures MergeAll(items, inputs[i..], now, validId) ==
      match MergeOne(items, inputs[i], now, validId)
      case Err(e) => Err(e)
      case Ok(next) => MergeAll(next, inputs[i + 1..], now, validId)
  {
    assert inputs[i..][0] == inputs[i] && inputs[i..][1..] == inputs[i + 1..];
  }

  lemma MergeAllAdvance(items: seq<FridgeItem>, inputs: seq<ItemInput>, i: int, now: Timestamp, validId: string -> bool,
                        next: seq<FridgeItem>)
    requires 0 <= i < |inputs|
    requires MergeOne(items, inputs[i], now, validId) == Ok(next)
    ensures MergeAll(next, inputs[i + 1..], now, validId) == MergeAll(items, inputs[i..], now, validId)
  {
    MergeAllStep(items, inputs, i, now, validId);
  }

  /** `$pull: { items: { ingredient: { $in: ids } } }`: every entry of one
      of the ids goes, the others stay in order. */
  function RemoveIds(items: seq<FridgeItem>, ids: seq<IngredientId>): (r: seq<FridgeItem>)
    ensures forall x :: x in r <==> x in items && x.ingredient !in ids
    ensures |r| <= |items|
  {
    if items == [] then []
    else (if items[0].ingredient in ids then [] else [items[0]]) + RemoveIds(items[1..], ids)
  }

  /** Removal distributes over concatenation, so the entries that stay keep
      their relative order and multiplicity. */
  lemma {:induction false} RemoveIdsAppend(a: seq<FridgeItem>, b: seq<FridgeItem>, ids: seq<IngredientId>)
    ensures RemoveIds(a + b, ids) == RemoveIds(a, ids) + RemoveIds(b, ids)
  {
    if a == [] {
      assert a + b == b;
    } else {
      assert (a + b)[0] == a[0] && (a + b)[1..] == a[1..] + b;
      RemoveIdsAppend(a[1..], b, ids);
      var head := if a[0].ingredient in ids then [] else [a[0]];
      assert RemoveIds(a + b, ids) == head + RemoveIds(a[1..] + b, ids);
      assert RemoveIds(a, ids) == head + RemoveIds(a[1..], ids);
      ConcatAssoc(head, RemoveIds(a[1..], ids), RemoveIds(b, ids));
    }
  }

  /** Removing twice removes nothing more. */
  lemma {:induction false} RemoveIdsIdempotent(items: seq<FridgeItem>, ids: seq<IngredientId>)
    ensures RemoveIds(RemoveIds(items, ids), ids) == RemoveIds(items, ids)
  {
    if items != [] {
      var rest := RemoveIds(items[1..], ids);
      RemoveIdsIdempotent(items[1..], ids);
      if items[0].ingredient !in ids {
        var r := [items[0]] + rest;
        assert RemoveIds(items, ids) == r;
        assert r[0] == items[0] && r[1..] == rest;
        assert RemoveIds(r, ids) == [items[0]] + RemoveIds(rest, ids);
      } else {
        assert RemoveIds(items, ids) == rest;
      }
    }
  }

  lemma TailKeysUnique(items: seq<FridgeItem>)
    requires KeysUnique(items) && items != []
    ensures KeysUnique(items[1..])
  {
    var t := items[1..];
    forall i, j | 0 <= i < j < |t| ensures !SameKey(t[i], t[j]) {
      assert t[i] == items[i + 1] && t[j] == items[j + 1];
    }
  }

  lemma ConsKeysUnique(e: FridgeItem, rest: seq<FridgeItem>)
    requires KeysUnique(rest)
    requires forall x :: x in rest ==> !SameKey(e, x)
    ensures KeysUnique([e] + rest)
  {
    var r := [e] + rest;
    forall i, j | 0 <= i < j < |r| ensures !SameKey(r[i], r[j]) {
      assert r[j] == rest[j - 1];
      if i > 0 { assert r[i] == rest[i - 1]; }
    }
  }

  /** Removing entries keeps keys unique. */
  lemma {:induction false} RemoveIdsKeepsKeysUnique(items: seq<FridgeItem>, ids: seq<IngredientId>)
    requires KeysUnique(items)
    ensures KeysUnique(RemoveIds(items, ids))
  {
    if items != [] {
      TailKeysUnique(items);
      var rest := RemoveIds(items[1..], ids);
      RemoveIdsKeepsKeysUnique(items[1..], ids);
      if items[0].ingredient !in ids {
        forall x | x in rest ensures !SameKey(items[0], x) {
          var m :| 0 <= m < |items[1..]| && items[1..][m] == x;
          assert items[m + 1] == x;
        }
        ConsKeysUnique(items[0], rest);
      }
    }
  }

  /** The first id `ids.map(id => new Types.ObjectId(id))` throws on. */
  function FirstInvalid(ids: seq<string>, validId: string -> bool): (r: Option<string>)
    ensures r.None? <==> forall k :: 0 <= k < |ids| ==> validId(ids[k])
    ensures r.Some? ==> r.value in ids && !validId(r.value)
    ensures r.Some? ==> exists k :: 0 <= k < |ids| && ids[k] == r.value && forall j :: 0 <= j < k ==> validId(ids[j])
  {
    if ids == [] then None
    else if !validId(ids[0]) then Some(ids[0])
    else FirstInvalid(ids[1..], validId)
  }

  /** The fridges collection, keyed by user. */
  class FridgeCollection {
    var fridges: map<UserId, seq<FridgeItem>>

    constructor (initial: map<UserId, seq<FridgeItem>>)
      ensures fridges == initial
    {
      fridges := initial;
    }

    /** `addOrUpdateIngredients`: loads the user's fridge (an empty one if
        there is none), merges the inputs one by one and saves; a user id
        that is not an ObjectId fails the load, and a failed id conversion
        aborts before the save, so nothing changes. */
    method AddOrUpdateIngredients(userId: UserId, inputs: seq<ItemInput>, now: Timestamp, validId: string -> bool)
      returns (r: Result<seq<FridgeItem>, FridgeError>)
      modifies this
      ensures !validId(userId) ==> r == Err(InvalidObjectId(userId))
      ensures validId(userId) ==>
        r == MergeAll(if userId in old(fridges) then old(fridges)[userId] else [], inputs, now, validId)
      ensures r.Ok? ==> fridges == old(fridges)[userId := r.value]
      ensures r.Err? ==> fridges == old(fridges)
    {
      if !validId(userId) {
        return Err(InvalidObjectId(userId));
      }
      var items: seq<FridgeItem> := if userId in fridges then fridges[userId] else [];
      ghost var start := items;
      var i := 0;
      while i < |inputs|
        invariant 0 <= i <= |inputs|
        invariant MergeAll(items, inputs[i..], now, validId) == MergeAll(start, inputs, now, validId)
        invariant fridges == old(fridges)
      {
        ghost var before := items;
        var input := inputs[i];
        var unit := NormalizeUnit(input.unit);
        var idx := FindKey(items, input.ingredient, unit);
        MergeOneCases(items, input, now, validId, unit, idx);
        if idx > -1 {
          items := items[idx := items[idx].(quantity := items[idx].quantity + input.quantity)];
          if items[idx].quantity <= 0.0 {
            RemoveAtUpdate(before, idx, items[idx]);
            items := RemoveAt(items, idx);
          }
          MergeAllAdvance(before, inputs, i, now, validId, items);
        } else if input.quantity > 0.0 {
          if !validId(input.ingredient) {
            MergeAllStep(items, inputs, i, now, validId);
            return Err(InvalidObjectId(input.ingredient));
          }
          items := items + [FridgeItem(input.ingredient, input.quantity, unit, now)];
          MergeAllAdvance(before, inputs, i, now, validId, items);
        } else {
          MergeAllAdvance(before, inputs, i, now, validId, items);
        }
        i := i + 1;
      }
      assert inputs[i..] == [];
      fridges := fridges[userId := items];
      r := Ok(items);
    }

    /** `removeIngredients`: converting the ids comes first and can fail;
        then the query fails on a user id that is not an ObjectId, a
        missing fridge gives `null` (none is created), and otherwise the
        entries of those ids are pulled. */
    method RemoveIngredients(userId: UserId, ids: seq<string>, validId: string -> bool)
      returns (r: Result<Option<seq<FridgeItem>>, FridgeError>)
      modifies this
      ensures FirstInvalid(ids, validId).Some? ==> r == Err(InvalidObjectId(FirstInvalid(ids, validId).value)) && fridges == old(fridges)
      ensures FirstInvalid(ids, validId).None? && !validId(userId) ==> r == Err(InvalidObjectId(userId)) && fridges == old(fridges)
      ensures FirstInvalid(ids, validId).None? && validId(userId) && userId !in old(fridges) ==> r == Ok(None) && fridges == old(fridges)
      ensures FirstInvalid(ids, validId).None? && validId(userId) && userId in old(fridges) ==>
        var left := RemoveIds(old(fridges)[userId], ids);
        r == Ok(Some(left)) && fridges == old(fridges)[userId := left]
    {
      var bad := FirstInvalid(ids, validId);
      if bad.Some? {
        return Err(InvalidObjectId(bad.value));
      }
      if !validId(userId) {
        return Err(InvalidObjectId(userId));
      }
      if userId !in fridges {
        return Ok(None);
      }
      var left := RemoveIds(fridges[userId], ids);
      fridges := fridges[userId := left];
      r := Ok(Some(left));
    }

    /** `updateIngredients`: replaces the whole list of an existing fridge;
        a user id that is not an ObjectId fails the query, and a missing
        fridge gives `null` and is not created. */
    method UpdateIngredients(userId: UserId, items: seq<FridgeItem>, validId: string -> bool)
      returns (r: Result<Option<seq<FridgeItem>>, FridgeError>)
      modifies this
      ensures !validId(userId) ==> r == Err(InvalidObjectId(userId)) && fridges == old(fridges)
      ensures validId(userId) && userId in old(fridges) ==> r == Ok(Some(items)) && fridges == old(fridges)[userId := items]
      ensures validId(userId) && userId !in old(fridges) ==> r == Ok(None) && fridges == old(fridges)
    {
      if !validId(userId) {
        return Err(InvalidObjectId(userId));
      }
      if userId !in fridges {
        return Ok(None);
      }
      fridges := fridges[userId := items];
      r := Ok(Some(items));
    }
  }
}
