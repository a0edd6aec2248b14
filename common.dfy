/** Shared vocabulary of the recipe backend: optional values, results with
    an error side, and the identifier types the collections are keyed by. */
module Common {

  /** A value that may be missing (the source's `null` / `undefined`). */
  datatype Option<T> = None | Some(value: T) {
    function GetOr(default: T): T {
      match this
      case Some(v) => v
      case None => default
    }
  }

  /** The outcome of an operation that can throw: `Err` carries the kind of
      error the source raises. */
  datatype Result<T, E> = Ok(value: T) | Err(error: E)

  /** Identifiers are the hexadecimal text of a database ObjectId. */
  type UserId = string
  type RecipeId = string
  type IngredientId = string

  /** An instant supplied by the caller wherever the source calls `new Date()`. */
  type Timestamp = int

  /** Number of occurrences of `x` in `s`. */
  function Occurrences<T(==)>(s: seq<T>, x: T): (n: nat)
    ensures n <= |s|
    ensures n == 0 <==> x !in s
  {
    if s == [] then 0 else (if s[0] == x then 1 else 0) + Occurrences(s[1..], x)
  }

  lemma {:induction false} OccurrencesAppend<T>(a: seq<T>, b: seq<T>, x: T)
    ensures Occurrences(a + b, x) == Occurrences(a, x) + Occurrences(b, x)
  {
    if a != [] {
      assert (a + b)[1..] == a[1..] + b;
      OccurrencesAppend(a[1..], b, x);
    } else {
      assert a + b == b;
    }
  }

  lemma ConcatAssoc<T>(a: seq<T>, b: seq<T>, c: seq<T>)
    ensures a + (b + c) == (a + b) + c
  {
  }

  /** No element occurs twice. */
  predicate Distinct<T(==)>(s: seq<T>) {
    forall i, j :: 0 <= i < j < |s| ==> s[i] != s[j]
  }

  /** `s` is an interleaving of `a` and `b`: taking the elements of `s` in
      order, each goes to the front of `a` or of `b`, so both keep the
      order they have in `s`. */
  predicate Interleaves<T(==)>(s: seq<T>, a: seq<T>, b: seq<T>)
    decreases |s|
  {
    if s == [] then a == [] && b == []
    else
      || (a != [] && a[0] == s[0] && Interleaves(s[1..], a[1..], b))
      || (b != [] && b[0] == s[0] && Interleaves(s[1..], a, b[1..]))
  }

  /** The set of the elements of a sequence. */
  function Elements<T>(s: seq<T>): set<T> {
    set x | x in s
  }
}
