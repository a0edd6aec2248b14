/** The unit converter: a closed set of five kitchen units and a fixed
    table of conversion rates.  Quantities are exact rationals (`real`);
    the rates are not ingredient-aware (1 ml is taken to be 1 g). */
module UnitConversion {
  import opened Common

  datatype Unit = Gramo | Mililitro | Cucharadita | Cucharada | Taza

  /** The spelling of each unit as it appears in stored documents. */
  function UnitName(u: Unit): string {
    match u
    case Gramo => "gramo"
    case Mililitro => "mililitro"
    case Cucharadita => "cucharadita"
    case Cucharada => "cucharada"
    case Taza => "taza"
  }

  /** Looks a unit string up among the five keys of the rate table; any
      other string (including a differently cased one) is not a key. */
  function ParseUnit(s: string): (r: Option<Unit>)
    ensures r.Some? ==> UnitName(r.value) == s
    ensures r.None? ==> forall u: Unit :: UnitName(u) != s
  {
    if s == "gramo" then Some(Gramo)
    else if s == "mililitro" then Some(Mililitro)
    else if s == "cucharadita" then Some(Cucharadita)
    else if s == "cucharada" then Some(Cucharada)
    else if s == "taza" then Some(Taza)
    else None
  }

  /** Parsing the name of a unit gives the unit back. */
  lemma ParseUnitName(u: Unit)
    ensures ParseUnit(UnitName(u)) == Some(u)
  {
  }

  /** The table `conversionRates[from][to]`. */
  function Rate(from: Unit, to: Unit): real {
    match from
    case Gramo =>
      (match to
       case Gramo => 1.0 case Mililitro => 1.0 case Cucharadita => 5.0
       case Cucharada => 15.0 case Taza => 200.0)
    case Mililitro =>
      (match to
       case Gramo => 1.0 case Mililitro => 1.0 case Cucharadita => 5.0
       case Cucharada => 15.0 case Taza => 200.0)
    case Cucharadita =>
      (match to
       case Gramo => 5.0 case Mililitro => 5.0 case Cucharadita => 1.0
       case Cucharada => 3.0 case Taza => 0.2)
    case Cucharada =>
      (match to
       case Gramo => 15.0 case Mililitro => 15.0 case Cucharadita => 3.0
       case Cucharada => 1.0 case Taza => 0.05)
    case Taza =>
      (match to
       case Gramo => 200.0 case Mililitro => 200.0 case Cucharadita => 20.0
       case Cucharada => 60.0 case Taza => 1.0)
  }

  /** The error `convertUnit` throws when the table has no entry. */
  datatype ConversionError = NoRate(ingredientName: string, fromUnit: string, toUnit: string)

  /** `convertUnit`: the identity when the two unit strings are equal
      (whatever they are), otherwise the quantity times the table entry,
      and an error naming the ingredient when either string is not one of
      the five units. */
  function ConvertUnit(ingredientName: string, quantity: real, fromUnit: string, toUnit: string)
    : (r: Result<real, ConversionError>)
    ensures fromUnit == toUnit ==> r == Ok(quantity)
    ensures fromUnit != toUnit ==>
      (r.Ok? <==> ParseUnit(fromUnit).Some? && ParseUnit(toUnit).Some?)
    ensures r.Err? ==> r.error == NoRate(ingredientName, fromUnit, toUnit)
  {
    if fromUnit == toUnit then Ok(quantity)
    else
      match (ParseUnit(fromUnit), ParseUnit(toUnit))
      case (Some(f), Some(t)) => Ok(quantity * Rate(f, t))
      case _ => Err(NoRate(ingredientName, fromUnit, toUnit))
  }

  /** Every diagonal entry of the table is 1. */
  lemma DiagonalIsOne(u: Unit)
    ensures Rate(u, u) == 1.0
  {
  }

  /** On the five unit names the converter never fails and always agrees
      with the table, the identity short-cut included (the diagonal is 1). */
  lemma {:induction false} ConvertTyped(name: string, quantity: real, from: Unit, to: Unit)
    ensures ConvertUnit(name, quantity, UnitName(from), UnitName(to)) == Ok(quantity * Rate(from, to))
  {
    ParseUnitName(from);
    ParseUnitName(to);
    if from == to {
      DiagonalIsOne(from);
    } else {
      assert UnitName(from) != UnitName(to);
    }
  }

  /** The converter fails exactly when the strings differ and one of them
      is not a unit name. */
  lemma ConvertFailsOnUnknownUnit(name: string, quantity: real, fromUnit: string, toUnit: string)
    requires fromUnit != toUnit
    requires forall u: Unit :: UnitName(u) != fromUnit
    ensures ConvertUnit(name, quantity, fromUnit, toUnit) == Err(NoRate(name, fromUnit, toUnit))
  {
  }

  /** Conversion is linear in the quantity. */
  lemma {:induction false} ConvertLinear(name: string, a: real, b: real, from: Unit, to: Unit)
    ensures ConvertUnit(name, 0.0, UnitName(from), UnitName(to)) == Ok(0.0)
    ensures ConvertUnit(name, a + b, UnitName(from), UnitName(to)).value
         == ConvertUnit(name, a, UnitName(from), UnitName(to)).value
          + ConvertUnit(name, b, UnitName(from), UnitName(to)).value
  {
    ConvertTyped(name, 0.0, from, to);
    ConvertTyped(name, a + b, from, to);
    ConvertTyped(name, a, from, to);
    ConvertTyped(name, b, from, to);
  }

  /** Two spoons are six teaspoons; a cup is twenty teaspoons. */
  lemma ConvertExamples(name: string)
    ensures ConvertUnit(name, 2.0, "cucharada", "cucharadita") == Ok(6.0)
    ensures ConvertUnit(name, 1.0, "taza", "cucharadita") == Ok(20.0)
  {
  }

  /** The gram and millilitre rows of the table coincide. */
  lemma GramoRowIsMililitroRow(u: Unit)
    ensures Rate(Gramo, u) == Rate(Mililitro, u)
  {
  }

  /** The table is not reciprocal: teaspoon to cup and back multiplies by 4. */
  lemma NotReciprocal()
    ensures Rate(Cucharadita, Taza) * Rate(Taza, Cucharadita) == 4.0
  {
  }
}
