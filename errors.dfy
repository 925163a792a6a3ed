/** The exceptions the library raises. Python raises ValueError (TypeError
    for the recipe values that cannot be compared or multiplied); the model
    names each raise site by a constructor that carries the text the message
    interpolates, and Message gives the text. */
module Errors {

  datatype Error =
    | UnknownUnit(unit: string)                      // get_unit_type
    | IncompatibleUnits(fromType: string, toType: string)  // convert
    | UnknownTemperatureUnit(unit: string)           // _convert_temperature
    | Unparsable(text: string)                       // convert_natural
    | MissingKey(key: string)                        // dict scale_recipe
    | OriginalServingsNotPositive                    // dict scale_recipe
    | NewServingsNotPositive                         // both scale_recipe
    | ServingsNotGreaterThanZero                     // Recipe's servings field
    | TypeMismatch(operation: string)                // a TypeError or AttributeError
    | ZeroDivision                                   // a Python ZeroDivisionError

  function Message(e: Error): string {
    match e
    case UnknownUnit(u) => "Unknown unit: " + u
    case IncompatibleUnits(a, b) => "Cannot convert between " + a + " and " + b
    case UnknownTemperatureUnit(u) => "Unknown temperature unit: " + u
    case Unparsable(t) => "Could not parse conversion request: " + t + FormatHint
    case MissingKey(k) => "Recipe must have '" + k + "' key"
    case OriginalServingsNotPositive => "Original servings must be positive"
    case NewServingsNotPositive => "New servings must be positive"
    case ServingsNotGreaterThanZero => "Input should be greater than 0"
    case TypeMismatch(op) => "unsupported operand type(s) for " + op
    case ZeroDivision => "division by zero"
  }

  /** The second line of the parse-failure message. */
  const FormatHint := "\nTry formats like: '2 cups to ml' or 'convert 1 pound to grams'"

  /** t occurs in s at position i. */
  predicate OccursAt(t: string, s: string, i: nat) {
    i + |t| <= |s| && s[i..i + |t|] == t
  }

  /** Python's `t in s`, which is what `pytest.raises(match=...)` checks for
      a plain word. */
  ghost predicate Contains(s: string, t: string) {
    exists i: nat :: OccursAt(t, s, i)
  }

  /** A word between any two strings occurs in their concatenation. */
  lemma ContainsMiddle(p: string, t: string, q: string)
    ensures Contains(p + t + q, t)
  {
    assert (p + t + q)[|p|..|p| + |t|] == t;
    assert OccursAt(t, p + t + q, |p|);
  }

  /** The unknown-unit message contains the words the test suite looks
      for and the offending unit. */
  lemma UnknownUnitWords(u: string)
    ensures Contains(Message(UnknownUnit(u)), "Unknown unit")
    ensures Contains(Message(UnknownUnit(u)), u)
  {
    assert OccursAt("Unknown unit", Message(UnknownUnit(u)), 0);
    assert OccursAt(u, Message(UnknownUnit(u)), |"Unknown unit: "|);
  }

  /** The incompatible-units message names both categories. */
  lemma IncompatibleUnitsWords(a: string, b: string)
    ensures Contains(Message(IncompatibleUnits(a, b)), "Cannot convert between")
    ensures Contains(Message(IncompatibleUnits(a, b)), a)
    ensures Contains(Message(IncompatibleUnits(a, b)), b)
  {
    var m := Message(IncompatibleUnits(a, b));
    var lead := "Cannot convert between ";
    assert OccursAt("Cannot convert between", m, 0);
    assert OccursAt(a, m, |lead|);
    assert OccursAt(b, m, |lead| + |a| + |" and "|);
  }

  /** The parse-failure message echoes the request. */
  lemma UnparsableWords(t: string)
    ensures Contains(Message(Unparsable(t)), "Could not parse")
    ensures Contains(Message(Unparsable(t)), t)
  {
    assert OccursAt("Could not parse", Message(Unparsable(t)), 0);
    ContainsMiddle("Could not parse conversion request: ", t, FormatHint);
  }

  /** The missing-key message names the key. */
  lemma MissingKeyWords(k: string)
    ensures Contains(Message(MissingKey(k)), k)
  {
    assert OccursAt(k, Message(MissingKey(k)), |"Recipe must have '"|);
  }

  /** The two servings messages of the scalers say "positive". */
  lemma ServingsMessageWords()
    ensures Contains(Message(OriginalServingsNotPositive), "positive")
    ensures Contains(Message(NewServingsNotPositive), "positive")
  {
    ContainsMiddle("Original servings must be ", "positive", "");
    assert "Original servings must be " + "positive" + "" == Message(OriginalServingsNotPositive);
    ContainsMiddle("New servings must be ", "positive", "");
    assert "New servings must be " + "positive" + "" == Message(NewServingsNotPositive);
  }

  /** The field constraint's message says what the count must be. */
  lemma ServingsConstraintWords()
    ensures Contains(Message(ServingsNotGreaterThanZero), "greater than 0")
  {
    ContainsMiddle("Input should be ", "greater than 0", "");
    assert "Input should be " + "greater than 0" + "" == Message(ServingsNotGreaterThanZero);
  }
}
