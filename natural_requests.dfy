/** The requests of the test-suite of `convert_natural`, read by the three
    patterns: each text is shown to have one of the layouts of
    NaturalParsing, and the layout gives the request. */
module NaturalRequests {
  import opened Wrappers
  import opened Text
  import opened Patterns
  import opened Natural
  import opened NaturalParsing

  // ---------------------------------------------------------------------
  // Number tokens

  /** `float("d")` is the digit's value. */
  lemma SingleDigit(c: char)
    requires IsDigit(c)
    ensures ParseDecimal([c]) == DigitValue(c) as real
  {
    assert [c][..0] == [];
    ParseDigits([c]);
  }

  /** `float("abc")` for three digits. */
  lemma ThreeDigits(a: char, b: char, c: char)
    requires IsDigit(a) && IsDigit(b) && IsDigit(c)
    ensures ParseDecimal([a, b, c]) == (DigitValue(a) * 100 + DigitValue(b) * 10 + DigitValue(c)) as real
  {
    assert [a, b, c][..2] == [a, b] && [a, b][..1] == [a] && [a][..0] == [];
    assert DigitsValue([a]) == DigitValue(a);
    assert DigitsValue([a, b]) == DigitValue(a) * 10 + DigitValue(b);
    assert DigitsValue([a, b, c]) == DigitsValue([a, b]) * 10 + DigitValue(c);
    ParseDigits([a, b, c]);
  }

  /** `float("a.b")` is a plus b tenths. */
  lemma DigitDotDigit(a: char, b: char)
    requires IsDigit(a) && IsDigit(b)
    ensures ParseDecimal([a, '.', b]) == DigitValue(a) as real + DigitValue(b) as real / 10.0
  {
    var t := [a, '.', b];
    RunEndAt(t, 0, 1, Digit);
    assert t[..1] == [a] && t[2..] == [b] && [a][..0] == [] && [b][..0] == [];
    assert DigitsValue([a]) == DigitValue(a) && DigitsValue([b]) == DigitValue(b);
    assert Pow10(1) == 10;
  }

  /** How the values of the test requests are printed: the whole ones
      without ".0", the fractional one by `str`. */
  lemma PrintedValues(floatText: real -> string)
    ensures FormatNumber(2.0, floatText) == "2"
    ensures FormatNumber(350.0, floatText) == "350"
    ensures FormatNumber(1.5, floatText) == floatText(1.5)
  {
    assert NatText(35) == "35";
  }

  // ---------------------------------------------------------------------
  // "2 cups to ml"

  lemma CupsLayout()
    ensures ToLayout("2 cups to ml", 1, 6)
  {
    var s := "2 cups to ml";
    NumberEndAt(s, 0, 1);
    assert s[7..9] == "to";
    assert Words(s, 2, 6);
  }

  lemma CupsSlices()
    ensures var s := "2 cups to ml"; s[..1] == "2" && s[2..6] == "cups" && s[10..] == "ml"
  {
  }

  /** Pattern 1 reads 2 of "cups" in "ml". */
  lemma CupsRequest()
    ensures ParseRequest("2 cups to ml") == Some(Request(2.0, "cups", "ml"))
    ensures Strip(ToLower("2 cups to ml")) == "2 cups to ml"
  {
    NormalText("2 cups to ml");
    CupsLayout();
    CupsSlices();
    ToLayoutRequest("2 cups to ml", 1, 6, "2", "cups", "ml");
    SingleDigit('2');
  }

  // ---------------------------------------------------------------------
  // "5 fluid ounce to ml"

  lemma FluidOunceLayout()
    ensures ToLayout("5 fluid ounce to ml", 1, 13)
  {
    var s := "5 fluid ounce to ml";
    NumberEndAt(s, 0, 1);
    assert s[14..16] == "to";
    assert Words(s, 2, 13);
  }

  lemma FluidOunceSlices()
    ensures var s := "5 fluid ounce to ml"; s[..1] == "5" && s[2..13] == "fluid ounce" && s[17..] == "ml"
  {
  }

  /** The lazy group takes both words of a two-word unit: pattern 1 reads
      5 of "fluid ounce" in "ml". */
  lemma FluidOunceRequest()
    ensures ParseRequest("5 fluid ounce to ml") == Some(Request(5.0, "fluid ounce", "ml"))
    ensures Strip(ToLower("5 fluid ounce to ml")) == "5 fluid ounce to ml"
  {
    NormalText("5 fluid ounce to ml");
    FluidOunceLayout();
    FluidOunceSlices();
    ToLayoutRequest("5 fluid ounce to ml", 1, 13, "5", "fluid ounce", "ml");
    SingleDigit('5');
  }

  // ---------------------------------------------------------------------
  // "convert 1 pound to grams"

  lemma PoundWords()
    ensures LiteralAt("convert 1 pound to grams", "convert", 0)
    ensures Words("convert 1 pound to grams", 10, 15)
  {
    assert "convert 1 pound to grams"[..7] == "convert";
  }

  lemma PoundLayout()
    ensures ConvertLayout("convert 1 pound to grams", 8, 9, 15)
  {
    var s := "convert 1 pound to grams";
    NumberEndAt(s, 8, 9);
    assert s[16..18] == "to";
    PoundWords();
  }

  lemma PoundSlices()
    ensures var s := "convert 1 pound to grams"; s[8..9] == "1" && s[10..15] == "pound" && s[19..] == "grams"
  {
  }

  /** Pattern 1 fails on a text that starts with "convert", and pattern 2
      reads 1 of "pound" in "grams". */
  lemma PoundRequest()
    ensures ParseRequest("convert 1 pound to grams") == Some(Request(1.0, "pound", "grams"))
    ensures Strip(ToLower("convert 1 pound to grams")) == "convert 1 pound to grams"
  {
    NormalText("convert 1 pound to grams");
    PoundLayout();
    PoundSlices();
    ConvertLayoutRequest("convert 1 pound to grams", 8, 9, 15, "1", "pound", "grams");
    SingleDigit('1');
  }

  // ---------------------------------------------------------------------
  // "how many ml in 3 teaspoons"

  lemma TeaspoonsLayout()
    ensures HowManyLayout("how many ml in 3 teaspoons", 11, 16)
  {
    var s := "how many ml in 3 teaspoons";
    NumberEndAt(s, 15, 16);
    assert s[..9] == "how many " && s[12..14] == "in";
    assert Words(s, 9, 11);
  }

  lemma TeaspoonsSlices()
    ensures var s := "how many ml in 3 teaspoons"; s[9..11] == "ml" && s[15..16] == "3" && s[17..] == "teaspoons"
  {
  }

  /** Pattern 3 reads 3 of "teaspoons" in "ml": the unit asked for comes
      first in the text. */
  lemma TeaspoonsRequest()
    ensures ParseRequest("how many ml in 3 teaspoons") == Some(Request(3.0, "teaspoons", "ml"))
    ensures Strip(ToLower("how many ml in 3 teaspoons")) == "how many ml in 3 teaspoons"
  {
    NormalText("how many ml in 3 teaspoons");
    TeaspoonsLayout();
    TeaspoonsSlices();
    HowManyLayoutRequest("how many ml in 3 teaspoons", 11, 16, "ml", "3", "teaspoons");
    SingleDigit('3');
  }

  // ---------------------------------------------------------------------
  // "1.5 cups to ml"

  lemma DecimalLayout()
    ensures ToLayout("1.5 cups to ml", 3, 8)
  {
    var s := "1.5 cups to ml";
    NumberEndDotted(s, 0, 1, 3);
    assert s[9..11] == "to";
    assert Words(s, 4, 8);
  }

  lemma DecimalSlices()
    ensures var s := "1.5 cups to ml"; s[..3] == "1.5" && s[4..8] == "cups" && s[12..] == "ml"
  {
  }

  /** The number token takes the decimal point and the digits after it. */
  lemma DecimalRequest()
    ensures ParseRequest("1.5 cups to ml") == Some(Request(1.5, "cups", "ml"))
    ensures Strip(ToLower("1.5 cups to ml")) == "1.5 cups to ml"
  {
    NormalText("1.5 cups to ml");
    DecimalLayout();
    DecimalSlices();
    ToLayoutRequest("1.5 cups to ml", 3, 8, "1.5", "cups", "ml");
    DigitDotDigit('1', '5');
  }

  // ---------------------------------------------------------------------
  // "350 fahrenheit to celsius"

  lemma FahrenheitWords()
    ensures Words("350 fahrenheit to celsius", 4, 14)
  {
  }

  lemma FahrenheitLayout()
    ensures ToLayout("350 fahrenheit to celsius", 3, 14)
  {
    var s := "350 fahrenheit to celsius";
    NumberEndAt(s, 0, 3);
    assert s[15..17] == "to";
    FahrenheitWords();
  }

  lemma FahrenheitSlices()
    ensures var s := "350 fahrenheit to celsius"; s[..3] == "350" && s[4..14] == "fahrenheit" && s[18..] == "celsius"
  {
  }

  lemma FahrenheitNumber()
    ensures ParseDecimal("350") == 350.0
  {
    ThreeDigits('3', '5', '0');
  }

  lemma FahrenheitRequest()
    ensures ParseRequest("350 fahrenheit to celsius") == Some(Request(350.0, "fahrenheit", "celsius"))
    ensures Strip(ToLower("350 fahrenheit to celsius")) == "350 fahrenheit to celsius"
  {
    NormalText("350 fahrenheit to celsius");
    FahrenheitLayout();
    FahrenheitSlices();
    FahrenheitNumber();
    ToLayoutRequest("350 fahrenheit to celsius", 3, 14, "350", "fahrenheit", "celsius");
  }

  // ---------------------------------------------------------------------
  // "2 blorg to ml"

  lemma BlorgLayout()
    ensures ToLayout("2 blorg to ml", 1, 7)
  {
    var s := "2 blorg to ml";
    NumberEndAt(s, 0, 1);
    assert s[8..10] == "to";
    assert Words(s, 2, 7);
  }

  lemma BlorgSlices()
    ensures var s := "2 blorg to ml"; s[..1] == "2" && s[2..7] == "blorg" && s[11..] == "ml"
  {
  }

  /** A request naming an unknown unit still parses: pattern 1 reads 2 of
      "blorg" in "ml". */
  lemma BlorgRequest()
    ensures ParseRequest("2 blorg to ml") == Some(Request(2.0, "blorg", "ml"))
    ensures Strip(ToLower("2 blorg to ml")) == "2 blorg to ml"
  {
    NormalText("2 blorg to ml");
    BlorgLayout();
    BlorgSlices();
    ToLayoutRequest("2 blorg to ml", 1, 7, "2", "blorg", "ml");
    SingleDigit('2');
  }
}
