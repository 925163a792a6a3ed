/** The replies of `convert_natural` to the requests of its test-suite. */
module NaturalExamples {
  import opened Wrappers
  import opened Text
  import opened Errors
  import opened Units
  import opened Converter
  import opened ConverterFacts
  import opened ConverterExamples
  import opened Natural
  import opened NaturalParsing
  import opened NaturalRequests

  /** "2 cups to ml" is 473.176 ml. */
  lemma CupsReply()
    ensures ConvertNatural("2 cups to ml") == Success(Reply(2.0, "cups", 473.176, "ml"))
  {
    CupsRequest();
    CupsToMilliliters();
    ReplyOf("2 cups to ml", Request(2.0, "cups", "ml"), 473.176);
  }

  /** "5 fluid ounce to ml" converts the two-word unit. */
  lemma FluidOunceReply()
    ensures ConvertNatural("5 fluid ounce to ml") == Success(Reply(5.0, "fluid ounce", 147.8675, "ml"))
  {
    FluidOunceRequest();
    VolumeEntries();
    assert UnitTypes("fluid ounce") == Some(Volume) && Conversions("fluid ounce") == Some(29.5735);
    ConvertLinearKeys(5.0, "fluid ounce", "ml");
    ReplyOf("5 fluid ounce to ml", Request(5.0, "fluid ounce", "ml"), 147.8675);
  }

  /** "convert 1 pound to grams" is 453.592 g. */
  lemma PoundReply()
    ensures ConvertNatural("convert 1 pound to grams") == Success(Reply(1.0, "pound", 453.592, "grams"))
  {
    PoundRequest();
    WeightEntries();
    ConvertLinearKeys(1.0, "pound", "grams");
    ReplyOf("convert 1 pound to grams", Request(1.0, "pound", "grams"), 453.592);
  }

  /** "how many ml in 3 teaspoons" is 3 teaspoons in ml. */
  lemma TeaspoonsReply()
    ensures ConvertNatural("how many ml in 3 teaspoons") == Success(Reply(3.0, "teaspoons", 14.78676, "ml"))
  {
    TeaspoonsRequest();
    VolumeEntries();
    assert UnitTypes("teaspoons") == Some(Volume) && Conversions("teaspoons") == Some(4.92892);
    ConvertLinearKeys(3.0, "teaspoons", "ml");
    ReplyOf("how many ml in 3 teaspoons", Request(3.0, "teaspoons", "ml"), 14.78676);
  }

  /** "1.5 cups to ml" keeps the fraction. */
  lemma DecimalReply()
    ensures ConvertNatural("1.5 cups to ml") == Success(Reply(1.5, "cups", 354.882, "ml"))
  {
    DecimalRequest();
    VolumeEntries();
    ConvertLinearKeys(1.5, "cups", "ml");
    ReplyOf("1.5 cups to ml", Request(1.5, "cups", "ml"), 354.882);
  }

  /** "350 fahrenheit to celsius" is 530/3 (about 176.67) degrees Celsius. */
  lemma FahrenheitReply()
    ensures ConvertNatural("350 fahrenheit to celsius") == Success(Reply(350.0, "fahrenheit", 530.0 / 3.0, "celsius"))
  {
    FahrenheitRequest();
    OtherEntries();
    ConvertTemperatureKeys(350.0, "fahrenheit", "celsius");
    ReplyOf("350 fahrenheit to celsius", Request(350.0, "fahrenheit", "celsius"), 530.0 / 3.0);
  }

  lemma BlorgIsUnknown()
    ensures Convert(2.0, "blorg", "ml") == Failure(UnknownUnit("blorg"))
  {
    OtherEntries();
    NormalizeUnitOfNormal("blorg");
  }

  /** An unknown unit in a well-formed request is reported as such. */
  lemma BlorgReply()
    ensures ConvertNatural("2 blorg to ml") == Failure(UnknownUnit("blorg"))
  {
    BlorgRequest();
    BlorgIsUnknown();
    ErrorOf("2 blorg to ml", Request(2.0, "blorg", "ml"), UnknownUnit("blorg"));
  }

  /** Requests with the same lower-case form get the same answer. */
  lemma SameLowerCase(a: string, b: string)
    requires ToLower(a) == ToLower(b)
    ensures ConvertNatural(a) == ConvertNatural(b)
  {
  }

  /** Upper case in the request makes no difference: "2 CUPS to ML" is
      473.176 ml too. */
  lemma UpperCaseReply()
    ensures ConvertNatural("2 CUPS to ML") == Success(Reply(2.0, "cups", 473.176, "ml"))
  {
    ToLowerSpec("2 CUPS to ML");
    ToLowerOfLower("2 cups to ml");
    assert ToLower("2 CUPS to ML") == "2 cups to ml";
    SameLowerCase("2 CUPS to ML", "2 cups to ml");
    CupsReply();
  }

  /** Text without a leading number or keyword is not understood, and the
      message carries the text. */
  lemma GibberishReply()
    ensures ConvertNatural("this is gibberish") == Failure(Unparsable("this is gibberish"))
  {
    assert "this is gibberish"[0] != "convert"[0] && "this is gibberish"[0] != "how"[0];
    NoPatternStart("this is gibberish");
    UnparsableOf("this is gibberish");
  }

  /** A request without its number is not understood. */
  lemma MissingValueReply()
    ensures ConvertNatural("cups to ml") == Failure(Unparsable("cups to ml"))
  {
    assert "cups to ml"[1] != "convert"[1] && "cups to ml"[0] != "how"[0];
    NoPatternStart("cups to ml");
    UnparsableOf("cups to ml");
  }
}
