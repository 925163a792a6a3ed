/** `convert_natural` (lethimcook/natural.py): lower-case and strip the
    request, try the three patterns in order, read the number and the two
    unit phrases from the first that matches, and convert. */
module Natural {
  import opened Wrappers
  import opened Text
  import opened Errors
  import opened Units
  import opened Converter
  import opened Patterns

  // ---------------------------------------------------------------------
  // Numbers

  function DigitValue(c: char): nat {
    if IsDigit(c) then c as int - '0' as int else 0
  }

  /** The value of a string of decimal digits, most significant first. */
  function DigitsValue(d: string): nat {
    if d == [] then 0 else DigitsValue(d[..|d| - 1]) * 10 + DigitValue(d[|d| - 1])
  }

  function Pow10(n: nat): (r: nat)
    ensures r >= 1
  {
    if n == 0 then 1 else 10 * Pow10(n - 1)
  }

  /** `float(tok)` on a number token `\d+\.?\d*`: the digits before the
      point, plus the digits after it over the matching power of ten (the
      exact decimal, not its nearest double). */
  function ParseDecimal(tok: string): real {
    var a := RunEnd(tok, 0, Digit);
    if a < |tok| && tok[a] == '.' then
      DigitsValue(tok[..a]) as real + DigitsValue(tok[a + 1..]) as real / Pow10(|tok| - a - 1) as real
    else DigitsValue(tok) as real
  }

  function DigitChar(n: nat): char
    requires n < 10
  {
    ('0' as int + n) as char
  }

  /** `str(n)` for a non-negative int. */
  function NatText(n: nat): string
    decreases n
  {
    if n < 10 then [DigitChar(n)] else NatText(n / 10) + [DigitChar(n % 10)]
  }

  /** `str(n)` for an int. */
  function IntText(n: int): string {
    if n < 0 then "-" + NatText(-n) else NatText(n)
  }

  /** `_format_number`: a whole value is printed as the int it equals (no
      ".0"); any other value as `str(value)`, which is the parameter
      floatText. */
  function FormatNumber(value: real, floatText: real -> string): string {
    if value == value.Floor as real then IntText(value.Floor) else floatText(value)
  }

  /** `str(n)` is a string of digits that reads back as n. */
  lemma {:induction false} NatTextDigits(n: nat)
    ensures |NatText(n)| >= 1 && AllIn(NatText(n), 0, |NatText(n)|, Digit)
    ensures DigitsValue(NatText(n)) == n
    decreases n
  {
    if n >= 10 {
      NatTextDigits(n / 10);
      var t := NatText(n / 10);
      assert (t + [DigitChar(n % 10)])[..|t|] == t;
    }
  }

  /** A string of digits parses as the number it spells. */
  lemma ParseDigits(d: string)
    requires AllIn(d, 0, |d|, Digit)
    ensures ParseDecimal(d) == DigitsValue(d) as real
  {
    RunEndAt(d, 0, |d|, Digit);
  }

  /** A whole non-negative value is printed as a number token without a
      decimal point, which reads back as the value. */
  lemma FormatWholeNumber(value: real, floatText: real -> string)
    requires value >= 0.0 && value == value.Floor as real
    ensures '.' !in FormatNumber(value, floatText)
    ensures NumberToken(FormatNumber(value, floatText), 0, |FormatNumber(value, floatText)|)
    ensures ParseDecimal(FormatNumber(value, floatText)) == value
  {
    var t := NatText(value.Floor);
    NatTextDigits(value.Floor);
    ParseDigits(t);
    RunEndAt(t, 0, |t|, Digit);
    assert '.' !in t by {
      forall k | 0 <= k < |t| ensures t[k] != '.' {
        assert IsDigit(t[k]);
      }
    }
  }

  /** A whole negative value is printed with its sign. */
  lemma FormatNegativeWholeNumber(value: real, floatText: real -> string)
    requires value < 0.0 && value == value.Floor as real
    ensures FormatNumber(value, floatText)[0] == '-'
    ensures ParseDecimal(FormatNumber(value, floatText)[1..]) == -value
  {
    var t := NatText(-value.Floor);
    assert FormatNumber(value, floatText)[1..] == t;
    NatTextDigits(-value.Floor);
    ParseDigits(t);
  }

  // ---------------------------------------------------------------------
  // Requests

  /** What a matched request asks for: convert value fromUnit to toUnit. */
  datatype Request = Request(value: real, fromUnit: string, toUnit: string)

  /** `float(group)` for the number and `.strip()` for the two phrases. */
  function RequestOf(s: string, m: Match): Request {
    var g := GroupsOf(s, m);
    Request(ParseDecimal(g.number), Strip(g.fromPhrase), Strip(g.toPhrase))
  }

  /** Pattern 1, then pattern 2, then pattern 3. */
  function ParseRequest(s: string): Option<Request> {
    match Pattern1(s)
    case Some(m) => Some(RequestOf(s, m))
    case None =>
      match Pattern2(s)
      case Some(m) => Some(RequestOf(s, m))
      case None =>
        match Pattern3(s)
        case Some(m) => Some(RequestOf(s, m))
        case None => None
  }

  /** The request text has a valid placement of none of the patterns. */
  ghost predicate NoPattern(s: string) {
    forall m :: !Pattern1Valid(s, m) && !Pattern2Valid(s, m) && !Pattern3Valid(s, m)
  }

  /** A later pattern is only consulted when no earlier one matches at all;
      the request comes from the match the pattern's search returns (which
      Pattern1IsFirst, Pattern2IsFirst and Pattern3IsFirst characterise);
      and there is no request exactly when no pattern matches. */
  lemma ParseRequestTriesInOrder(s: string)
    ensures (exists m :: Pattern1Valid(s, m)) ==>
              Pattern1(s).Some? && ParseRequest(s) == Some(RequestOf(s, Pattern1(s).value))
    ensures (forall m :: !Pattern1Valid(s, m)) && (exists m :: Pattern2Valid(s, m)) ==>
              Pattern2(s).Some? && ParseRequest(s) == Some(RequestOf(s, Pattern2(s).value))
    ensures (forall m :: !Pattern1Valid(s, m) && !Pattern2Valid(s, m)) && (exists m :: Pattern3Valid(s, m)) ==>
              Pattern3(s).Some? && ParseRequest(s) == Some(RequestOf(s, Pattern3(s).value))
    ensures ParseRequest(s).None? <==> NoPattern(s)
  {
    Pattern1IsFirst(s);
    Pattern2IsFirst(s);
    Pattern3IsFirst(s);
  }

  // ---------------------------------------------------------------------
  // The conversion

  /** A successful request: value fromUnit is result toUnit. */
  datatype Reply = Reply(value: real, fromUnit: string, result: real, toUnit: string)

  /** `convert_natural` up to the final formatting (see Render). */
  function ConvertNatural(text: string): Result<Reply, Error> {
    var s := Strip(ToLower(text));
    match ParseRequest(s)
    case None => Failure(Unparsable(s))
    case Some(q) =>
      match Convert(q.value, q.fromUnit, q.toUnit)
      case Failure(e) => Failure(e)
      case Success(v) => Success(Reply(q.value, q.fromUnit, v, q.toUnit))
  }

  /** The returned text `"<value> <from> = <result> <to>"`, with `str` of a
      fractional value (floatText) and the `.2f` rendering of the result
      (fixed2) as parameters. */
  function Render(r: Reply, floatText: real -> string, fixed2: real -> string): string {
    FormatNumber(r.value, floatText) + " " + r.fromUnit + " = " + fixed2(r.result) + " " + r.toUnit
  }

  /** The request is lower-cased and stripped before anything else, so a
      request and its normal form give the same answer. */
  lemma ConvertNaturalNormalizes(text: string)
    ensures ConvertNatural(text) == ConvertNatural(Strip(ToLower(text)))
  {
    NormalizeUnitIdempotent(text);
  }

  /** Both unit phrases of a request are stripped. */
  lemma RequestStripped(s: string, m: Match)
    ensures IsStripped(RequestOf(s, m).fromUnit) && IsStripped(RequestOf(s, m).toUnit)
  {
    StripIsStripped(GroupsOf(s, m).fromPhrase);
    StripIsStripped(GroupsOf(s, m).toPhrase);
  }

  /** A reply carries the request the patterns read from the normalized
      text, names its units stripped, and its result is the same amount as
      the requested value, in the sense of Convert. */
  lemma ConvertNaturalSucceeds(text: string)
    requires ConvertNatural(text).Success?
    ensures var r := ConvertNatural(text).value;
            ParseRequest(Strip(ToLower(text))) == Some(Request(r.value, r.fromUnit, r.toUnit))
    ensures IsStripped(ConvertNatural(text).value.fromUnit)
    ensures IsStripped(ConvertNatural(text).value.toUnit)
    ensures var r := ConvertNatural(text).value;
            Convert(r.value, r.fromUnit, r.toUnit) == Success(r.result) &&
            Quantity(r.result, NormalizeUnit(r.toUnit)) == Quantity(r.value, NormalizeUnit(r.fromUnit))
  {
    var s := Strip(ToLower(text));
    if Pattern1(s).Some? {
      RequestStripped(s, Pattern1(s).value);
    } else if Pattern2(s).Some? {
      RequestStripped(s, Pattern2(s).value);
    } else {
      RequestStripped(s, Pattern3(s).value);
    }
  }

  /** A request that parses and converts is answered with the parsed
      number and units and the converted value. */
  lemma ReplyOf(text: string, q: Request, v: real)
    requires ParseRequest(Strip(ToLower(text))) == Some(q)
    requires Convert(q.value, q.fromUnit, q.toUnit) == Success(v)
    ensures ConvertNatural(text) == Success(Reply(q.value, q.fromUnit, v, q.toUnit))
  {
  }

  /** A request that parses but does not convert fails with the error of
      `convert`, passed on unchanged. */
  lemma ErrorOf(text: string, q: Request, e: Error)
    requires ParseRequest(Strip(ToLower(text))) == Some(q)
    requires Convert(q.value, q.fromUnit, q.toUnit) == Failure(e)
    ensures ConvertNatural(text) == Failure(e)
  {
  }

  /** A normalized request that matches no pattern is unparsable, and the
      message carries it. */
  lemma UnparsableOf(text: string)
    requires Strip(ToLower(text)) == text && ParseRequest(text).None?
    ensures ConvertNatural(text) == Failure(Unparsable(text))
  {
  }

  /** The request is unparsable exactly when no pattern matches the
      normalized text, and the message then carries that text. */
  lemma ConvertNaturalUnparsable(text: string)
    ensures ConvertNatural(text) == Failure(Unparsable(Strip(ToLower(text)))) <==> NoPattern(Strip(ToLower(text)))
  {
    ParseRequestTriesInOrder(Strip(ToLower(text)));
  }
}
