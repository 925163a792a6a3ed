/** How the three patterns read requests of the shapes the test-suite of
    `convert_natural` uses, and the test requests themselves. */
module NaturalParsing {
  import opened Wrappers
  import opened Text
  import opened Patterns
  import opened Natural

  /** s[i..j] is words separated by single spaces, and no word after the
      first begins with 't' or 'i' (so none is a keyword). */
  predicate Words(s: string, i: nat, j: nat) {
    i < j <= |s| && IsLetter(s[i]) && IsLetter(s[j - 1]) &&
    forall x :: i <= x < j ==> InsideWords(s, x)
  }

  /** Words are letters and spaces, and are stripped. */
  lemma WordsPhrase(s: string, i: nat, j: nat)
    requires Words(s, i, j)
    ensures AllIn(s, i, j, Phrase)
    ensures Strip(s[i..j]) == s[i..j]
  {
    forall x | i <= x < j ensures InClass(s[x], Phrase) {
      assert InsideWords(s, x);
    }
    assert s[i..j][0] == s[i] && s[i..j][j - i - 1] == s[j - 1];
    StripOfStripped(s[i..j]);
  }

  /** A run of letters is a single word. */
  lemma LettersAreWords(s: string, i: nat, j: nat)
    requires i < j && AllIn(s, i, j, Letter)
    ensures Words(s, i, j)
  {
  }

  /** " to <word>" from e to the end. */
  predicate ToEnding(s: string, e: nat) {
    e + 4 < |s| && s[e] == ' ' && LiteralAt(s, "to", e + 1) && s[e + 3] == ' ' && AllIn(s, e + 4, |s|, Letter)
  }

  /** The words from j to e, then " to <word>": the lazy group runs
      exactly over the words. */
  lemma ToPhraseTail(s: string, shape: Shape, j: nat, e: nat)
    requires shape != InNumber && Words(s, j, e) && ToEnding(s, e)
    ensures LazyFrom(s, shape, j, j + 1) == Some(Lazy(j, e, KwTail(e + 1, 0, Greedy(e + 4, |s|))))
  {
    WordsPhrase(s, j, e);
    RunEndAt(s, j, |s|, Phrase);
    GreedyToEnd(s, e + 3, e + 4);
    KwTailAt(s, shape, e, e + 1, 0, Greedy(e + 4, |s|));
    LazyFromWords(s, shape, j, e, KwTail(e + 1, 0, Greedy(e + 4, |s|)));
  }

  /** The words from 9 to e, then " in <number> <word>". */
  lemma InPhraseTail(s: string, e: nat, p: nat)
    requires 9 < e && e + 4 < p && p + 1 < |s| && Words(s, 9, e) && s[e] == ' '
    requires LiteralAt(s, "in", e + 1) && s[e + 3] == ' '
    requires NumberEnd(s, e + 4) == Some(p) && s[p] == ' ' && AllIn(s, p + 1, |s|, Letter)
    ensures LazyFrom(s, InNumber, 9, 10) == Some(Lazy(9, e, NumTail(e + 1, e + 4, p, Greedy(p + 1, |s|))))
  {
    NumberEndToken(s, e + 4);
    WordsPhrase(s, 9, e);
    RunEndAt(s, 9, e + 4, Phrase);
    GreedyToEnd(s, p, p + 1);
    NumTailAt(s, e, e + 1, e + 4, p, Greedy(p + 1, |s|));
    LazyFromWords(s, InNumber, 9, e, NumTail(e + 1, e + 4, p, Greedy(p + 1, |s|)));
  }

  /** "<number> <words> to <word>" where the words run from p + 1 to e. */
  predicate ToLayout(s: string, p: nat, e: nat) {
    p + 1 < e && ToEnding(s, e) && NumberEnd(s, 0) == Some(p) && s[p] == ' ' && Words(s, p + 1, e)
  }

  /** Pattern 1 on that layout: the number, then the words up to " to ",
      then the rest. */
  lemma ToLayoutMatch(s: string, p: nat, e: nat)
    requires ToLayout(s, p, e)
    ensures Pattern1(s) == Some(NumberFirst(0, p, Lazy(p + 1, e, KwTail(e + 1, 0, Greedy(e + 4, |s|)))))
  {
    var z := Lazy(p + 1, e, KwTail(e + 1, 0, Greedy(e + 4, |s|)));
    ToPhraseTail(s, ToOrIn, p + 1, e);
    assert IsLetter(s[p + 1]);
    LazySearchAt(s, ToOrIn, p, z);
    assert LazySearch(s, ToOrIn, p) == Some(z);
  }

  /** "<number> <words> to <word>" asks for the number of the words in the
      word. */
  lemma ToLayoutRequest(s: string, p: nat, e: nat, n: string, a: string, b: string)
    requires ToLayout(s, p, e) && s[..p] == n && s[p + 1..e] == a && s[e + 4..] == b
    ensures ParseRequest(s) == Some(Request(ParseDecimal(n), a, b))
  {
    ToLayoutMatch(s, p, e);
    var m := NumberFirst(0, p, Lazy(p + 1, e, KwTail(e + 1, 0, Greedy(e + 4, |s|))));
    assert GroupsOf(s, m) == Groups(n, a, b);
    WordsPhrase(s, p + 1, e);
    LettersAreWords(s, e + 4, |s|);
    WordsPhrase(s, e + 4, |s|);
  }

  /** "convert <number> <words> to <word>", the number from ns to p. */
  predicate ConvertLayout(s: string, ns: nat, p: nat, e: nat) {
    LiteralAt(s, "convert", 0) && 7 < ns && AllIn(s, 7, ns, Space) &&
    p + 1 < e && ToEnding(s, e) && NumberEnd(s, ns) == Some(p) && s[p] == ' ' && Words(s, p + 1, e)
  }

  lemma ConvertLayoutMatch(s: string, ns: nat, p: nat, e: nat)
    requires ConvertLayout(s, ns, p, e)
    ensures Pattern1(s).None?
    ensures Pattern2(s) == Some(NumberFirst(ns, p, Lazy(p + 1, e, KwTail(e + 1, 0, Greedy(e + 4, |s|)))))
  {
    var z := Lazy(p + 1, e, KwTail(e + 1, 0, Greedy(e + 4, |s|)));
    WordedRequestsSkipPattern1(s);
    NumberEndToken(s, ns);
    RunEndAt(s, 7, ns, Space);
    ToPhraseTail(s, ToOnly, p + 1, e);
    assert IsLetter(s[p + 1]);
    LazySearchAt(s, ToOnly, p, z);
    assert LazySearch(s, ToOnly, p) == Some(z);
  }

  /** "convert <number> <words> to <word>" asks for the number of the
      words in the word. */
  lemma ConvertLayoutRequest(s: string, ns: nat, p: nat, e: nat, n: string, a: string, b: string)
    requires ConvertLayout(s, ns, p, e) && s[ns..p] == n && s[p + 1..e] == a && s[e + 4..] == b
    ensures ParseRequest(s) == Some(Request(ParseDecimal(n), a, b))
  {
    ConvertLayoutMatch(s, ns, p, e);
    var m := NumberFirst(ns, p, Lazy(p + 1, e, KwTail(e + 1, 0, Greedy(e + 4, |s|))));
    assert GroupsOf(s, m) == Groups(n, a, b);
    WordsPhrase(s, p + 1, e);
    LettersAreWords(s, e + 4, |s|);
    WordsPhrase(s, e + 4, |s|);
  }

  /** "how many <words> in <number> <word>": the words from 9 to e, the
      number from e + 4 to p. */
  predicate HowManyLayout(s: string, e: nat, p: nat) {
    LiteralAt(s, "how many ", 0) && 9 < e && e + 4 < p && p + 1 < |s| &&
    Words(s, 9, e) && s[e] == ' ' && LiteralAt(s, "in", e + 1) && s[e + 3] == ' ' &&
    NumberEnd(s, e + 4) == Some(p) && s[p] == ' ' && AllIn(s, p + 1, |s|, Letter)
  }

  lemma HowManyLayoutMatch(s: string, e: nat, p: nat)
    requires HowManyLayout(s, e, p)
    ensures Pattern1(s).None? && Pattern2(s).None?
    ensures Pattern3(s) == Some(HowMany(4, Lazy(9, e, NumTail(e + 1, e + 4, p, Greedy(p + 1, |s|)))))
  {
    assert LiteralAt(s, "how", 0) && LiteralAt(s, "many", 4) && s[3] == ' ' && s[8] == ' ';
    assert !LiteralAt(s, "convert", 0) by {
      assert s[0] != "convert"[0];
    }
    WordedRequestsSkipPattern1(s);
    RunEndAt(s, 3, 4, Space);
    var z := Lazy(9, e, NumTail(e + 1, e + 4, p, Greedy(p + 1, |s|)));
    InPhraseTail(s, e, p);
    assert IsLetter(s[9]);
    LazySearchAt(s, InNumber, 8, z);
    assert LazySearch(s, InNumber, 8) == Some(z);
  }

  /** "how many <words> in <number> <word>" asks for the number of the word
      in the words: the roles of the two phrases are swapped. */
  lemma HowManyLayoutRequest(s: string, e: nat, p: nat, a: string, n: string, b: string)
    requires HowManyLayout(s, e, p) && s[9..e] == a && s[e + 4..p] == n && s[p + 1..] == b
    ensures ParseRequest(s) == Some(Request(ParseDecimal(n), b, a))
  {
    HowManyLayoutMatch(s, e, p);
    var m := HowMany(4, Lazy(9, e, NumTail(e + 1, e + 4, p, Greedy(p + 1, |s|))));
    assert GroupsOf(s, m) == Groups(n, b, a);
    WordsPhrase(s, 9, e);
    LettersAreWords(s, p + 1, |s|);
    WordsPhrase(s, p + 1, |s|);
  }

  /** A lower-case, stripped request is its own normal form. */
  lemma NormalText(s: string)
    requires IsLower(s) && IsStripped(s)
    ensures Strip(ToLower(s)) == s
  {
    ToLowerOfLower(s);
    StripOfStripped(s);
  }

  /** Text that starts with neither a digit nor "convert" nor "how" matches
      no pattern. */
  lemma NoPatternStart(s: string)
    requires |s| > 0 && !IsDigit(s[0]) && !LiteralAt(s, "convert", 0) && !LiteralAt(s, "how", 0)
    ensures ParseRequest(s).None?
  {
  }
}
