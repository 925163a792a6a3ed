/** The three regular expressions of `convert_natural`, each applied with
    `re.match` (anchored at the start of the text, not at its end):

      1. `(\d+\.?\d*)\s+([a-z\s]+?)\s+(?:to|in)\s+([a-z\s]+)`
      2. `convert\s+(\d+\.?\d*)\s+([a-z\s]+?)\s+to\s+([a-z\s]+)`
      3. `how\s+many\s+([a-z\s]+?)\s+in\s+(\d+\.?\d*)\s+([a-z\s]+)`

    A match is described by the positions where its pieces begin and end.
    For every piece the model gives the set of VALID placements (those the
    pattern accepts) and the order in which a backtracking matcher tries
    them (greedy: longest first; lazy: shortest first; alternatives: left
    first). The search functions return the first valid match in that
    order, which is the one `re.match` reports, and None exactly when no
    placement is valid. */
module Patterns {
  import opened Wrappers
  import opened Text

  // ---------------------------------------------------------------------
  // The number `\d+\.?\d*`

  /** s[i..j] is digits, at most one '.', then digits: `\d+\.?\d*`. */
  predicate NumberToken(s: string, i: nat, j: nat) {
    i < j <= |s| && IsDigit(s[i]) &&
    var a := RunEnd(s, i, Digit);
    j <= a || (a < j && s[a] == '.' && AllIn(s, a + 1, j, Digit))
  }

  /** The greedy end of the number token at i. Backtracking into `\d+`,
      `\.?` and `\d*` tries the ends in descending order, and this is the
      first of them. */
  function NumberEnd(s: string, i: nat): Option<nat>
    requires i <= |s|
  {
    if i < |s| && IsDigit(s[i]) then
      var a := RunEnd(s, i, Digit);
      if a < |s| && s[a] == '.' then Some(RunEnd(s, a + 1, Digit)) else Some(a)
    else None
  }

  /** NumberEnd finds a token whenever there is one, and the longest. */
  lemma NumberEndIsLongest(s: string, i: nat)
    requires i <= |s|
    ensures NumberEnd(s, i).Some? <==> exists j: nat :: NumberToken(s, i, j)
    ensures NumberEnd(s, i).Some? ==> NumberToken(s, i, NumberEnd(s, i).value)
    ensures forall j: nat :: NumberToken(s, i, j) ==>
      NumberEnd(s, i).Some? && j <= NumberEnd(s, i).value
  {
    if i < |s| && IsDigit(s[i]) {
      var a := RunEnd(s, i, Digit);
      RunEndSpec(s, i, Digit);
      if a < |s| && s[a] == '.' {
        RunEndSpec(s, a + 1, Digit);
      }
      assert NumberToken(s, i, a);
      forall j: nat | NumberToken(s, i, j) ensures j <= NumberEnd(s, i).value {
        if a < j {
          RunEndIsLongest(s, a + 1, j, Digit);
        }
      }
    }
  }

  lemma NumberEndToken(s: string, i: nat)
    requires i <= |s| && NumberEnd(s, i).Some?
    ensures NumberToken(s, i, NumberEnd(s, i).value)
  {
    var a := RunEnd(s, i, Digit);
    RunEndSpec(s, i, Digit);
    if a < |s| && s[a] == '.' {
      RunEndSpec(s, a + 1, Digit);
    }
  }

  /** A number token that is followed by whitespace ends where NumberEnd
      says: the token is never ambiguous in the three patterns, because
      each of them needs whitespace right after it. */
  lemma NumberEndBeforeSpace(s: string, i: nat, j: nat)
    requires NumberToken(s, i, j) && j < |s| && IsSpace(s[j])
    ensures NumberEnd(s, i) == Some(j)
  {
    var a := RunEnd(s, i, Digit);
    RunEndSpec(s, i, Digit);
    if a < j {
      RunEndAt(s, a + 1, j, Digit);
    }
  }

  /** The token has no sign and no exponent: it starts with a digit, and it
      is digits apart from at most one '.'. */
  lemma NumberTokenShape(s: string, i: nat, j: nat)
    requires NumberToken(s, i, j)
    ensures IsDigit(s[i])
    ensures forall k :: i <= k < j ==> IsDigit(s[k]) || s[k] == '.'
    ensures forall k, l :: i <= k < l < j && s[k] == '.' ==> s[l] != '.'
  {
    RunEndSpec(s, i, Digit);
  }

  // ---------------------------------------------------------------------
  // The last piece `\s+([a-z\s]+)`

  /** `\s+` from i up to start, then the group from start to end. */
  datatype Greedy = Greedy(start: nat, end: nat)

  predicate GreedyValid(s: string, i: nat, g: Greedy) {
    i < g.start && AllIn(s, i, g.start, Space) &&
    g.start < g.end && AllIn(s, g.start, g.end, Phrase)
  }

  /** Both parts are greedy: the longer `\s+` first, then the longer group. */
  predicate GreedyBefore(a: Greedy, b: Greedy) {
    a.start > b.start || (a.start == b.start && a.end > b.end)
  }

  /** The whitespace run is taken whole when a letter follows it; otherwise
      `\s+` gives back one character so that the group can match it. */
  function GreedyMatch(s: string, i: nat): Option<Greedy>
    requires i <= |s|
  {
    var m := RunEnd(s, i, Space);
    if m == i then None
    else if m < |s| && IsLetter(s[m]) then Some(Greedy(m, RunEnd(s, m, Phrase)))
    else if m - i >= 2 then Some(Greedy(m - 1, m))
    else None
  }

  /** What GreedyMatch returns is a valid placement. */
  lemma GreedyMatchValid(s: string, i: nat)
    requires i <= |s| && GreedyMatch(s, i).Some?
    ensures GreedyValid(s, i, GreedyMatch(s, i).value)
  {
    var m := RunEnd(s, i, Space);
    RunEndSpec(s, i, Space);
    if m < |s| && IsLetter(s[m]) {
      RunEndSpec(s, m, Phrase);
    } else {
      assert InClass(s[m - 1], Space);
    }
  }

  /** Every valid placement makes GreedyMatch succeed, and none comes
      before what it returns. */
  lemma GreedyMatchNotBefore(s: string, i: nat, g: Greedy)
    requires i <= |s| && GreedyValid(s, i, g)
    ensures GreedyMatch(s, i).Some?
    ensures !GreedyBefore(g, GreedyMatch(s, i).value)
  {
    var m := RunEnd(s, i, Space);
    RunEndSpec(s, i, Space);
    RunEndIsLongest(s, i, g.start, Space);
    RunEndIsLongest(s, g.start, g.end, Phrase);
    if g.start == m {
      assert InClass(s[m], Phrase);
    } else if !(m < |s| && IsLetter(s[m])) {
      assert InClass(s[m - 1], Space);
      RunEndAt(s, m - 1, m, Phrase);
    }
  }

  /** GreedyMatch returns the first valid placement, and None exactly when
      there is none. */
  lemma GreedyMatchFirst(s: string, i: nat)
    requires i <= |s|
    ensures GreedyMatch(s, i).Some? ==> GreedyValid(s, i, GreedyMatch(s, i).value)
    ensures forall g :: GreedyValid(s, i, g) ==>
      GreedyMatch(s, i).Some? && !GreedyBefore(g, GreedyMatch(s, i).value)
  {
    if GreedyMatch(s, i).Some? {
      GreedyMatchValid(s, i);
    }
    forall g | GreedyValid(s, i, g)
      ensures GreedyMatch(s, i).Some? && !GreedyBefore(g, GreedyMatch(s, i).value)
    {
      GreedyMatchNotBefore(s, i, g);
    }
  }

  // ---------------------------------------------------------------------
  // What follows the lazy group

  /** The three endings: `\s+(?:to|in)\s+…` (pattern 1), `\s+to\s+…`
      (pattern 2) and `\s+in\s+(\d+\.?\d*)\s+…` (pattern 3). */
  datatype Shape = ToOrIn | ToOnly | InNumber

  /** How many keyword alternatives the ending has. */
  function Alternatives(shape: Shape): nat {
    if shape == ToOrIn then 2 else 1
  }

  /** The keyword alternatives of each ending, in the order `re` tries them:
      `to|in`, `to`, and `in`. */
  function Keyword(shape: Shape, w: nat): string {
    if shape == InNumber || (shape == ToOrIn && w == 1) then "in" else "to"
  }

  /** The keyword alternative `kw` of the ending starts at kwStart; pattern 3
      also places its number. */
  datatype Tail =
    | KwTail(kwStart: nat, kw: nat, rest: Greedy)
    | NumTail(kwStart: nat, numStart: nat, numEnd: nat, rest: Greedy)

  predicate TailValid(s: string, shape: Shape, e: nat, t: Tail) {
    e < t.kwStart && AllIn(s, e, t.kwStart, Space) &&
    match t
    case KwTail(k, w, g) =>
      shape != InNumber && w < Alternatives(shape) &&
      LiteralAt(s, Keyword(shape, w), k) && GreedyValid(s, k + |Keyword(shape, w)|, g)
    case NumTail(k, ns, ne, g) =>
      shape == InNumber && LiteralAt(s, "in", k) &&
      k + 2 < ns && AllIn(s, k + 2, ns, Space) &&
      NumberToken(s, ns, ne) && GreedyValid(s, ne, g)
  }

  predicate TailBefore(a: Tail, b: Tail) {
    if a.kwStart != b.kwStart then a.kwStart > b.kwStart
    else match (a, b)
      case (KwTail(_, w1, g1), KwTail(_, w2, g2)) =>
        w1 < w2 || (w1 == w2 && GreedyBefore(g1, g2))
      case (NumTail(_, ns1, ne1, g1), NumTail(_, ns2, ne2, g2)) =>
        ns1 > ns2 || (ns1 == ns2 && (ne1 > ne2 || (ne1 == ne2 && GreedyBefore(g1, g2))))
      case _ => false
  }

  /** Tries the keyword alternatives from index w on, at position k. */
  function KwSearch(s: string, shape: Shape, k: nat, w: nat): Option<Tail>
    requires k <= |s|
    decreases Alternatives(shape) - w
  {
    if w >= Alternatives(shape) then None
    else
      var kw := Keyword(shape, w);
      if LiteralAt(s, kw, k) then
        match GreedyMatch(s, k + |kw|)
        case Some(g) => Some(KwTail(k, w, g))
        case None => KwSearch(s, shape, k, w + 1)
      else KwSearch(s, shape, k, w + 1)
  }

  function TailMatch(s: string, shape: Shape, e: nat): Option<Tail>
    requires e <= |s|
  {
    var k := RunEnd(s, e, Space);
    if k == e then None
    else if shape != InNumber then KwSearch(s, shape, k, 0)
    else if !LiteralAt(s, "in", k) then None
    else
      var ns := RunEnd(s, k + 2, Space);
      if ns == k + 2 then None
      else match NumberEnd(s, ns)
        case None => None
        case Some(ne) =>
          match GreedyMatch(s, ne)
          case None => None
          case Some(g) => Some(NumTail(k, ns, ne, g))
  }

  /** Every keyword is two letters. */
  lemma KeywordsAreWords(shape: Shape, w: nat)
    requires w < Alternatives(shape)
    ensures |Keyword(shape, w)| == 2 && IsLetter(Keyword(shape, w)[0])
  {
  }

  /** In patterns 1 and 2 the keyword follows the whole whitespace run, and
      GreedyMatch places the last piece no later than the placement does. */
  lemma KwTailPlaced(s: string, shape: Shape, e: nat, t: Tail)
    requires shape != InNumber && TailValid(s, shape, e, t)
    ensures t.KwTail? && t.kwStart == RunEnd(s, e, Space)
    ensures t.kwStart + |Keyword(shape, t.kw)| <= |s|
    ensures GreedyMatch(s, t.kwStart + |Keyword(shape, t.kw)|).Some?
    ensures !GreedyBefore(t.rest, GreedyMatch(s, t.kwStart + |Keyword(shape, t.kw)|).value)
  {
    KeywordsAreWords(shape, t.kw);
    assert s[t.kwStart] == Keyword(shape, t.kw)[0];
    RunEndAt(s, e, t.kwStart, Space);
    GreedyMatchNotBefore(s, t.kwStart + |Keyword(shape, t.kw)|, t.rest);
  }

  /** KwSearch stops at keyword w when it is present and the last piece
      matches after it. */
  lemma KwTake(s: string, shape: Shape, k: nat, w: nat)
    requires k <= |s| && w < Alternatives(shape) && LiteralAt(s, Keyword(shape, w), k)
    requires GreedyMatch(s, k + |Keyword(shape, w)|).Some?
    ensures KwSearch(s, shape, k, w) == Some(KwTail(k, w, GreedyMatch(s, k + |Keyword(shape, w)|).value))
  {
  }

  lemma KwTakeValid(s: string, shape: Shape, e: nat, k: nat, w: nat)
    requires shape != InNumber && e < k <= |s| && k == RunEnd(s, e, Space)
    requires w < Alternatives(shape) && LiteralAt(s, Keyword(shape, w), k)
    requires GreedyMatch(s, k + |Keyword(shape, w)|).Some?
    ensures TailValid(s, shape, e, KwTail(k, w, GreedyMatch(s, k + |Keyword(shape, w)|).value))
  {
    RunEndSpec(s, e, Space);
    GreedyMatchValid(s, k + |Keyword(shape, w)|);
  }

  /** Otherwise it goes on with the next alternative. */
  lemma KwSkip(s: string, shape: Shape, k: nat, w: nat)
    requires k <= |s| && w < Alternatives(shape)
    requires !LiteralAt(s, Keyword(shape, w), k) || GreedyMatch(s, k + |Keyword(shape, w)|).None?
    ensures KwSearch(s, shape, k, w) == KwSearch(s, shape, k, w + 1)
  {
  }

  lemma {:induction false} KwSearchValid(s: string, shape: Shape, e: nat, k: nat, w: nat)
    requires shape != InNumber && e < k <= |s| && k == RunEnd(s, e, Space)
    requires KwSearch(s, shape, k, w).Some?
    ensures TailValid(s, shape, e, KwSearch(s, shape, k, w).value)
    ensures KwSearch(s, shape, k, w).value.kw >= w
    decreases Alternatives(shape) - w
  {
    var kw := Keyword(shape, w);
    if LiteralAt(s, kw, k) && GreedyMatch(s, k + |kw|).Some? {
      KwTake(s, shape, k, w);
      KwTakeValid(s, shape, e, k, w);
    } else {
      KwSkip(s, shape, k, w);
      KwSearchValid(s, shape, e, k, w + 1);
    }
  }

  lemma {:induction false} KwSearchNotBefore(s: string, shape: Shape, e: nat, k: nat, w: nat, t: Tail)
    requires shape != InNumber && e < k <= |s| && k == RunEnd(s, e, Space)
    requires TailValid(s, shape, e, t) && t.kw >= w
    ensures KwSearch(s, shape, k, w).Some?
    ensures !TailBefore(t, KwSearch(s, shape, k, w).value)
    decreases Alternatives(shape) - w
  {
    KwTailPlaced(s, shape, e, t);
    if t.kw == w {
      KwTake(s, shape, k, w);
    } else {
      // the text at k is the other keyword
      assert s[k] == Keyword(shape, t.kw)[0];
      KwSkip(s, shape, k, w);
      KwSearchNotBefore(s, shape, e, k, w + 1, t);
    }
  }

  /** In pattern 3 the keyword and the number each follow a whole
      whitespace run, and the number is the greedy one. */
  lemma NumTailPlaced(s: string, e: nat, t: Tail)
    requires TailValid(s, InNumber, e, t)
    ensures t.NumTail? && t.kwStart == RunEnd(s, e, Space)
    ensures t.kwStart + 2 <= |s| && t.numStart == RunEnd(s, t.kwStart + 2, Space)
    ensures NumberEnd(s, t.numStart) == Some(t.numEnd)
  {
    assert s[t.kwStart] == "in"[0];
    RunEndAt(s, e, t.kwStart, Space);
    RunEndAt(s, t.kwStart + 2, t.numStart, Space);
    assert IsSpace(s[t.numEnd]);
    NumberEndBeforeSpace(s, t.numStart, t.numEnd);
  }

  /** What TailMatch returns is a valid ending. */
  lemma TailMatchValid(s: string, shape: Shape, e: nat)
    requires e <= |s| && TailMatch(s, shape, e).Some?
    ensures TailValid(s, shape, e, TailMatch(s, shape, e).value)
  {
    var k := RunEnd(s, e, Space);
    RunEndSpec(s, e, Space);
    if shape != InNumber {
      KwSearchValid(s, shape, e, k, 0);
    } else {
      var ns := RunEnd(s, k + 2, Space);
      RunEndSpec(s, k + 2, Space);
      NumberEndToken(s, ns);
      GreedyMatchValid(s, NumberEnd(s, ns).value);
    }
  }

  /** Every valid ending at e makes TailMatch succeed, and none comes before
      what it returns. */
  lemma TailMatchNotBefore(s: string, shape: Shape, e: nat, t: Tail)
    requires e <= |s| && TailValid(s, shape, e, t)
    ensures TailMatch(s, shape, e).Some?
    ensures !TailBefore(t, TailMatch(s, shape, e).value)
  {
    if shape != InNumber {
      KwTailPlaced(s, shape, e, t);
      KwSearchNotBefore(s, shape, e, RunEnd(s, e, Space), 0, t);
    } else {
      NumTailPlaced(s, e, t);
      GreedyMatchNotBefore(s, t.numEnd, t.rest);
    }
  }

  // ---------------------------------------------------------------------
  // `\s+([a-z\s]+?)` followed by an ending

  /** `\s+` from p up to start, the lazy group from start to end, then the
      ending. */
  datatype Lazy = Lazy(start: nat, end: nat, tail: Tail)

  predicate LazyValid(s: string, shape: Shape, p: nat, z: Lazy) {
    p < z.start && AllIn(s, p, z.start, Space) &&
    z.start < z.end && AllIn(s, z.start, z.end, Phrase) &&
    TailValid(s, shape, z.end, z.tail)
  }

  /** `\s+` is greedy (later start first), the group lazy (earlier end
      first). */
  predicate LazyBefore(a: Lazy, b: Lazy) {
    a.start > b.start ||
    (a.start == b.start && (a.end < b.end || (a.end == b.end && TailBefore(a.tail, b.tail))))
  }

  /** Tries the lazy group from j with ends e, e + 1, … */
  function LazyFrom(s: string, shape: Shape, j: nat, e: nat): Option<Lazy>
    requires j <= |s|
    decreases |s| + 1 - e
  {
    if e > RunEnd(s, j, Phrase) then None
    else match TailMatch(s, shape, e)
      case Some(t) => Some(Lazy(j, e, t))
      case None => LazyFrom(s, shape, j, e + 1)
  }

  /** Tries the group starts j, j - 1, …, p + 1 (the whitespace `\s+` gives
      back one character at a time). */
  function LazyMatch(s: string, shape: Shape, p: nat, j: nat): Option<Lazy>
    requires p <= j <= |s|
    decreases j
  {
    if j == p then None
    else match LazyFrom(s, shape, j, j + 1)
      case Some(z) => Some(z)
      case None => LazyMatch(s, shape, p, j - 1)
  }

  /** One step of LazyFrom: it stops at e when the ending matches there,
      and goes on with e + 1 when it does not. */
  lemma LazyFromStep(s: string, shape: Shape, j: nat, e: nat)
    requires j <= |s| && e <= RunEnd(s, j, Phrase)
    ensures TailMatch(s, shape, e).Some? ==>
      LazyFrom(s, shape, j, e) == Some(Lazy(j, e, TailMatch(s, shape, e).value))
    ensures TailMatch(s, shape, e).None? ==> LazyFrom(s, shape, j, e) == LazyFrom(s, shape, j, e + 1)
  {
  }

  /** One step of LazyMatch. */
  lemma LazyMatchStep(s: string, shape: Shape, p: nat, j: nat)
    requires p < j <= |s|
    ensures LazyFrom(s, shape, j, j + 1).Some? ==> LazyMatch(s, shape, p, j) == LazyFrom(s, shape, j, j + 1)
    ensures LazyFrom(s, shape, j, j + 1).None? ==> LazyMatch(s, shape, p, j) == LazyMatch(s, shape, p, j - 1)
  {
  }

  lemma {:induction false} LazyFromValid(s: string, shape: Shape, p: nat, j: nat, e: nat)
    requires p < j <= |s| && AllIn(s, p, j, Space) && j < e
    requires LazyFrom(s, shape, j, e).Some?
    ensures LazyValid(s, shape, p, LazyFrom(s, shape, j, e).value)
    ensures LazyFrom(s, shape, j, e).value.start == j
    decreases |s| + 1 - e
  {
    LazyFromStep(s, shape, j, e);
    if TailMatch(s, shape, e).Some? {
      TailMatchValid(s, shape, e);
      RunEndSpec(s, j, Phrase);
      AllInSub(s, j, RunEnd(s, j, Phrase), j, e, Phrase);
    } else {
      LazyFromValid(s, shape, p, j, e + 1);
    }
  }

  lemma {:induction false} LazyFromNotBefore(s: string, shape: Shape, p: nat, j: nat, e: nat, z: Lazy)
    requires j <= |s| && LazyValid(s, shape, p, z) && z.start == j && z.end >= e
    ensures LazyFrom(s, shape, j, e).Some?
    ensures !LazyBefore(z, LazyFrom(s, shape, j, e).value)
    decreases |s| + 1 - e
  {
    RunEndIsLongest(s, j, z.end, Phrase);
    LazyFromStep(s, shape, j, e);
    if TailMatch(s, shape, e).None? {
      if z.end == e {
        TailMatchNotBefore(s, shape, e, z.tail);
      }
      LazyFromNotBefore(s, shape, p, j, e + 1, z);
    } else if z.end == e {
      TailMatchNotBefore(s, shape, e, z.tail);
    }
  }

  lemma {:induction false} LazyMatchValid(s: string, shape: Shape, p: nat, j: nat)
    requires p <= j <= |s| && AllIn(s, p, j, Space)
    requires LazyMatch(s, shape, p, j).Some?
    ensures LazyValid(s, shape, p, LazyMatch(s, shape, p, j).value)
    decreases j
  {
    LazyMatchStep(s, shape, p, j);
    if LazyFrom(s, shape, j, j + 1).Some? {
      LazyFromValid(s, shape, p, j, j + 1);
    } else {
      AllInSub(s, p, j, p, j - 1, Space);
      LazyMatchValid(s, shape, p, j - 1);
    }
  }

  /** A valid placement whose group starts at j is not before what
      LazyMatch finds from j. */
  lemma LazyMatchHere(s: string, shape: Shape, p: nat, j: nat, z: Lazy)
    requires p <= j <= |s| && LazyValid(s, shape, p, z) && z.start == j
    ensures LazyMatch(s, shape, p, j).Some?
    ensures !LazyBefore(z, LazyMatch(s, shape, p, j).value)
  {
    LazyMatchStep(s, shape, p, j);
    LazyFromNotBefore(s, shape, p, j, j + 1, z);
  }

  /** A placement whose group starts before j is not before a placement
      found at j. */
  lemma LazyMatchEarlier(s: string, shape: Shape, p: nat, j: nat, z: Lazy)
    requires p <= j <= |s| && AllIn(s, p, j, Space)
    requires LazyValid(s, shape, p, z) && z.start < j && LazyFrom(s, shape, j, j + 1).Some?
    ensures LazyMatch(s, shape, p, j).Some?
    ensures !LazyBefore(z, LazyMatch(s, shape, p, j).value)
  {
    LazyMatchStep(s, shape, p, j);
    LazyFromValid(s, shape, p, j, j + 1);
  }

  lemma {:induction false} LazyMatchNotBefore(s: string, shape: Shape, p: nat, j: nat, z: Lazy)
    requires p <= j <= |s| && AllIn(s, p, j, Space)
    requires LazyValid(s, shape, p, z) && z.start <= j
    ensures LazyMatch(s, shape, p, j).Some?
    ensures !LazyBefore(z, LazyMatch(s, shape, p, j).value)
    decreases j
  {
    if z.start == j {
      LazyMatchHere(s, shape, p, j, z);
    } else if LazyFrom(s, shape, j, j + 1).Some? {
      LazyMatchEarlier(s, shape, p, j, z);
    } else {
      LazyMatchStep(s, shape, p, j);
      AllInSub(s, p, j, p, j - 1, Space);
      LazyMatchNotBefore(s, shape, p, j - 1, z);
    }
  }

  /** The search over the lazy group, started at the end of the whitespace
      run before it. */
  function LazySearch(s: string, shape: Shape, p: nat): Option<Lazy>
    requires p <= |s|
  {
    LazyMatch(s, shape, p, RunEnd(s, p, Space))
  }

  lemma LazySearchValid(s: string, shape: Shape, p: nat)
    requires p <= |s| && LazySearch(s, shape, p).Some?
    ensures LazyValid(s, shape, p, LazySearch(s, shape, p).value)
  {
    RunEndSpec(s, p, Space);
    LazyMatchValid(s, shape, p, RunEnd(s, p, Space));
  }

  lemma LazySearchNotBefore(s: string, shape: Shape, p: nat, z: Lazy)
    requires p <= |s| && LazyValid(s, shape, p, z)
    ensures LazySearch(s, shape, p).Some?
    ensures !LazyBefore(z, LazySearch(s, shape, p).value)
  {
    RunEndSpec(s, p, Space);
    RunEndIsLongest(s, p, z.start, Space);
    LazyMatchNotBefore(s, shape, p, RunEnd(s, p, Space), z);
  }

  // ---------------------------------------------------------------------
  // The three patterns

  /** Patterns 1 and 2 place the number (pattern 1 at the start) and then
      the lazy group with its ending; pattern 3 places "many" and then the
      lazy group with its ending, which holds the number. */
  datatype Match =
    | NumberFirst(numStart: nat, numEnd: nat, phrase: Lazy)
    | HowMany(manyStart: nat, phrase: Lazy)

  /** `(\d+\.?\d*)\s+([a-z\s]+?)\s+(?:to|in)\s+([a-z\s]+)` */
  predicate Pattern1Valid(s: string, m: Match) {
    m.NumberFirst? && m.numStart == 0 && NumberToken(s, 0, m.numEnd) &&
    LazyValid(s, ToOrIn, m.numEnd, m.phrase)
  }

  /** `convert\s+(\d+\.?\d*)\s+([a-z\s]+?)\s+to\s+([a-z\s]+)` */
  predicate Pattern2Valid(s: string, m: Match) {
    m.NumberFirst? && LiteralAt(s, "convert", 0) &&
    7 < m.numStart && AllIn(s, 7, m.numStart, Space) &&
    NumberToken(s, m.numStart, m.numEnd) && LazyValid(s, ToOnly, m.numEnd, m.phrase)
  }

  /** `how\s+many\s+([a-z\s]+?)\s+in\s+(\d+\.?\d*)\s+([a-z\s]+)` */
  predicate Pattern3Valid(s: string, m: Match) {
    m.HowMany? && LiteralAt(s, "how", 0) &&
    3 < m.manyStart && AllIn(s, 3, m.manyStart, Space) &&
    LiteralAt(s, "many", m.manyStart) && LazyValid(s, InNumber, m.manyStart + 4, m.phrase)
  }

  /** The backtracking order: every `\s+` and the number are greedy, then
      the lazy group's order. */
  predicate MatchBefore(a: Match, b: Match) {
    match (a, b)
    case (NumberFirst(ns1, ne1, z1), NumberFirst(ns2, ne2, z2)) =>
      ns1 > ns2 || (ns1 == ns2 && (ne1 > ne2 || (ne1 == ne2 && LazyBefore(z1, z2))))
    case (HowMany(ms1, z1), HowMany(ms2, z2)) =>
      ms1 > ms2 || (ms1 == ms2 && LazyBefore(z1, z2))
    case _ => false
  }

  function Pattern1(s: string): Option<Match> {
    match NumberEnd(s, 0)
    case None => None
    case Some(ne) =>
      match LazySearch(s, ToOrIn, ne)
      case None => None
      case Some(z) => Some(NumberFirst(0, ne, z))
  }

  function Pattern2(s: string): Option<Match> {
    if !LiteralAt(s, "convert", 0) then None
    else
      var ns := RunEnd(s, 7, Space);
      if ns == 7 then None
      else match NumberEnd(s, ns)
        case None => None
        case Some(ne) =>
          match LazySearch(s, ToOnly, ne)
          case None => None
          case Some(z) => Some(NumberFirst(ns, ne, z))
  }

  function Pattern3(s: string): Option<Match> {
    if !LiteralAt(s, "how", 0) then None
    else
      var ms := RunEnd(s, 3, Space);
      if ms == 3 || !LiteralAt(s, "many", ms) then None
      else match LazySearch(s, InNumber, ms + 4)
        case None => None
        case Some(z) => Some(HowMany(ms, z))
  }

  /** A number token followed by whitespace is the greedy one. */
  lemma NumberBeforeLazy(s: string, shape: Shape, i: nat, j: nat, z: Lazy)
    requires NumberToken(s, i, j) && LazyValid(s, shape, j, z)
    ensures NumberEnd(s, i) == Some(j)
  {
    assert IsSpace(s[j]);
    NumberEndBeforeSpace(s, i, j);
  }

  lemma Pattern1Sound(s: string)
    requires Pattern1(s).Some?
    ensures Pattern1Valid(s, Pattern1(s).value)
  {
    var ne := NumberEnd(s, 0).value;
    NumberEndToken(s, 0);
    LazySearchValid(s, ToOrIn, ne);
  }

  /** Every valid placement of pattern 1 makes Pattern1 succeed, and none
      comes before what it returns. */
  lemma Pattern1NotBefore(s: string, m: Match)
    requires Pattern1Valid(s, m)
    ensures Pattern1(s).Some?
    ensures !MatchBefore(m, Pattern1(s).value)
  {
    NumberBeforeLazy(s, ToOrIn, 0, m.numEnd, m.phrase);
    LazySearchNotBefore(s, ToOrIn, m.numEnd, m.phrase);
  }

  lemma Pattern2Sound(s: string)
    requires Pattern2(s).Some?
    ensures Pattern2Valid(s, Pattern2(s).value)
  {
    var ns := RunEnd(s, 7, Space);
    var ne := NumberEnd(s, ns).value;
    assert Pattern2(s) == Some(NumberFirst(ns, ne, LazySearch(s, ToOnly, ne).value));
    RunEndSpec(s, 7, Space);
    NumberEndToken(s, ns);
    LazySearchValid(s, ToOnly, NumberEnd(s, ns).value);
  }

  lemma Pattern2NotBefore(s: string, m: Match)
    requires Pattern2Valid(s, m)
    ensures Pattern2(s).Some?
    ensures !MatchBefore(m, Pattern2(s).value)
  {
    RunEndAt(s, 7, m.numStart, Space);
    NumberBeforeLazy(s, ToOnly, m.numStart, m.numEnd, m.phrase);
    LazySearchNotBefore(s, ToOnly, m.numEnd, m.phrase);
  }

  lemma Pattern3Sound(s: string)
    requires Pattern3(s).Some?
    ensures Pattern3Valid(s, Pattern3(s).value)
  {
    var ms := RunEnd(s, 3, Space);
    assert Pattern3(s) == Some(HowMany(ms, LazySearch(s, InNumber, ms + 4).value));
    RunEndSpec(s, 3, Space);
    LazySearchValid(s, InNumber, ms + 4);
  }

  lemma Pattern3NotBefore(s: string, m: Match)
    requires Pattern3Valid(s, m)
    ensures Pattern3(s).Some?
    ensures !MatchBefore(m, Pattern3(s).value)
  {
    assert s[m.manyStart] == "many"[0];
    RunEndAt(s, 3, m.manyStart, Space);
    LazySearchNotBefore(s, InNumber, m.manyStart + 4, m.phrase);
  }

  /** `re.match` semantics of pattern 1: Pattern1 returns a valid placement,
      the first in backtracking order, and it fails only when the text has
      no valid placement at all. */
  lemma Pattern1IsFirst(s: string)
    ensures Pattern1(s).Some? ==> Pattern1Valid(s, Pattern1(s).value)
    ensures forall m :: Pattern1Valid(s, m) ==> Pattern1(s).Some? && !MatchBefore(m, Pattern1(s).value)
  {
    if Pattern1(s).Some? {
      Pattern1Sound(s);
    }
    forall m | Pattern1Valid(s, m) ensures Pattern1(s).Some? && !MatchBefore(m, Pattern1(s).value) {
      Pattern1NotBefore(s, m);
    }
  }

  lemma Pattern2IsFirst(s: string)
    ensures Pattern2(s).Some? ==> Pattern2Valid(s, Pattern2(s).value)
    ensures forall m :: Pattern2Valid(s, m) ==> Pattern2(s).Some? && !MatchBefore(m, Pattern2(s).value)
  {
    if Pattern2(s).Some? {
      Pattern2Sound(s);
    }
    forall m | Pattern2Valid(s, m) ensures Pattern2(s).Some? && !MatchBefore(m, Pattern2(s).value) {
      Pattern2NotBefore(s, m);
    }
  }

  lemma Pattern3IsFirst(s: string)
    ensures Pattern3(s).Some? ==> Pattern3Valid(s, Pattern3(s).value)
    ensures forall m :: Pattern3Valid(s, m) ==> Pattern3(s).Some? && !MatchBefore(m, Pattern3(s).value)
  {
    if Pattern3(s).Some? {
      Pattern3Sound(s);
    }
    forall m | Pattern3Valid(s, m) ensures Pattern3(s).Some? && !MatchBefore(m, Pattern3(s).value) {
      Pattern3NotBefore(s, m);
    }
  }

  /** A request worded "convert …" or "how many …" can never match pattern
      1, which needs a digit first. */
  lemma WordedRequestsSkipPattern1(s: string)
    requires LiteralAt(s, "convert", 0) || LiteralAt(s, "how", 0)
    ensures Pattern1(s).None?
    ensures forall m :: !Pattern1Valid(s, m)
  {
    assert !IsDigit(s[0]) by {
      if LiteralAt(s, "convert", 0) {
        assert s[0] == "convert"[0];
      } else {
        assert s[0] == "how"[0];
      }
    }
  }

  /** No ending starts at a letter, since every ending starts with `\s+`. */
  lemma NoTailAtLetter(s: string, shape: Shape, e: nat)
    requires e < |s| && IsLetter(s[e])
    ensures TailMatch(s, shape, e).None?
  {
  }

  /** The lazy search steps over the letters of a word. */
  lemma {:induction false} LazyFromSkipWord(s: string, shape: Shape, j: nat, e: nat, e2: nat)
    requires j <= |s| && e <= e2 <= RunEnd(s, j, Phrase) && AllIn(s, e, e2, Letter)
    ensures LazyFrom(s, shape, j, e) == LazyFrom(s, shape, j, e2)
    decreases e2 - e
  {
    if e < e2 {
      NoTailAtLetter(s, shape, e);
      LazyFromStep(s, shape, j, e);
      LazyFromSkipWord(s, shape, j, e + 1, e2);
    }
  }

  /** A letter, or a space before a word that begins with neither
      keyword's first letter: no ending can start there. */
  predicate InsideWords(s: string, x: nat) {
    x < |s| &&
    (IsLetter(s[x]) || (IsSpace(s[x]) && x + 1 < |s| && IsLetter(s[x + 1]) && s[x + 1] != 't' && s[x + 1] != 'i'))
  }

  /** No ending starts inside words that no keyword begins. */
  lemma NoTailInsideWords(s: string, shape: Shape, x: nat)
    requires InsideWords(s, x)
    ensures TailMatch(s, shape, x).None?
  {
    if IsLetter(s[x]) {
      NoTailAtLetter(s, shape, x);
    } else {
      NoTailBeforeWord(s, shape, x, x + 1);
    }
  }

  /** The lazy search steps over words that no keyword begins. */
  lemma {:induction false} LazyFromSkipWords(s: string, shape: Shape, j: nat, e: nat, e2: nat)
    requires j <= |s| && e <= e2 <= RunEnd(s, j, Phrase)
    requires forall x :: e <= x < e2 ==> InsideWords(s, x)
    ensures LazyFrom(s, shape, j, e) == LazyFrom(s, shape, j, e2)
    decreases e2 - e
  {
    if e < e2 {
      NoTailInsideWords(s, shape, e);
      LazyFromStep(s, shape, j, e);
      LazyFromSkipWords(s, shape, j, e + 1, e2);
    }
  }

  /** The lazy group that starts at j ends at the first ending after the
      words from j to e. */
  lemma LazyFromWords(s: string, shape: Shape, j: nat, e: nat, t: Tail)
    requires j < e <= |s| && e <= RunEnd(s, j, Phrase) && forall x :: j + 1 <= x < e ==> InsideWords(s, x)
    requires TailMatch(s, shape, e) == Some(t)
    ensures LazyFrom(s, shape, j, j + 1) == Some(Lazy(j, e, t))
  {
    LazyFromSkipWords(s, shape, j, j + 1, e);
    LazyFromStep(s, shape, j, e);
  }

  /** After a single space, the lazy group starts right there. */
  lemma LazySearchAt(s: string, shape: Shape, p: nat, z: Lazy)
    requires p + 1 < |s| && IsSpace(s[p]) && !IsSpace(s[p + 1])
    requires LazyFrom(s, shape, p + 1, p + 2) == Some(z)
    ensures LazySearch(s, shape, p) == Some(z)
  {
    RunEndAt(s, p, p + 1, Space);
    LazyMatchStep(s, shape, p, p + 1);
  }

  /** The number ends at a character that is neither a digit nor a dot. */
  lemma NumberEndAt(s: string, i: nat, a: nat)
    requires i < a < |s| && AllIn(s, i, a, Digit) && !IsDigit(s[a]) && s[a] != '.'
    ensures NumberEnd(s, i) == Some(a)
  {
    RunEndAt(s, i, a, Digit);
  }

  /** The number with a decimal point at a ends where the digits after it
      end. */
  lemma NumberEndDotted(s: string, i: nat, a: nat, b: nat)
    requires i < a < b < |s| && AllIn(s, i, a, Digit) && s[a] == '.'
    requires AllIn(s, a + 1, b, Digit) && !IsDigit(s[b])
    ensures NumberEnd(s, i) == Some(b)
  {
    RunEndAt(s, i, a, Digit);
    RunEndAt(s, a + 1, b, Digit);
  }

  /** The last group runs to the end of a text that ends in letters and
      spaces. */
  lemma GreedyToEnd(s: string, i: nat, m: nat)
    requires i < m < |s| && AllIn(s, i, m, Space) && IsLetter(s[m]) && AllIn(s, m, |s|, Phrase)
    ensures GreedyMatch(s, i) == Some(Greedy(m, |s|))
  {
    RunEndAt(s, i, m, Space);
    RunEndAt(s, m, |s|, Phrase);
  }

  /** The keyword ending at e, with the first keyword alternative present
      at k (or the second one, when the first is absent). */
  lemma KwTailAt(s: string, shape: Shape, e: nat, k: nat, w: nat, g: Greedy)
    requires shape != InNumber && e < k < |s| && AllIn(s, e, k, Space) && !IsSpace(s[k])
    requires w < Alternatives(shape) && LiteralAt(s, Keyword(shape, w), k)
    requires w == 0 || !LiteralAt(s, Keyword(shape, 0), k)
    requires GreedyMatch(s, k + 2) == Some(g)
    ensures TailMatch(s, shape, e) == Some(KwTail(k, w, g))
  {
    RunEndAt(s, e, k, Space);
    KeywordsAreWords(shape, w);
    if w == 0 {
      KwTake(s, shape, k, 0);
    } else {
      KwSkip(s, shape, k, 0);
      KwTake(s, shape, k, 1);
    }
  }

  /** No ending starts before a word that begins with neither keyword's
      first letter. */
  lemma NoTailBeforeWord(s: string, shape: Shape, e: nat, k: nat)
    requires e < k < |s| && AllIn(s, e, k, Space) && !IsSpace(s[k]) && s[k] != 't' && s[k] != 'i'
    ensures TailMatch(s, shape, e).None?
  {
    RunEndAt(s, e, k, Space);
    if shape != InNumber {
      assert !LiteralAt(s, Keyword(shape, 0), k) by {
        assert s[k] != Keyword(shape, 0)[0];
      }
      KwSkip(s, shape, k, 0);
      if shape == ToOrIn {
        assert !LiteralAt(s, Keyword(shape, 1), k) by {
          assert s[k] != Keyword(shape, 1)[0];
        }
        KwSkip(s, shape, k, 1);
      }
    } else {
      assert !LiteralAt(s, "in", k) by {
        assert s[k] != "in"[0];
      }
    }
  }

  /** Pattern 3's ending at e: "in" at k, the number from ns to ne, then
      the last group. */
  lemma NumTailAt(s: string, e: nat, k: nat, ns: nat, ne: nat, g: Greedy)
    requires e < k && AllIn(s, e, k, Space) && LiteralAt(s, "in", k)
    requires k + 2 < ns < |s| && AllIn(s, k + 2, ns, Space) && !IsSpace(s[ns])
    requires NumberEnd(s, ns) == Some(ne) && GreedyMatch(s, ne) == Some(g)
    ensures TailMatch(s, InNumber, e) == Some(NumTail(k, ns, ne, g))
  {
    assert !IsSpace(s[k]) by {
      assert s[k] == "in"[0];
    }
    RunEndAt(s, e, k, Space);
    RunEndAt(s, k + 2, ns, Space);
  }

  /** s[i..j], or the empty string when the positions are out of order. */
  function Slice(s: string, i: nat, j: nat): (r: string)
    ensures i <= j <= |s| ==> r == s[i..j]
  {
    if i <= j <= |s| then s[i..j] else []
  }

  /** The groups of a match, by role: the number, the unit converted from
      and the unit converted to. Pattern 3 names the target unit first.
      (The positions of a valid match are always in order.) */
  datatype Groups = Groups(number: string, fromPhrase: string, toPhrase: string)

  function GroupsOf(s: string, m: Match): Groups {
    var z := m.phrase;
    var g := z.tail.rest;
    match m
    case NumberFirst(ns, ne, _) =>
      Groups(Slice(s, ns, ne), Slice(s, z.start, z.end), Slice(s, g.start, g.end))
    case HowMany(_, _) =>
      var number := if z.tail.NumTail? then Slice(s, z.tail.numStart, z.tail.numEnd) else [];
      Groups(number, Slice(s, g.start, g.end), Slice(s, z.start, z.end))
  }
}
