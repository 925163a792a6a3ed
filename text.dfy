/** The parts of Python's `str` and `re` character handling that the core
    relies on, restricted to ASCII: `str.lower`, `str.strip`, and the
    classes `\d`, `\s`, `[a-z]` and `[a-z\s]`. */
module Text {

  /** Python's `str.isspace` (and `\s`) on ASCII: tab, line feed, vertical
      tab, form feed, carriage return, the four separators 0x1C..0x1F, and
      the space. */
  predicate IsSpace(c: char) {
    c == ' ' || ('\t' <= c <= '\r') || ('\U{1C}' <= c <= '\U{1F}')
  }

  predicate IsDigit(c: char) {
    '0' <= c <= '9'
  }

  predicate IsLetter(c: char) {
    'a' <= c <= 'z'
  }

  predicate IsUpper(c: char) {
    'A' <= c <= 'Z'
  }

  /** The character classes the three patterns use. */
  datatype CharClass = Digit | Space | Letter | Phrase  // Phrase is `[a-z\s]`

  predicate InClass(c: char, cls: CharClass) {
    match cls
    case Digit => IsDigit(c)
    case Space => IsSpace(c)
    case Letter => IsLetter(c)
    case Phrase => IsLetter(c) || IsSpace(c)
  }

  function LowerChar(c: char): (r: char)
    ensures !IsUpper(r)
    ensures IsUpper(c) ==> r as int == c as int + 32
    ensures !IsUpper(c) ==> r == c
  {
    if IsUpper(c) then (c as int + 32) as char else c
  }

  /** `str.lower` on ASCII letters; every other character is kept. */
  function ToLower(s: string): string {
    seq(|s|, i requires 0 <= i < |s| => LowerChar(s[i]))
  }

  predicate IsLower(s: string) {
    forall i :: 0 <= i < |s| ==> !IsUpper(s[i])
  }

  /** `str.lstrip()` with no argument. */
  function TrimStart(s: string): string {
    if |s| > 0 && IsSpace(s[0]) then TrimStart(s[1..]) else s
  }

  /** `str.rstrip()` with no argument. */
  function TrimEnd(s: string): string {
    if |s| > 0 && IsSpace(s[|s| - 1]) then TrimEnd(s[..|s| - 1]) else s
  }

  /** `str.strip()` with no argument. */
  function Strip(s: string): string {
    TrimEnd(TrimStart(s))
  }

  /** `lower` changes exactly the upper-case letters, one for one. */
  lemma ToLowerSpec(s: string)
    ensures |ToLower(s)| == |s|
    ensures forall i :: 0 <= i < |s| ==> ToLower(s)[i] == LowerChar(s[i])
  {
  }

  /** `lstrip` removes a prefix of whitespace and nothing more. */
  lemma {:induction false} TrimStartSpec(s: string)
    ensures |TrimStart(s)| <= |s| && TrimStart(s) == s[|s| - |TrimStart(s)|..]
    ensures TrimStart(s) == [] || !IsSpace(TrimStart(s)[0])
    ensures forall i :: 0 <= i < |s| - |TrimStart(s)| ==> IsSpace(s[i])
  {
    if |s| > 0 && IsSpace(s[0]) {
      TrimStartSpec(s[1..]);
    }
  }

  /** `rstrip` removes a suffix of whitespace and nothing more. */
  lemma {:induction false} TrimEndSpec(s: string)
    ensures |TrimEnd(s)| <= |s| && TrimEnd(s) == s[..|TrimEnd(s)|]
    ensures TrimEnd(s) == [] || !IsSpace(TrimEnd(s)[|TrimEnd(s)| - 1])
    ensures forall i :: |TrimEnd(s)| <= i < |s| ==> IsSpace(s[i])
  {
    if |s| > 0 && IsSpace(s[|s| - 1]) {
      TrimEndSpec(s[..|s| - 1]);
    }
  }

  /** A string `strip` leaves alone. */
  predicate IsStripped(s: string) {
    s == [] || (!IsSpace(s[0]) && !IsSpace(s[|s| - 1]))
  }

  /** Every character of s[i..j] is in the class. */
  predicate AllIn(s: string, i: nat, j: nat, cls: CharClass) {
    i <= j <= |s| && forall k :: i <= k < j ==> InClass(s[k], cls)
  }

  /** The end of the longest run of class characters that starts at i. */
  function RunEnd(s: string, i: nat, cls: CharClass): (r: nat)
    requires i <= |s|
    ensures i <= r <= |s|
    decreases |s| - i
  {
    if i < |s| && InClass(s[i], cls) then RunEnd(s, i + 1, cls) else i
  }

  /** RunEnd ends a run, and the character after it (if any) is outside
      the class. */
  lemma {:induction false} RunEndSpec(s: string, i: nat, cls: CharClass)
    requires i <= |s|
    ensures AllIn(s, i, RunEnd(s, i, cls), cls)
    ensures RunEnd(s, i, cls) == |s| || !InClass(s[RunEnd(s, i, cls)], cls)
    decreases |s| - i
  {
    if i < |s| && InClass(s[i], cls) {
      RunEndSpec(s, i + 1, cls);
    }
  }

  /** No run of class characters from i reaches past RunEnd. */
  lemma {:induction false} RunEndIsLongest(s: string, i: nat, j: nat, cls: CharClass)
    requires i <= |s| && AllIn(s, i, j, cls)
    ensures j <= RunEnd(s, i, cls)
    decreases |s| - i
  {
    if i < j {
      RunEndIsLongest(s, i + 1, j, cls);
    }
  }

  /** A run of class characters that stops at a character outside the class
      (or at the end) is the longest one. */
  lemma RunEndAt(s: string, i: nat, j: nat, cls: CharClass)
    requires AllIn(s, i, j, cls) && (j == |s| || !InClass(s[j], cls))
    ensures RunEnd(s, i, cls) == j
  {
    RunEndIsLongest(s, i, j, cls);
    RunEndSpec(s, i, cls);
  }

  /** A part of a run is a run. */
  lemma AllInSub(s: string, i: nat, j: nat, i': nat, j': nat, cls: CharClass)
    requires AllIn(s, i, j, cls) && i <= i' <= j' <= j
    ensures AllIn(s, i', j', cls)
  {
  }

  /** The literal w occurs in s at position i. */
  predicate LiteralAt(s: string, w: string, i: nat) {
    i + |w| <= |s| && s[i..i + |w|] == w
  }

  /** `strip` leaves no whitespace at either end. */
  lemma StripIsStripped(s: string)
    ensures IsStripped(Strip(s))
    ensures |Strip(s)| <= |s|
  {
    var t := TrimStart(s);
    var r := TrimEnd(t);
    TrimStartSpec(s);
    TrimEndSpec(t);
    if r != [] {
      assert r[0] == t[0];
    }
  }

  /** `strip` keeps a stripped string as it is. */
  lemma StripOfStripped(s: string)
    requires IsStripped(s)
    ensures Strip(s) == s
  {
  }

  /** `strip` only removes characters, so it keeps a string lower-case. */
  lemma StripKeepsLower(s: string)
    requires IsLower(s)
    ensures IsLower(Strip(s))
  {
    var t := TrimStart(s);
    TrimStartSpec(s);
    TrimEndSpec(t);
    assert IsLower(t) by {
      forall k | 0 <= k < |t| ensures !IsUpper(t[k]) {
        assert t[k] == s[|s| - |t| + k];
      }
    }
  }

  /** `lower` keeps a string without upper-case letters as it is. */
  lemma ToLowerOfLower(s: string)
    requires IsLower(s)
    ensures ToLower(s) == s
  {
  }

  lemma ToLowerIsLower(s: string)
    ensures IsLower(ToLower(s))
  {
  }
}
