/** The JavaScript string operations the game relies on: `toLowerCase`
    (ASCII letters only), `trim`, `includes`, `Array.prototype.join`,
    number-to-string conversion and the ordering of date strings. */
module Strings {

  /** The characters JavaScript's `trim` removes: WhiteSpace and LineTerminator. */
  predicate IsSpace(c: char) {
    || c == ' ' || c == '\t' || c == '\n' || c == '\r'
    || c == '\U{B}' || c == '\U{C}' || c == '\U{A0}' || c == '\U{1680}'
    || ('\U{2000}' <= c <= '\U{200A}')
    || c == '\U{2028}' || c == '\U{2029}' || c == '\U{202F}' || c == '\U{205F}'
    || c == '\U{3000}' || c == '\U{FEFF}'
  }

  predicate IsUpper(c: char) {
    'A' <= c <= 'Z'
  }

  function LowerChar(c: char): char {
    if IsUpper(c) then (c as int + 32) as char else c
  }

  /** `toLowerCase`, restricted to the ASCII letters. */
  function Lower(s: string): string {
    seq(|s|, i requires 0 <= i < |s| => LowerChar(s[i]))
  }

  /** A string that neither begins nor ends with white space. */
  predicate IsTrimmed(s: string) {
    s == [] || (!IsSpace(s[0]) && !IsSpace(s[|s| - 1]))
  }

  /** `trim`: `s` without its leading and trailing white space. */
  function Trim(s: string): string
    decreases |s|
  {
    if s != [] && IsSpace(s[0]) then Trim(s[1..])
    else if s != [] && IsSpace(s[|s| - 1]) then Trim(s[..|s| - 1])
    else s
  }

  /** The form in which every answer comparison is made. The source writes
      `toLowerCase().trim()`; `NormalizeIsLowerThenTrim` shows trimming first
      gives the same string, since lower-casing keeps white space. */
  function Normalize(s: string): string {
    Lower(Trim(s))
  }

  /** True when some element of `xs` normalizes equal to `a` (an `Array.prototype.some`). */
  predicate MatchesAny(xs: seq<string>, a: string) {
    exists x :: x in xs && Normalize(x) == Normalize(a)
  }

  /** `hay.includes(needle)`. */
  predicate Contains(hay: string, needle: string) {
    needle <= hay || (hay != [] && Contains(hay[1..], needle))
  }

  /** `xs.join(sep)`. */
  function Join(xs: seq<string>, sep: string): string
    decreases |xs|
  {
    if |xs| == 0 then ""
    else if |xs| == 1 then xs[0]
    else xs[0] + sep + Join(xs[1..], sep)
  }

  predicate IsDigit(c: char) {
    '0' <= c <= '9'
  }

  function DigitChar(d: nat): char
    requires d < 10
  {
    ('0' as int + d) as char
  }

  /** Decimal notation of a natural number, as a template literal prints it. */
  function NatToString(n: nat): (r: string)
    ensures |r| > 0
    ensures forall i :: 0 <= i < |r| ==> IsDigit(r[i])
    ensures (n == 0) == (r == "0")
  {
    if n < 10 then [DigitChar(n)] else NatToString(n / 10) + [DigitChar(n % 10)]
  }

  /** Decimal notation of an integer, with a leading minus sign when negative. */
  function IntToString(i: int): string {
    if i < 0 then "-" + NatToString(-i) else NatToString(i)
  }

  /** Lexicographic order on strings: the order of `YYYY-MM-DD` dates. */
  predicate LexLeq(a: string, b: string) {
    a == [] || (b != [] && (a[0] < b[0] || (a[0] == b[0] && LexLeq(a[1..], b[1..]))))
  }

  // ---------------------------------------------------------------------------
  // Properties

  /** Lower-casing never produces an upper-case letter and keeps white space. */
  lemma LowerCharFacts(c: char)
    ensures !IsUpper(LowerChar(c))
    ensures IsSpace(LowerChar(c)) == IsSpace(c)
  {
  }

  /** Lower-casing a string with no upper-case letter changes nothing. */
  lemma LowerNoUpper(s: string)
    requires forall c :: c in s ==> !IsUpper(c)
    ensures Lower(s) == s
  {
    assert forall i :: 0 <= i < |s| ==> s[i] in s;
  }

  /** Lower-casing twice is lower-casing once. */
  lemma LowerIdempotent(s: string)
    ensures Lower(Lower(s)) == Lower(s)
  {
    forall c | c in Lower(s)
      ensures !IsUpper(c)
    {
      var i :| 0 <= i < |Lower(s)| && Lower(s)[i] == c;
      LowerCharFacts(s[i]);
    }
    LowerNoUpper(Lower(s));
  }

  /** `trim` leaves a trimmed string made of characters of its input, empty
      exactly when the input is all white space, and changes nothing in a
      string that is already trimmed. */
  lemma {:induction false} TrimFacts(s: string)
    ensures IsTrimmed(Trim(s))
    ensures |Trim(s)| <= |s|
    ensures forall c :: c in Trim(s) ==> c in s
    ensures Trim(s) == [] <==> forall i :: 0 <= i < |s| ==> IsSpace(s[i])
    ensures IsTrimmed(s) ==> Trim(s) == s
    decreases |s|
  {
    if s != [] && IsSpace(s[0]) {
      TrimFacts(s[1..]);
      assert forall c :: c in s[1..] ==> c in s;
    } else if s != [] && IsSpace(s[|s| - 1]) {
      TrimFacts(s[..|s| - 1]);
      assert forall c :: c in s[..|s| - 1] ==> c in s;
    }
  }

  /** Trimming twice is trimming once. */
  lemma TrimIdempotent(s: string)
    ensures Trim(Trim(s)) == Trim(s)
  {
    TrimFacts(s);
    TrimFacts(Trim(s));
  }

  /** Lower-casing and trimming commute. */
  lemma {:induction false} LowerTrimCommute(s: string)
    ensures Lower(Trim(s)) == Trim(Lower(s))
    decreases |s|
  {
    var l := Lower(s);
    if s != [] && IsSpace(s[0]) {
      LowerCharFacts(s[0]);
      assert l[1..] == Lower(s[1..]);
      LowerTrimCommute(s[1..]);
    } else if s != [] && IsSpace(s[|s| - 1]) {
      LowerCharFacts(s[0]);
      LowerCharFacts(s[|s| - 1]);
      assert l[..|l| - 1] == Lower(s[..|s| - 1]);
      LowerTrimCommute(s[..|s| - 1]);
    } else if s != [] {
      LowerCharFacts(s[0]);
      LowerCharFacts(s[|s| - 1]);
    }
  }

  /** The normalized form is what `toLowerCase().trim()` computes. */
  lemma NormalizeIsLowerThenTrim(s: string)
    ensures Normalize(s) == Trim(Lower(s))
  {
    LowerTrimCommute(s);
  }

  /** Normalizing twice is normalizing once; this is why comparisons of
      normalized forms ignore case and surrounding white space. */
  lemma NormalizeIdempotent(s: string)
    ensures Normalize(Normalize(s)) == Normalize(s)
  {
    var t := Trim(s);
    TrimFacts(s);
    LowerTrimCommute(t);
    TrimFacts(Lower(t));
    if t != [] {
      LowerCharFacts(t[0]);
      LowerCharFacts(t[|t| - 1]);
    }
    assert IsTrimmed(Lower(t));
    LowerIdempotent(t);
  }

  /** A string normalizes to the empty string exactly when it is all white space. */
  lemma NormalizeBlank(s: string)
    ensures Normalize(s) == "" <==> forall i :: 0 <= i < |s| ==> IsSpace(s[i])
  {
    TrimFacts(s);
  }

  /** Regrouping a concatenation; a hint for loops that append to a string. */
  lemma AppendAssoc(a: string, b: string, c: string)
    ensures (a + b) + c == a + (b + c)
  {
  }

  /** Every string contains the empty string. */
  lemma ContainsEmpty(hay: string)
    ensures Contains(hay, "")
  {
  }

  /** `LexLeq` is reflexive. */
  lemma {:induction false} LexLeqRefl(a: string)
    ensures LexLeq(a, a)
  {
    if a != [] {
      LexLeqRefl(a[1..]);
    }
  }

  /** `LexLeq` is total, so any two dates are ordered one way or the other. */
  lemma {:induction false} LexLeqTotal(a: string, b: string)
    ensures LexLeq(a, b) || LexLeq(b, a)
  {
    if a != [] && b != [] && a[0] == b[0] {
      LexLeqTotal(a[1..], b[1..]);
    }
  }

  /** `LexLeq` is transitive. */
  lemma {:induction false} LexLeqTrans(a: string, b: string, c: string)
    requires LexLeq(a, b) && LexLeq(b, c)
    ensures LexLeq(a, c)
  {
    if a != [] && b != [] && c != [] && a[0] == b[0] && b[0] == c[0] {
      LexLeqTrans(a[1..], b[1..], c[1..]);
    }
  }
}
