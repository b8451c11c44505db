/**
 * The tokens of a Kakuro board file and how the loader reads them.
 *
 * A token is "." or "0" for a white cell, a clue "v/h" (v = sum of the run
 * going down, h = sum of the run going right, either part "-" for none), or
 * anything else for a black cell.
 */
module Tokens {

  type Token = string

  /** A white (assignable) cell. */
  predicate IsWhite(t: Token) {
    |t| == 1 && (t[0] == '.' || t[0] == '0')
  }

  /** A clue cell: every token that contains a slash. */
  predicate IsClue(t: Token) {
    '/' in t
  }

  lemma ClueIsNotWhite(t: Token)
    requires IsClue(t)
    ensures !IsWhite(t)
  {
  }

  // ---------------------------------------------------------------------
  // Splitting a clue at '/'
  // ---------------------------------------------------------------------

  /** The text before the first '/' of `t` (all of `t` when it has none). */
  function FieldBefore(t: string): (f: string)
    ensures '/' !in f
  {
    if t == [] || t[0] == '/' then [] else [t[0]] + FieldBefore(t[1..])
  }

  /** The text after the first '/' of `t` (empty when it has none). */
  function RestAfter(t: string): string {
    if t == [] then [] else if t[0] == '/' then t[1..] else RestAfter(t[1..])
  }

  /** Element 0 of Java's `t.split("/")`: the vertical sum. */
  function VerticalField(t: Token): string {
    FieldBefore(t)
  }

  /** Element 1 of Java's `t.split("/")` when it is not empty: the horizontal sum. */
  function HorizontalField(t: Token): string {
    FieldBefore(RestAfter(t))
  }

  // ---------------------------------------------------------------------
  // Integer.parseInt, for ASCII digits
  // ---------------------------------------------------------------------

  const MinInt: int := -0x8000_0000
  const MaxInt: int := 0x7fff_ffff

  predicate IsDigit(c: char) {
    '0' <= c <= '9'
  }

  predicate AllDigits(s: string) {
    forall k | 0 <= k < |s| :: IsDigit(s[k])
  }

  /** The value of a string of decimal digits, most significant first. */
  function DigitsValue(s: string): (v: nat)
    requires AllDigits(s)
  {
    if s == [] then 0
    else 10 * DigitsValue(s[..|s| - 1]) + (s[|s| - 1] as int - '0' as int)
  }

  /** An optional sign followed by at least one digit. */
  predicate IsDecimal(s: string) {
    if |s| > 0 && (s[0] == '-' || s[0] == '+') then |s| > 1 && AllDigits(s[1..])
    else |s| > 0 && AllDigits(s)
  }

  function DecimalValue(s: string): int
    requires IsDecimal(s)
  {
    if s[0] == '-' then -(DigitsValue(s[1..]) as int)
    else if s[0] == '+' then DigitsValue(s[1..])
    else DigitsValue(s)
  }

  /** What `Integer.parseInt` accepts without throwing: a decimal in the 32-bit range. */
  predicate IsIntLiteral(s: string) {
    IsDecimal(s) && MinInt <= DecimalValue(s) <= MaxInt
  }

  /** A part of a clue: "-" or an integer literal. */
  predicate IsSumField(s: string) {
    s == "-" || IsIntLiteral(s)
  }

  /**
   * "-" reads as 0 and an integer literal as its value. The loader throws on
   * any other field; this model never reads one, since the loader requires
   * well-formed tokens, and gives it 0.
   */
  function SumValue(s: string): int {
    if s == "-" || !IsIntLiteral(s) then 0 else DecimalValue(s)
  }

  /**
   * A token the loader reads without an exception: a clue must have both
   * parts, each "-" or an integer literal.
   */
  predicate WellFormedToken(t: Token) {
    IsClue(t) ==> IsSumField(VerticalField(t)) && IsSumField(HorizontalField(t))
  }

  /** The (vertical, horizontal) sums of a clue. */
  function ClueSums(t: Token): (int, int) {
    (SumValue(VerticalField(t)), SumValue(HorizontalField(t)))
  }

  // ---------------------------------------------------------------------
  // Lemmas
  // ---------------------------------------------------------------------

  /** Splitting `a + "/" + rest` at its first slash gives back `a` and `rest`. */
  lemma {:induction false} SplitAtFirstSlash(a: string, rest: string)
    requires '/' !in a
    ensures FieldBefore(a + "/" + rest) == a
    ensures RestAfter(a + "/" + rest) == rest
  {
    if a != [] {
      assert (a + "/" + rest)[1..] == a[1..] + "/" + rest;
      SplitAtFirstSlash(a[1..], rest);
    } else {
      assert a + "/" + rest == ['/'] + rest;
    }
  }

  /** A string without a slash is its own first field. */
  lemma {:induction false} FieldBeforeNoSlash(s: string)
    requires '/' !in s
    ensures FieldBefore(s) == s
  {
    if s != [] {
      assert s == [s[0]] + s[1..];
      FieldBeforeNoSlash(s[1..]);
    }
  }

  /**
   * The clue "v/h" is parsed into the sums of both parts, "-" being 0, and it
   * is well formed exactly when both parts are sum fields.
   */
  lemma ClueOfParts(v: string, h: string)
    requires '/' !in v && '/' !in h
    ensures IsClue(v + "/" + h)
    ensures WellFormedToken(v + "/" + h) <==> IsSumField(v) && IsSumField(h)
    ensures IsSumField(v) && IsSumField(h) ==>
              ClueSums(v + "/" + h) == (SumValue(v), SumValue(h))
  {
    assert (v + "/" + h)[|v|] == '/';
    SplitAtFirstSlash(v, h);
    FieldBeforeNoSlash(h);
  }
}
