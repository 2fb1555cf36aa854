/**
 * The lexical matchers of the expression evaluator: the integer and float
 * regular expressions, the identifier `Word`, the single-character operator
 * literals, and the whitespace that pyparsing skips before every one of them.
 *
 * Every literal language is stated on a window `[lo, hi)` of a string, without
 * reference to any matcher (IntIn, FloatIn, IdentIn), and every matcher is
 * specified against it: it consumes the LONGEST prefix of the input that lies
 * in that language, or nothing.
 */
module Lexer {
  import opened Wrappers

  predicate IsDigit(c: char) { '0' <= c <= '9' }

  predicate IsNonZeroDigit(c: char) { '1' <= c <= '9' }

  /** pyparsing's default whitespace set. */
  predicate IsWhite(c: char) { c == ' ' || c == '\t' || c == '\n' || c == '\r' }

  predicate IsIdentStart(c: char) { 'a' <= c <= 'z' || 'A' <= c <= 'Z' || c == '_' }

  predicate IsIdentBody(c: char) { IsIdentStart(c) || IsDigit(c) }

  /** The operator and punctuation literals `= + - * / ^ ( )`. */
  predicate IsOpChar(c: char) {
    c == '=' || c == '+' || c == '-' || c == '*' || c == '/' || c == '^' || c == '(' || c == ')'
  }

  /** The character classes the matchers scan runs of. */
  datatype CharClass = Digits | Blanks | IdentChars {
    predicate Has(c: char) {
      match this
      case Digits => IsDigit(c)
      case Blanks => IsWhite(c)
      case IdentChars => IsIdentBody(c)
    }
  }

  /** Every character of `s` in `[lo, hi)` is in class `p`. */
  predicate AllIn(s: string, p: CharClass, lo: nat, hi: nat)
    requires lo <= hi <= |s|
  {
    forall i :: lo <= i < hi ==> p.Has(s[i])
  }

  predicate AllDigits(t: string) { AllIn(t, Digits, 0, |t|) }

  /** The end of the run of `p` characters that starts at `i`, not going past `hi`. */
  function RunEnd(s: string, p: CharClass, i: nat, hi: nat): (n: nat)
    requires i <= hi <= |s|
    ensures i <= n <= hi
    ensures forall j :: i <= j < n ==> p.Has(s[j])
    ensures n == hi || !p.Has(s[n])
    decreases hi - i
  {
    if i == hi || !p.Has(s[i]) then i else RunEnd(s, p, i + 1, hi)
  }

  /** RunEnd is determined by the properties in its contract. */
  lemma RunEndUnique(s: string, p: CharClass, i: nat, hi: nat, n: nat)
    requires i <= n <= hi <= |s|
    requires forall j :: i <= j < n ==> p.Has(s[j])
    requires n == hi || !p.Has(s[n])
    ensures RunEnd(s, p, i, hi) == n
  {
  }

  /** Lowering the bound to `m` cuts the run at `m`. */
  lemma RunEndCap(s: string, p: CharClass, i: nat, m: nat, hi: nat)
    requires i <= m <= hi <= |s|
    ensures RunEnd(s, p, i, m) == if RunEnd(s, p, i, hi) < m then RunEnd(s, p, i, hi) else m
  {
    var n := RunEnd(s, p, i, hi);
    RunEndUnique(s, p, i, m, if n < m then n else m);
  }

  // ---------------------------------------------------------------------------
  // The languages, stated on the window [lo, hi) without reference to any matcher
  // ---------------------------------------------------------------------------

  /** `[1-9]\d*|0`: either the single digit 0 or a digit run with no leading zero. */
  predicate IntIn(s: string, lo: nat, hi: nat)
    requires lo <= hi <= |s|
  {
    (hi == lo + 1 && s[lo] == '0') || (lo < hi && IsNonZeroDigit(s[lo]) && AllIn(s, Digits, lo + 1, hi))
  }

  /** Where the digits of an exponent that starts at `lo` begin: after the letter and an optional sign. */
  function ExponentDigits(s: string, lo: nat): nat
    requires lo + 1 < |s|
  {
    if s[lo + 1] == '+' || s[lo + 1] == '-' then lo + 2 else lo + 1
  }

  /** `[eE][+-]?\d+` */
  predicate ExponentIn(s: string, lo: nat, hi: nat)
    requires lo <= hi <= |s|
  {
    lo + 2 <= hi && (s[lo] == 'e' || s[lo] == 'E') &&
    ExponentDigits(s, lo) < hi && AllIn(s, Digits, ExponentDigits(s, lo), hi)
  }

  /**
   * The part of a float after its point: `\d*` (or `\d+` when there is no
   * integer part) followed by an optional exponent. The exponent starts with
   * a letter, so the digits are a maximal run.
   */
  predicate FracExpIn(s: string, lo: nat, hi: nat, hasInt: bool)
    requires lo <= hi <= |s|
  {
    var f := RunEnd(s, Digits, lo, hi);
    (hasInt || lo < f) && (f == hi || ExponentIn(s, f, hi))
  }

  /**
   * `((([1-9]\d*|0)\.\d*)|(([1-9]\d*|0)?\.\d+))([eE][+-]?\d+)?`: an optional
   * integer part, a mandatory point, then the fraction digits and optional
   * exponent, where at least one of the two digit groups is non-empty. The
   * integer part is a maximal digit run (a point follows it), so it is located
   * by RunEnd.
   */
  predicate FloatIn(s: string, lo: nat, hi: nat)
    requires lo <= hi <= |s|
  {
    var k := RunEnd(s, Digits, lo, hi);
    k < hi && s[k] == '.' && (k == lo || IntIn(s, lo, k)) && FracExpIn(s, k + 1, hi, lo < k)
  }

  /** `Word(identchars, identbodychars)` */
  predicate IdentIn(s: string, lo: nat, hi: nat)
    requires lo <= hi <= |s|
  {
    lo < hi && IsIdentStart(s[lo]) && AllIn(s, IdentChars, lo + 1, hi)
  }

  /** The languages of whole strings. */
  predicate IsIntText(t: string) { IntIn(t, 0, |t|) }

  predicate IsFloatText(t: string) { FloatIn(t, 0, |t|) }

  predicate IsIdentText(t: string) { IdentIn(t, 0, |t|) }

  // ---------------------------------------------------------------------------
  // The languages depend only on the window's characters
  // ---------------------------------------------------------------------------

  /** `s` and `t` hold the same characters below `hi`. */
  predicate Agree(s: string, t: string, hi: nat) {
    hi <= |s| && hi <= |t| && forall i :: 0 <= i < hi ==> s[i] == t[i]
  }

  lemma RunEndAgree(s: string, t: string, p: CharClass, i: nat, hi: nat)
    requires i <= hi && Agree(s, t, hi)
    ensures RunEnd(s, p, i, hi) == RunEnd(t, p, i, hi)
  {
    RunEndUnique(t, p, i, hi, RunEnd(s, p, i, hi));
  }

  lemma IntAgree(s: string, t: string, lo: nat, hi: nat)
    requires lo <= hi && Agree(s, t, hi)
    ensures IntIn(s, lo, hi) == IntIn(t, lo, hi)
  {
  }

  lemma FracExpAgree(s: string, t: string, lo: nat, hi: nat, hasInt: bool)
    requires lo <= hi && Agree(s, t, hi)
    ensures FracExpIn(s, lo, hi, hasInt) == FracExpIn(t, lo, hi, hasInt)
  {
    RunEndAgree(s, t, Digits, lo, hi);
  }

  lemma FloatAgree(s: string, t: string, lo: nat, hi: nat)
    requires lo <= hi && Agree(s, t, hi)
    ensures FloatIn(s, lo, hi) == FloatIn(t, lo, hi)
  {
    RunEndAgree(s, t, Digits, lo, hi);
    var k := RunEnd(s, Digits, lo, hi);
    if k < hi {
      IntAgree(s, t, lo, k);
      FracExpAgree(s, t, k + 1, hi, lo < k);
    }
  }

  lemma IdentAgree(s: string, t: string, lo: nat, hi: nat)
    requires lo <= hi && Agree(s, t, hi)
    ensures IdentIn(s, lo, hi) == IdentIn(t, lo, hi)
  {
  }

  /** A literal at the front of `s` is the same literal as a string of its own. */
  lemma PrefixTexts(s: string, n: nat)
    requires n <= |s|
    ensures IsIntText(s[..n]) == IntIn(s, 0, n)
    ensures IsFloatText(s[..n]) == FloatIn(s, 0, n)
    ensures IsIdentText(s[..n]) == IdentIn(s, 0, n)
  {
    assert Agree(s[..n], s, n);
    IntAgree(s[..n], s, 0, n);
    FloatAgree(s[..n], s, 0, n);
    IdentAgree(s[..n], s, 0, n);
  }

  // ---------------------------------------------------------------------------
  // Matchers
  // ---------------------------------------------------------------------------

  /** Integer matcher: the length of the integer literal at the front of `s`, or 0. */
  function MatchInt(s: string): (n: nat)
    ensures n <= |s|
    ensures n == 0 || IntIn(s, 0, n)
    ensures forall m :: n < m <= |s| ==> !IntIn(s, 0, m)
    ensures n > 0 <==> |s| > 0 && IsDigit(s[0])
  {
    if |s| == 0 || !IsDigit(s[0]) then 0
    else if s[0] == '0' then 1
    else RunEnd(s, Digits, 1, |s|)
  }

  /** Exponent matcher: the end of `[eE][+-]?\d+` starting at `lo`, or `lo`. */
  function MatchExponent(s: string, lo: nat): (n: nat)
    requires lo <= |s|
    ensures lo <= n <= |s|
    ensures n == lo || ExponentIn(s, lo, n)
    ensures forall m :: n < m <= |s| ==> !ExponentIn(s, lo, m)
  {
    if lo + 2 <= |s| && (s[lo] == 'e' || s[lo] == 'E') then
      var d := ExponentDigits(s, lo);
      var e := RunEnd(s, Digits, d, |s|);
      if d < e then e else lo
    else lo
  }

  /** Where a fraction and exponent starting at `lo` may end: the window is in FracExpIn iff this holds. */
  lemma FracExpAt(s: string, lo: nat, m: nat, hasInt: bool)
    requires lo <= m <= |s|
    ensures var f := RunEnd(s, Digits, lo, |s|);
      FracExpIn(s, lo, m, hasInt) ==
        if m <= f then hasInt || lo < m else (hasInt || lo < f) && ExponentIn(s, f, m)
  {
    RunEndCap(s, Digits, lo, m, |s|);
  }

  /** Fraction-and-exponent matcher: the end of the longest window from `lo` in FracExpIn. */
  function MatchFracExp(s: string, lo: nat, hasInt: bool): (r: Option<nat>)
    requires lo <= |s|
    ensures r.Some? ==> lo <= r.value <= |s| && FracExpIn(s, lo, r.value, hasInt)
    ensures r.Some? ==> forall m :: r.value < m <= |s| ==> !FracExpIn(s, lo, m, hasInt)
    ensures r.None? ==> forall m :: lo <= m <= |s| ==> !FracExpIn(s, lo, m, hasInt)
  {
    var f := RunEnd(s, Digits, lo, |s|);
    forall m | lo <= m <= |s| ensures FracExpIn(s, lo, m, hasInt) ==
      if m <= f then hasInt || lo < m else (hasInt || lo < f) && ExponentIn(s, f, m)
    {
      FracExpAt(s, lo, m, hasInt);
    }
    if !hasInt && f == lo then None else Some(MatchExponent(s, f))
  }

  /** Where a float at the front of `s` may end: the prefix is in FloatIn iff this holds. */
  lemma FloatAt(s: string, m: nat)
    requires m <= |s|
    ensures var k := RunEnd(s, Digits, 0, |s|);
      FloatIn(s, 0, m) ==
        (k < m && s[k] == '.' && (k == 0 || IntIn(s, 0, k)) && FracExpIn(s, k + 1, m, 0 < k))
  {
    RunEndCap(s, Digits, 0, m, |s|);
  }

  /** Float matcher: the length of the float literal at the front of `s`, if any. */
  function MatchFloat(s: string): (r: Option<nat>)
    ensures r.Some? ==> 0 < r.value <= |s| && FloatIn(s, 0, r.value)
    ensures r.Some? ==> forall m :: r.value < m <= |s| ==> !FloatIn(s, 0, m)
    ensures r.None? ==> forall m :: 0 <= m <= |s| ==> !FloatIn(s, 0, m)
  {
    var k := RunEnd(s, Digits, 0, |s|);
    forall m | 0 <= m <= |s| ensures FloatIn(s, 0, m) ==
      (k < m && s[k] == '.' && (k == 0 || IntIn(s, 0, k)) && FracExpIn(s, k + 1, m, 0 < k))
    {
      FloatAt(s, m);
    }
    if k < |s| && s[k] == '.' && (k == 0 || IntIn(s, 0, k)) then MatchFracExp(s, k + 1, 0 < k)
    else None
  }

  /** Identifier matcher: the length of the identifier at the front of `s`, or 0. */
  function MatchIdent(s: string): (n: nat)
    ensures n <= |s|
    ensures n == 0 || IdentIn(s, 0, n)
    ensures forall m :: n < m <= |s| ==> !IdentIn(s, 0, m)
    ensures n > 0 <==> |s| > 0 && IsIdentStart(s[0])
  {
    if |s| == 0 || !IsIdentStart(s[0]) then 0 else RunEnd(s, IdentChars, 1, |s|)
  }

  function DigitValue(c: char): nat
    requires IsDigit(c)
  {
    (c - '0') as nat
  }

  /** The value of a digit string read in base ten, as `sympy.Integer` reads an integer literal. */
  function DigitsValue(d: string): nat
    requires AllDigits(d)
  {
    if |d| == 0 then 0 else 10 * DigitsValue(d[..|d| - 1]) + DigitValue(d[|d| - 1])
  }

  // ---------------------------------------------------------------------------
  // Tokens
  // ---------------------------------------------------------------------------

  /** A classified lexeme. Literal text is kept as written. */
  datatype Token =
    | IntLit(digits: string)
    | FloatLit(text: string)
    | Name(id: string)
    | Op(symbol: char)

  /** Characters that can appear in no token and are not whitespace. */
  predicate IsInert(c: char) {
    !IsWhite(c) && !IsIdentBody(c) && !IsOpChar(c) && c != '.'
  }

  /**
   * The token at the very front of `u`, and the text after it; None at the end
   * of the input or at a character no matcher accepts. Float is tried before
   * integer, as the `atom` rule does, so an integer token is produced only
   * where no float literal starts.
   */
  function LexAt(u: string): (r: Option<(Token, string)>)
    ensures r.Some? ==> |r.value.1| < |u| && r.value.1 == u[|u| - |r.value.1|..]
  {
    Pick(u, MatchFloat(u), MatchInt(u), MatchIdent(u))
  }

  /**
   * The ordered choice among the matchers' findings at the front of `u`:
   * float, then integer, then identifier, then an operator character.
   */
  function Pick(u: string, flt: Option<nat>, whole: nat, ident: nat): (r: Option<(Token, string)>)
    requires flt.Some? ==> 0 < flt.value <= |u|
    requires whole <= |u| && ident <= |u|
    ensures r.Some? ==> |r.value.1| < |u| && r.value.1 == u[|u| - |r.value.1|..]
  {
    if |u| == 0 then None
    else match flt
      case Some(n) => Some((FloatLit(u[..n]), u[n..]))
      case None =>
        if whole > 0 then Some((IntLit(u[..whole]), u[whole..]))
        else if ident > 0 then Some((Name(u[..ident]), u[ident..]))
        else if IsOpChar(u[0]) then Some((Op(u[0]), u[1..]))
        else None
  }

  /**
   * What LexAt yields, stated against the literal languages: a float token is
   * a float literal and holds a point; an integer token is produced only where
   * no float literal starts; a name is an identifier; lexing stops exactly at
   * the end of the input or at a character that starts no token.
   */
  lemma LexAtSound(u: string)
    ensures var r := LexAt(u);
      && (r.Some? && r.value.0.FloatLit? ==> IsFloatText(r.value.0.text) && '.' in r.value.0.text)
      && (r.Some? && r.value.0.IntLit? ==>
          IsIntText(r.value.0.digits) && forall m :: 0 <= m <= |u| ==> !IsFloatText(u[..m]))
      && (r.Some? && r.value.0.Name? ==> IsIdentText(r.value.0.id))
      && (r.Some? && r.value.0.Op? ==> IsOpChar(r.value.0.symbol))
      && (r.Some? ==> u[..|u| - |r.value.1|] == TokenText(r.value.0))
      && (|u| > 0 && IsInert(u[0]) ==> r.None?)
      && (r.None? ==> |u| == 0 || (!IsIdentBody(u[0]) && !IsOpChar(u[0])))
  {
    LexAtLiteral(u);
    LexAtText(u);
  }

  lemma LexAtLiteral(u: string)
    ensures var r := LexAt(u);
      && (r.Some? && r.value.0.FloatLit? ==> IsFloatText(r.value.0.text) && '.' in r.value.0.text)
      && (r.Some? && r.value.0.IntLit? ==>
          IsIntText(r.value.0.digits) && forall m :: 0 <= m <= |u| ==> !IsFloatText(u[..m]))
      && (r.Some? && r.value.0.Name? ==> IsIdentText(r.value.0.id))
  {
    if |u| > 0 {
      match MatchFloat(u)
      case Some(n) =>
        PrefixTexts(u, n);
        FloatHasPoint(u[..n]);
      case None =>
        forall m | 0 <= m <= |u| ensures !IsFloatText(u[..m]) {
          PrefixTexts(u, m);
        }
        PrefixTexts(u, MatchInt(u));
        PrefixTexts(u, MatchIdent(u));
    }
  }

  lemma LexAtText(u: string)
    ensures var r := LexAt(u);
      r.Some? ==> u[..|u| - |r.value.1|] == TokenText(r.value.0)
  {
  }

  /** The source text a token was read from. */
  function TokenText(t: Token): string {
    match t
    case IntLit(d) => d
    case FloatLit(x) => x
    case Name(n) => n
    case Op(c) => [c]
  }

  lemma FloatHasPoint(t: string)
    requires IsFloatText(t)
    ensures '.' in t
  {
    assert t[RunEnd(t, Digits, 0, |t|)] == '.';
  }

  /** `LexAt` after the whitespace pyparsing skips before every element. */
  function Lex(s: string): (r: Option<(Token, string)>)
    ensures r.Some? ==> |r.value.1| < |s| && r.value.1 == s[|s| - |r.value.1|..]
  {
    var w := RunEnd(s, Blanks, 0, |s|);
    var r := LexAt(s[w..]);
    if r.Some? then
      assert s[w..][|s[w..]| - |r.value.1|..] == s[|s| - |r.value.1|..];
      r
    else r
  }

  /** The tokens of `s`, up to the end or the first character that does not lex. */
  function Tokenize(s: string): seq<Token>
    decreases |s|
  {
    match Lex(s)
    case None => []
    case Some((t, rest)) => [t] + Tokenize(rest)
  }
}
