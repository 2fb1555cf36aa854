/**
 * Properties of the lexical layer: what each literal rule accepts and how
 * much text it consumes, and the fact that lexing never looks past a
 * character no token can contain.
 */
module LexerFacts {
  import opened Wrappers
  import opened Lexer

  /** The characters a float literal is written with. */
  predicate IsFloatChar(c: char) {
    IsDigit(c) || c == '.' || c == 'e' || c == 'E' || c == '+' || c == '-'
  }

  /** A float literal is written with digits, the point, an exponent letter and a sign only. */
  lemma FloatChars(s: string, lo: nat, hi: nat)
    requires lo <= hi <= |s|
    ensures FloatIn(s, lo, hi) ==> forall i :: lo <= i < hi ==> IsFloatChar(s[i])
  {
    if FloatIn(s, lo, hi) {
      var k := RunEnd(s, Digits, lo, hi);
      var f := RunEnd(s, Digits, k + 1, hi);
      forall i | lo <= i < hi ensures IsFloatChar(s[i]) {
        if f < hi && f + 2 <= i {
          assert ExponentDigits(s, f) <= i;
        }
      }
    }
  }

  /** The literal classes the matchers recognise. */
  datatype Literal = IntLiteral | FloatLiteral | IdentLiteral {
    predicate In(s: string, lo: nat, hi: nat)
      requires lo <= hi <= |s|
    {
      match this
      case IntLiteral => IntIn(s, lo, hi)
      case FloatLiteral => FloatIn(s, lo, hi)
      case IdentLiteral => IdentIn(s, lo, hi)
    }
  }

  /** An inert character ends every literal before it. */
  lemma InertEndsLiteral(s: string, lit: Literal, m: nat, j: nat)
    requires j < m <= |s| && IsInert(s[j])
    ensures !lit.In(s, 0, m)
  {
    FloatChars(s, 0, m);
  }

  lemma LiteralAgree(s: string, t: string, lit: Literal, hi: nat)
    requires Agree(s, t, hi)
    ensures lit.In(s, 0, hi) == lit.In(t, 0, hi)
  {
    IntAgree(s, t, 0, hi);
    FloatAgree(s, t, 0, hi);
    IdentAgree(s, t, 0, hi);
  }

  /** The integer matcher's result as an optional length. */
  function IntPrefix(s: string): Option<nat>
  {
    var n := MatchInt(s);
    if n == 0 then None else Some(n)
  }

  function IdentPrefix(s: string): Option<nat>
  {
    var n := MatchIdent(s);
    if n == 0 then None else Some(n)
  }

  /** `a` is the length of the longest prefix of `s` that is a `lit` literal. */
  predicate IsLongest(s: string, lit: Literal, a: Option<nat>) {
    match a
    case Some(n) => n <= |s| && lit.In(s, 0, n) && forall m :: n < m <= |s| ==> !lit.In(s, 0, m)
    case None => forall m :: 0 <= m <= |s| ==> !lit.In(s, 0, m)
  }

  /** The longest literal prefix does not change when text that no literal reaches is appended. */
  lemma LongestStable(u: string, q: string, lit: Literal, a: Option<nat>, b: Option<nat>)
    requires IsLongest(u, lit, a) && IsLongest(u + q, lit, b)
    requires forall m :: |u| < m <= |u + q| ==> !lit.In(u + q, 0, m)
    ensures a == b
  {
    forall m | 0 <= m <= |u| ensures lit.In(u + q, 0, m) == lit.In(u, 0, m) {
      LiteralAgree(u + q, u, lit, m);
    }
  }

  /** No literal of `s` extends past an inert character at `j`. */
  lemma NoLiteralPast(s: string, lit: Literal, j: nat)
    requires j < |s| && IsInert(s[j])
    ensures forall m :: j < m <= |s| ==> !lit.In(s, 0, m)
  {
    forall m | j < m <= |s| ensures !lit.In(s, 0, m) {
      InertEndsLiteral(s, lit, m, j);
    }
  }

  /** A literal class's longest match in `u` survives appending text that starts inert. */
  lemma StableUnder(u: string, q: string, lit: Literal, a: Option<nat>, b: Option<nat>)
    requires |q| > 0 && IsInert(q[0])
    requires IsLongest(u, lit, a) && IsLongest(u + q, lit, b)
    ensures a == b
  {
    assert (u + q)[|u|] == q[0];
    NoLiteralPast(u + q, lit, |u|);
    LongestStable(u, q, lit, a, b);
  }

  lemma FloatMatchStable(u: string, q: string)
    requires |q| > 0 && IsInert(q[0])
    ensures MatchFloat(u + q) == MatchFloat(u)
  {
    StableUnder(u, q, FloatLiteral, MatchFloat(u), MatchFloat(u + q));
  }

  lemma IntMatchStable(u: string, q: string)
    requires |q| > 0 && IsInert(q[0])
    ensures MatchInt(u + q) == MatchInt(u)
  {
    StableUnder(u, q, IntLiteral, IntPrefix(u), IntPrefix(u + q));
  }

  lemma IdentMatchStable(u: string, q: string)
    requires |q| > 0 && IsInert(q[0])
    ensures MatchIdent(u + q) == MatchIdent(u)
  {
    StableUnder(u, q, IdentLiteral, IdentPrefix(u), IdentPrefix(u + q));
  }

  /** A run at the front of `u` stops where it did once a character outside the class is appended. */
  lemma RunEndStable(u: string, q: string, p: CharClass)
    requires |q| > 0 && !p.Has(q[0])
    ensures RunEnd(u + q, p, 0, |u + q|) == RunEnd(u, p, 0, |u|)
  {
    RunEndUnique(u + q, p, 0, |u + q|, RunEnd(u, p, 0, |u|));
  }

  lemma LexAtStable(u: string, q: string)
    requires |u| > 0 && |q| > 0 && IsInert(q[0])
    ensures LexAt(u + q) == match LexAt(u)
      case None => None
      case Some((t, r)) => Some((t, r + q))
  {
    FloatMatchStable(u, q);
    IntMatchStable(u, q);
    IdentMatchStable(u, q);
    PickStable(u, q, MatchFloat(u), MatchInt(u), MatchIdent(u));
  }

  lemma PickStable(u: string, q: string, flt: Option<nat>, whole: nat, ident: nat)
    requires |u| > 0
    requires flt.Some? ==> 0 < flt.value <= |u|
    requires whole <= |u| && ident <= |u|
    ensures Pick(u + q, flt, whole, ident) == match Pick(u, flt, whole, ident)
      case None => None
      case Some((t, r)) => Some((t, r + q))
  {
    var n := match flt case Some(n) => n case None => if whole > 0 then whole
      else if ident > 0 then ident else 1;
    assert (u + q)[0] == u[0];
    assert (u + q)[..n] == u[..n] && (u + q)[n..] == u[n..] + q;
  }

  /** Lexing a token does not look at an inert character after it. */
  lemma LexStable(p: string, q: string)
    requires |q| > 0 && IsInert(q[0])
    ensures Lex(p + q) == match Lex(p)
      case None => None
      case Some((t, r)) => Some((t, r + q))
  {
    var w := RunEnd(p, Blanks, 0, |p|);
    RunEndStable(p, q, Blanks);
    var u := p[w..];
    assert (p + q)[w..] == u + q;
    if |u| > 0 {
      LexAtStable(u, q);
    } else {
      assert u + q == q;
      LexAtSound(q);
    }
  }

  /**
   * Evaluation only ever sees a prefix of its input: everything from the
   * first character that can occur in no token onward is dropped.
   */
  lemma {:induction false} TokenizeIgnoresTail(p: string, q: string)
    requires |q| > 0 && IsInert(q[0])
    ensures Tokenize(p + q) == Tokenize(p)
    decreases |p|
  {
    LexStable(p, q);
    match Lex(p)
    case None =>
    case Some((t, r)) =>
      TokenizeIgnoresTail(r, q);
  }

  /** Where no whitespace leads, Lex is LexAt. */
  lemma LexNoBlank(s: string)
    requires |s| > 0 && !IsWhite(s[0])
    ensures Lex(s) == LexAt(s)
  {
    assert RunEnd(s, Blanks, 0, |s|) == 0;
    assert s[0..] == s;
  }

  /** The literal `0` is a whole token: a run of leading zeros lexes as separate integers. */
  lemma LeadingZeroStandsAlone(rest: string)
    requires |rest| > 0 && IsDigit(rest[0])
    ensures Lex(['0'] + rest) == Some((IntLit("0"), rest))
  {
    var u := ['0'] + rest;
    assert u[0] == '0' && u[1] == rest[0];
    var k := RunEnd(u, Digits, 0, |u|);
    assert k >= 2;
    assert !IntIn(u, 0, k);
    assert MatchFloat(u).None?;
    assert MatchInt(u) == 1;
    assert u[..1] == "0" && u[1..] == rest;
    LexNoBlank(u);
  }

  /**
   * An integer literal ends at the first character that is neither a digit
   * nor a decimal point: whatever that character is, the integer alone is
   * the token and the character starts the rest.
   */
  lemma IntStopsAt(d: string, c: char, w: string)
    requires IsIntText(d) && !IsDigit(c) && c != '.'
    ensures Lex(d + ([c] + w)) == Some((IntLit(d), [c] + w))
  {
    var u := d + ([c] + w);
    assert Agree(u, d, |d|);
    assert AllIn(u, Digits, 0, |d|) && u[|d|] == c;
    RunEndUnique(u, Digits, 0, |u|, |d|);
    assert MatchFloat(u).None?;
    if d[0] != '0' {
      RunEndUnique(u, Digits, 1, |u|, |d|);
    }
    assert MatchInt(u) == |d|;
    assert u[..|d|] == d && u[|d|..] == [c] + w;
    LexNoBlank(u);
  }

  /**
   * An exponent suffix is reachable only through the decimal point: digits
   * followed by `e` lex as an integer and the letter starts the next token.
   */
  lemma ExponentNeedsPoint(d: string, c: char, w: string)
    requires IsIntText(d) && (c == 'e' || c == 'E')
    ensures Lex(d + [c] + w) == Some((IntLit(d), [c] + w))
  {
    assert d + [c] + w == d + ([c] + w);
    IntStopsAt(d, c, w);
  }

  /** An identifier ends at the first character that cannot continue it. */
  lemma IdentStopsAt(n: string, c: char, w: string)
    requires IsIdentText(n) && !IsIdentBody(c)
    ensures Lex(n + ([c] + w)) == Some((Name(n), [c] + w))
  {
    var u := n + ([c] + w);
    assert u[0] == n[0] && IsIdentStart(u[0]);
    assert RunEnd(u, Digits, 0, |u|) == 0;
    assert MatchFloat(u).None?;
    assert MatchInt(u) == 0;
    assert AllIn(u, IdentChars, 1, |n|) by {
      forall i | 1 <= i < |n| ensures IdentChars.Has(u[i]) {
        assert u[i] == n[i];
      }
    }
    assert u[|n|] == c;
    RunEndUnique(u, IdentChars, 1, |u|, |n|);
    assert MatchIdent(u) == |n|;
    assert u[..|n|] == n && u[|n|..] == [c] + w;
    LexNoBlank(u);
  }

  /** An operator character is a token of its own, whatever follows it. */
  lemma OpLexes(c: char, w: string)
    requires IsOpChar(c)
    ensures Lex([c] + w) == Some((Op(c), w))
  {
    var u := [c] + w;
    assert u[0] == c && u[1..] == w && u[..1] == [c];
    assert RunEnd(u, Digits, 0, |u|) == 0;
    assert MatchFloat(u).None?;
    LexNoBlank(u);
  }

  /** Tokenizing is reading one token and tokenizing what follows it. */
  lemma TokenizeCons(s: string, t: Token, rest: string)
    requires Lex(s) == Some((t, rest))
    ensures Tokenize(s) == [t] + Tokenize(rest)
  {
  }

  /** A text that reads as three tokens, one after another, tokenizes as exactly those three. */
  lemma TokenizeThree(s: string, t1: Token, r1: string, t2: Token, r2: string, t3: Token)
    requires Lex(s) == Some((t1, r1)) && Lex(r1) == Some((t2, r2)) && Lex(r2) == Some((t3, []))
    ensures Tokenize(s) == [t1, t2, t3]
  {
    TokenizeCons(r2, t3, []);
    TokenizeCons(r1, t2, r2);
    TokenizeCons(s, t1, r1);
    ConsThree(Tokenize(s), t1, Tokenize(r1), t2, Tokenize(r2), t3, Tokenize([]));
  }

  /** A text that reads as four tokens, one after another, tokenizes as exactly those four. */
  lemma TokenizeFour(s: string, t1: Token, r1: string, t2: Token, r2: string, t3: Token, r3: string, t4: Token)
    requires Lex(s) == Some((t1, r1)) && Lex(r1) == Some((t2, r2))
    requires Lex(r2) == Some((t3, r3)) && Lex(r3) == Some((t4, []))
    ensures Tokenize(s) == [t1, t2, t3, t4]
  {
    TokenizeThree(r1, t2, r2, t3, r3, t4);
    TokenizeCons(s, t1, r1);
    ConsOne(Tokenize(s), t1, Tokenize(r1), [t2, t3, t4]);
  }

  /**
   * Sequence steps for the two lemmas above, stated over plain sequences so
   * that the lexer's definitions are not in play when they are proved.
   */
  lemma ConsThree<T>(x: seq<T>, a: T, y: seq<T>, b: T, z: seq<T>, c: T, e: seq<T>)
    requires x == [a] + y && y == [b] + z && z == [c] + e && e == []
    ensures x == [a, b, c]
  {
  }

  lemma ConsOne<T>(x: seq<T>, a: T, y: seq<T>, ys: seq<T>)
    requires x == [a] + y && y == ys && |ys| == 3
    ensures x == [a, ys[0], ys[1], ys[2]]
  {
  }

  /**
   * Whitespace before a token is skipped: a run of blanks in front changes
   * neither the next token nor the token sequence, and where no blank leads
   * nothing is skipped at all.
   */
  lemma BlanksSkipped(w: string, s: string)
    requires forall i :: 0 <= i < |w| ==> IsWhite(w[i])
    ensures Lex(w + s) == Lex(s)
    ensures Tokenize(w + s) == Tokenize(s)
    ensures |s| > 0 && !IsWhite(s[0]) ==> Lex(w + s) == LexAt(s)
  {
    var u := w + s;
    var k := RunEnd(s, Blanks, 0, |s|);
    forall j | 0 <= j < |w| + k ensures Blanks.Has(u[j]) {
      if j < |w| {
        assert u[j] == w[j];
      } else {
        assert u[j] == s[j - |w|];
      }
    }
    if k < |s| {
      assert u[|w| + k] == s[k];
    }
    RunEndUnique(u, Blanks, 0, |u|, |w| + k);
    assert u[|w| + k..] == s[k..];
    if |s| > 0 && !IsWhite(s[0]) {
      LexNoBlank(s);
    }
  }

  /** A float literal followed by an inert character is one float token, so `1.5` is never int `1` and a remainder. */
  lemma FloatIsOneToken(t: string, w: string)
    requires IsFloatText(t) && |w| > 0 && IsInert(w[0])
    ensures Lex(t + w) == Some((FloatLit(t), w))
  {
    FloatChars(t, 0, |t|);
    FloatLexesWhole(t);
    LexNoBlank(t);
    LexStable(t, w);
  }

  /** A whole float literal is matched, and tokenised, in full. */
  lemma FloatLexesWhole(t: string)
    requires IsFloatText(t)
    ensures LexAt(t) == Some((FloatLit(t), []))
  {
    var r := MatchFloat(t);
    assert r == Some(|t|);
    assert t[..|t|] == t && t[|t|..] == [];
  }

  // ---------------------------------------------------------------------------
  // Integer literals round-trip
  // ---------------------------------------------------------------------------

  function DigitChar(d: nat): (c: char)
    requires d < 10
    ensures IsDigit(c) && DigitValue(c) == d
  {
    '0' + d as char
  }

  /** The decimal rendering of `n`, the text `str(n)` would give. */
  function Show(n: nat): (s: string)
    ensures |s| > 0 && IsIntText(s) && AllDigits(s)
    ensures n > 0 ==> IsNonZeroDigit(s[0])
    ensures DigitsValue(s) == n
  {
    if n < 10 then [DigitChar(n)]
    else
      var s := Show(n / 10) + [DigitChar(n % 10)];
      assert s[..|s| - 1] == Show(n / 10);
      s
  }

  /** An integer literal on its own is read as one integer token. */
  lemma WholeIntLexes(s: string)
    requires IsIntText(s)
    ensures Lex(s) == Some((IntLit(s), []))
  {
    assert AllIn(s, Digits, 0, |s|);
    RunEndUnique(s, Digits, 0, |s|, |s|);
    assert MatchFloat(s).None?;
    assert MatchInt(s) == |s|;
    assert s[..|s|] == s && s[|s|..] == [];
    LexNoBlank(s);
  }

  /** A whole identifier is read as one name. */
  lemma IdentLexes(s: string)
    requires IsIdentText(s)
    ensures Lex(s) == Some((Name(s), []))
  {
    assert RunEnd(s, Digits, 0, |s|) == 0;
    assert MatchFloat(s).None?;
    assert MatchInt(s) == 0;
    assert MatchIdent(s) == |s|;
    assert s[..|s|] == s && s[|s|..] == [];
    LexNoBlank(s);
  }

  /** Every natural number, written in decimal, is read back as one integer token of that value. */
  lemma IntegerRoundTrip(n: nat)
    ensures Tokenize(Show(n)) == [IntLit(Show(n))]
    ensures DigitsValue(Show(n)) == n
  {
    WholeIntLexes(Show(n));
    assert Lex([]) == None;
  }

  /** Every token the lexer produces is a word of its class's language. */
  predicate WellFormed(t: Token) {
    match t
    case IntLit(d) => IsIntText(d)
    case FloatLit(x) => IsFloatText(x)
    case Name(n) => IsIdentText(n)
    case Op(c) => IsOpChar(c)
  }

  lemma LexWellFormed(s: string)
    ensures Lex(s).Some? ==> WellFormed(Lex(s).value.0)
  {
    LexAtSound(s[RunEnd(s, Blanks, 0, |s|)..]);
  }

  lemma {:induction false} TokenizeWellFormed(s: string)
    ensures forall i :: 0 <= i < |Tokenize(s)| ==> WellFormed(Tokenize(s)[i])
    decreases |s|
  {
    var ts := Tokenize(s);
    match Lex(s)
    case None =>
      assert ts == [];
    case Some((t, r)) =>
      LexWellFormed(s);
      TokenizeWellFormed(r);
      var rs := Tokenize(r);
      assert ts == [t] + rs;
      forall i | 0 <= i < |ts| ensures WellFormed(ts[i]) {
        if i > 0 {
          assert ts[i] == rs[i - 1];
        }
      }
  }

  /** Tokenizing a whole identifier gives that one name and nothing more. */
  lemma IdentLexesAlone(s: string)
    requires IsIdentText(s)
    ensures Tokenize(s) == [Name(s)]
  {
    IdentLexes(s);
    assert Lex([]) == None;
  }
}
