/**
 * What `fpeval` returns for whole texts: a parse error when no statement
 * can start, the unknown-function error for a call of a name the catalogue
 * does not hold, and a value for text whose tokens are separated by blanks.
 */
module EvalFacts {
  import opened Wrappers
  import opened Lexer
  import opened LexerFacts
  import opened Fold
  import opened Parser
  import opened ParserFacts
  import opened ChainFacts

  /** Nothing left, or an operator token no production can start with. */
  predicate Stuck(ts: seq<Token>) {
    |ts| == 0 || (ts[0].Op? && ts[0].symbol in {')', '*', '/', '^', '='})
  }

  /**
   * Signs followed by nothing a `parenexpr` can start with: neither an
   * assignment nor an expression matches, so the statement matches nothing.
   */
  lemma NoStatementStarts(signs: seq<Token>, ts: seq<Token>, known: set<string>)
    requires AllSigns(signs) && Stuck(ts)
    ensures Statement(signs + ts, known) == NoMatch
  {
    assert Primary(ts, known) == NoMatch;
    assert Power(ts, known) == NoMatch;
    FactorIsSignedPower(signs, ts, known);
    var u := signs + ts;
    assert Factor(u, known) == NoMatch;
    assert Term(u, known) == NoMatch;
    assert Parser.Expr(u, known) == NoMatch;
    if |signs| > 0 {
      assert u[0] == signs[0];
    } else {
      assert u == ts;
    }
  }

  /**
   * A text whose tokens start with no statement is a parse error: the empty
   * text, blanks only, or a leading `) * / ^ =`.
   */
  lemma ParseErrorWhenNothingStarts(t: string, known: set<string>)
    requires Stuck(Tokenize(t))
    ensures Fpeval(t, known) == Failure(ParseError)
  {
    NoStatementStarts([], Tokenize(t), known);
    assert [] + Tokenize(t) == Tokenize(t);
  }

  /** The empty answer text is a parse error. */
  lemma EmptyIsParseError(known: set<string>)
    ensures Fpeval("", known) == Failure(ParseError)
  {
    ParseErrorWhenNothingStarts("", known);
  }

  /** Blanks alone are a parse error: they are skipped and nothing follows. */
  lemma BlanksAreParseError(known: set<string>)
    ensures Fpeval("   ", known) == Failure(ParseError)
  {
    BlanksSkipped("   ", "");
    assert "   " + "" == "   ";
    ParseErrorWhenNothingStarts("   ", known);
  }

  /** `(d)` lexes as the two brackets with the integer between them. */
  lemma BracketedTokens(d: string)
    requires IsIntText(d)
    ensures Tokenize(['('] + (d + [')'])) == [Op('('), IntLit(d), Op(')')]
  {
    var close := [')'];
    assert close + [] == close;
    OpLexes(')', []);
    IntStopsAt(d, ')', []);
    OpLexes('(', d + close);
    TokenizeThree(['('] + (d + close), Op('('), d + close, IntLit(d), close, Op(')'));
  }

  /** `n(d)` lexes as the name, the brackets and the integer between them. */
  lemma CallTokens(n: string, d: string)
    requires IsIdentText(n) && IsIntText(d)
    ensures Tokenize(n + (['('] + (d + [')']))) == [Name(n), Op('('), IntLit(d), Op(')')]
  {
    var close := [')'];
    assert close + [] == close;
    OpLexes(')', []);
    IntStopsAt(d, ')', []);
    OpLexes('(', d + close);
    IdentStopsAt(n, '(', d + close);
    TokenizeFour(n + (['('] + (d + close)), Name(n), ['('] + (d + close), Op('('), d + close, IntLit(d), close, Op(')'));
  }

  /** The tokens of `n(d)`, for a name the catalogue does not hold, abort the statement with that name. */
  lemma UnknownCallStatement(n: string, d: string, ts: seq<Token>, known: set<string>)
    requires ts == [Name(n), Op('('), IntLit(d), Op(')')] && n !in known
    ensures Statement(ts, known) == Fault(UnknownFunction(n))
  {
    assert [IntLit(d)] + [Op(')')] == [IntLit(d), Op(')')];
    OperandAlone(IntLit(d), [Op(')')], known);
    UnknownFunctionAborts(n, [IntLit(d), Op(')')], known);
    assert ts == [Name(n), Op('(')] + [IntLit(d), Op(')')];
  }

  /** Calling a function the catalogue does not hold makes the whole evaluation fail with that name. */
  lemma UnknownCallFails(n: string, d: string, known: set<string>)
    requires IsIdentText(n) && IsIntText(d) && n !in known
    ensures Fpeval(n + (['('] + (d + [')'])), known) == Failure(UnknownFunction(n))
  {
    var t := n + (['('] + (d + [')']));
    CallTokens(n, d);
    UnknownCallStatement(n, d, Tokenize(t), known);
  }

  /** `+ b` with a blank after the operator lexes as the operator and the integer. */
  lemma PlusTokens(b: string)
    requires IsIntText(b)
    ensures Tokenize(['+'] + ([' '] + b)) == [Op('+'), IntLit(b)]
  {
    assert [Op('+')] + ([IntLit(b)] + []) == [Op('+'), IntLit(b)];
    WholeIntLexes(b);
    TokenizeCons(b, IntLit(b), []);
    BlanksSkipped([' '], b);
    OpLexes('+', [' '] + b);
    TokenizeCons(['+'] + ([' '] + b), Op('+'), [' '] + b);
  }

  /** `a + b` with blanks around the operator lexes as three tokens: the blanks are skipped. */
  lemma SpacedSumTokens(a: string, b: string)
    requires IsIntText(a) && IsIntText(b)
    ensures Tokenize(a + ([' '] + (['+'] + ([' '] + b)))) == [IntLit(a), Op('+'), IntLit(b)]
  {
    var plus := ['+'] + ([' '] + b);
    WholeIntLexes(b);
    BlanksSkipped([' '], b);
    OpLexes('+', [' '] + b);
    BlanksSkipped([' '], plus);
    IntStopsAt(a, ' ', plus);
    TokenizeThree(a + ([' '] + plus), IntLit(a), [' '] + plus, Op('+'), [' '] + b, IntLit(b));
  }

  /** The tokens of `a + b` form a statement whose value is the sum of the two terms. */
  lemma SumStatement(a: string, b: string, ts: seq<Token>, known: set<string>)
    requires ts == [IntLit(a), Op('+'), IntLit(b)]
    ensures Statement(ts, known) ==
      Ok(Value(Add(Add(Int("0"), SumLevel.Operand(IntLit(a))), SumLevel.Operand(IntLit(b)))), [])
  {
    var rest := [('+', IntLit(b))];
    assert TailTokens(rest) == [Op('+'), IntLit(b)];
    assert ts == [IntLit(a)] + (TailTokens(rest) + []);
    ExprChain(IntLit(a), rest, [], known);
    assert rest[..0] == [];
  }

  /** `a + b` with blanks around the operator evaluates to the sum of the two terms, as `a+b` does. */
  lemma SpacedSumEvaluates(a: string, b: string, known: set<string>)
    requires IsIntText(a) && IsIntText(b)
    ensures Fpeval(a + ([' '] + (['+'] + ([' '] + b))), known) ==
      Success(Value(Add(Add(Int("0"), SumLevel.Operand(IntLit(a))), SumLevel.Operand(IntLit(b)))))
  {
    var t := a + ([' '] + (['+'] + ([' '] + b)));
    SpacedSumTokens(a, b);
    SumStatement(a, b, Tokenize(t), known);
  }

  /** The text `1 + 2` lexes as `1`, `+`, `2`: the blanks around the operator are skipped. */
  lemma OnePlusTwoTokens()
    ensures Tokenize("1 + 2") == [IntLit("1"), Op('+'), IntLit("2")]
  {
    assert IsIntText("1") && IsIntText("2");
    assert "1 + 2" == "1" + ([' '] + (['+'] + ([' '] + "2")));
    SpacedSumTokens("1", "2");
  }

  /** `sin(1)`, for a catalogue without `sin`, fails with the unknown name. */
  lemma UnknownSineFails(known: set<string>)
    requires "sin" !in known
    ensures Fpeval("sin(1)", known) == Failure(UnknownFunction("sin"))
  {
    assert IsIdentText("sin") && IsIntText("1");
    assert "sin(1)" == "sin" + (['('] + ("1" + [')']));
    UnknownCallFails("sin", "1", known);
  }
}
