/**
 * What the grammar builds: the tree a lone operand becomes, the sign rule of
 * `factor` over whole power chains, the three `parenexpr` alternatives and
 * their fallback, assignment tried before expression, a failed function
 * lookup aborting the whole evaluation, and `fpeval` reading only a prefix
 * of its input.
 */
module ParserFacts {
  import opened Wrappers
  import opened Lexer
  import opened LexerFacts
  import opened Fold
  import opened FoldFacts
  import opened Parser

  /**
   * The tree a lone operand reduces to: every production wraps it with its
   * fold seed, `power` as `x ^ 1`, `term` as `1 * _`, `expr` as `0 + _`.
   */
  function Lone(x: Fold.Expr): Fold.Expr {
    Add(Int("0"), Mul(Int("1"), Pow(x, Int("1"))))
  }

  /** `ts` does not start with one of the operator tokens `cs`: a repetition waiting for one of them stops here. */
  predicate Stops(ts: seq<Token>, cs: set<char>) {
    |ts| == 0 || !ts[0].Op? || ts[0].symbol !in cs
  }

  /** A literal token not followed by `(` is an atom: neither a bracket nor a call. */
  lemma PrimaryLiteral(t: Token, more: seq<Token>, known: set<string>)
    requires !t.Op? && Stops(more, {'('})
    ensures Primary([t] + more, known) == Ok(Leaf(t), more)
  {
    var ts := [t] + more;
    assert ts[0] == t && ts[1..] == more;
    assert !StartsWith(ts, '(');
    assert !(|ts| >= 2 && ts[0].Name? && ts[1] == Op('('));
  }

  /** A lone operand is a power chain of one: `x ^ 1`. */
  lemma PowerAlone(t: Token, more: seq<Token>, known: set<string>)
    requires !t.Op? && Stops(more, {'^', '('})
    ensures Power([t] + more, known) == Ok(Pow(Leaf(t), Int("1")), more)
  {
    PrimaryLiteral(t, more, known);
    assert PowerMore([Val(Leaf(t))], more, known) == Ok([Val(Leaf(t))], more);
    PowerIsRightFold(Leaf(t), [], Leaf(t));
  }

  /** An unsigned lone operand is a factor of its own. */
  lemma FactorAlone(t: Token, more: seq<Token>, known: set<string>)
    requires !t.Op? && Stops(more, {'^', '('})
    ensures Factor([t] + more, known) == Ok(Pow(Leaf(t), Int("1")), more)
  {
    var ts := [t] + more;
    var p := Pow(Leaf(t), Int("1"));
    PowerAlone(t, more, known);
    assert ts[0] == t;
    assert FactorRun(ts, known) == Ok([Val(p)], more);
    FactorSignParity([Val(p)]);
  }

  /** A lone operand not followed by `^ * / (` is a term of its own: `1 * x ^ 1`. */
  lemma TermAlone(t: Token, more: seq<Token>, known: set<string>)
    requires !t.Op? && Stops(more, {'^', '(', '*', '/'})
    ensures Term([t] + more, known) == Ok(Mul(Int("1"), Pow(Leaf(t), Int("1"))), more)
  {
    var p := Pow(Leaf(t), Int("1"));
    FactorAlone(t, more, known);
    assert TermMore([Val(p)], more, known) == Ok([Val(p)], more);
    TermIsLeftFold([], '*', Leaf(t), p);
  }

  /**
   * An operand followed by nothing that extends it is a whole expression on
   * its own: the parse stops right after it and leaves the rest unread.
   */
  lemma OperandAlone(t: Token, more: seq<Token>, known: set<string>)
    requires !t.Op? && Stops(more, {'^', '(', '*', '/', '+', '-'})
    ensures Parser.Expr([t] + more, known) == Ok(Lone(Leaf(t)), more)
  {
    var m := Mul(Int("1"), Pow(Leaf(t), Int("1")));
    TermAlone(t, more, known);
    assert ExprMore([Val(m)], more, known) == Ok([Val(m)], more);
    SumIsLeftFold([], '+', Leaf(t), m);
  }

  // ---------------------------------------------------------------------------
  // factor: the sign run applies to the whole power chain
  // ---------------------------------------------------------------------------

  predicate AllSigns(ts: seq<Token>) {
    forall i :: 0 <= i < |ts| ==> IsSign(ts[i])
  }

  /** The number of `-` tokens in `ts`. */
  function MinusCount(ts: seq<Token>): nat {
    multiset(ts)[Op('-')]
  }

  /** One leading sign adds one item to the run, and counts iff it is `-`. */
  lemma SignStep(signs: seq<Token>, ts: seq<Token>, items: seq<Item>, known: set<string>)
    requires |signs| > 0 && IsSign(signs[0])
    ensures FactorRun(signs + ts, known) == match FactorRun(signs[1..] + ts, known)
      case Ok(items, r) => Ok([OpItem(signs[0].symbol)] + items, r)
      case NoMatch => NoMatch
      case Fault(e) => Fault(e)
    ensures Minuses([OpItem(signs[0].symbol)] + items) == Minuses(items) + (if signs[0] == Op('-') then 1 else 0)
    ensures MinusCount(signs) == MinusCount(signs[1..]) + (if signs[0] == Op('-') then 1 else 0)
  {
    var c := signs[0].symbol;
    var s := signs + ts;
    assert s[0] == signs[0] && s[1..] == signs[1..] + ts;
    assert multiset([OpItem(c)] + items) == multiset([OpItem(c)]) + multiset(items);
    assert signs == [signs[0]] + signs[1..];
    assert multiset(signs) == multiset([signs[0]]) + multiset(signs[1..]);
    assert (OpItem(c) == OpItem('-')) == (signs[0] == Op('-'));
  }

  /** Without signs the run is the power value alone. */
  lemma NoSigns(ts: seq<Token>, known: set<string>)
    requires |ts| == 0 || !IsSign(ts[0])
    ensures FactorRun(ts, known) == match Power(ts, known)
      case Ok(p, r) => Ok([Val(p)], r)
      case NoMatch => NoMatch
      case Fault(e) => Fault(e)
    ensures forall p :: Minuses([Val(p)]) == 0
  {
    forall p ensures Minuses([Val(p)]) == 0 {
      assert multiset([Val(p)])[OpItem('-')] == 0;
    }
  }

  lemma {:induction false} FactorRunSigns(signs: seq<Token>, ts: seq<Token>, known: set<string>)
    requires AllSigns(signs) && (|ts| == 0 || !IsSign(ts[0]))
    ensures var run := FactorRun(signs + ts, known);
      match Power(ts, known)
      case Ok(p, r) =>
        run.Ok? && run.rest == r && run.value[|run.value| - 1] == Val(p) && Minuses(run.value) == MinusCount(signs)
      case NoMatch => run.NoMatch?
      case Fault(e) => run == Fault(e)
    decreases |signs|
  {
    if |signs| == 0 {
      assert signs + ts == ts;
      NoSigns(ts, known);
    } else {
      assert AllSigns(signs[1..]) by {
        forall i | 0 <= i < |signs[1..]| ensures IsSign(signs[1..][i]) {
          assert signs[1..][i] == signs[i + 1];
        }
      }
      FactorRunSigns(signs[1..], ts, known);
      var inner := FactorRun(signs[1..] + ts, known);
      SignStep(signs, ts, if inner.Ok? then inner.value else [], known);
    }
  }

  /**
   * `factor` reads its signs and then a whole power chain, and negates the
   * chain's value iff the signs hold an odd number of `-`. So `-2^2` is
   * `-(2^2)`, `--x` is `x` and a `+` never changes anything.
   */
  lemma FactorIsSignedPower(signs: seq<Token>, ts: seq<Token>, known: set<string>)
    requires AllSigns(signs) && (|ts| == 0 || !IsSign(ts[0]))
    ensures Factor(signs + ts, known) == match Power(ts, known)
      case Ok(p, r) => Ok(if MinusCount(signs) % 2 == 1 then Neg(p) else p, r)
      case NoMatch => NoMatch
      case Fault(e) => Fault(e)
  {
    FactorRunSigns(signs, ts, known);
    match Power(ts, known)
    case Ok(p, r) =>
      FactorSignParity(FactorRun(signs + ts, known).value);
    case NoMatch =>
    case Fault(e) =>
  }

  /** `^` followed by a `parenexpr` extends a power run by that operand, and the repetition goes on after it. */
  lemma PowerStep(items: seq<Item>, ts: seq<Token>, p: Fold.Expr, rest: seq<Token>, known: set<string>)
    requires Chain(items, {'^'}) && Primary(ts, known) == Ok(p, rest)
    ensures Chain(items + [OpItem('^'), Val(p)], {'^'})
    ensures PowerMore(items, [Op('^')] + ts, known) == PowerMore(items + [OpItem('^'), Val(p)], rest, known)
  {
    var u := [Op('^')] + ts;
    assert u[0] == Op('^') && u[1..] == ts;
    ChainGrow(items, '^', p, {'^'});
  }

  /** An operator and an operand appended to a run keep it an alternation. */
  lemma ChainGrow(items: seq<Item>, o: char, x: Fold.Expr, ops: set<char>)
    requires Chain(items, ops) && o in ops
    ensures Chain(items + [OpItem(o), Val(x)], ops)
  {
    var r := items + [OpItem(o), Val(x)];
    forall i | 0 <= i < |r| ensures (i % 2 == 0 ==> r[i].Val?) && (i % 2 == 1 ==> r[i].OpItem? && r[i].sym in ops) {
      if i < |items| {
        assert r[i] == items[i];
      }
    }
  }

  /** The power chain `a ^ b`, read from tokens, nests to the right from seed 1. */
  lemma PowerPair(a: Token, b: Token, more: seq<Token>, known: set<string>)
    requires !a.Op? && !b.Op? && Stops(more, {'^', '('})
    ensures Power([a, Op('^'), b] + more, known) == Ok(Pow(Leaf(a), Pow(Leaf(b), Int("1"))), more)
  {
    var after := [Op('^'), b] + more;
    assert [a, Op('^'), b] + more == [a] + after;
    PrimaryLiteral(a, after, known);
    assert after == [Op('^')] + ([b] + more);
    PrimaryLiteral(b, more, known);
    PowerStep([Val(Leaf(a))], [b] + more, Leaf(b), more, known);
    var items := [Val(Leaf(a))] + [OpItem('^'), Val(Leaf(b))];
    assert PowerMore(items, more, known) == Ok(items, more);
    PowerIsRightFold(Leaf(a), [Val(Leaf(b))], Leaf(b));
    assert items == [Val(Leaf(a)), OpItem('^')] + [Val(Leaf(b))];
  }

  /** `-a^b` negates the power: the sign binds more loosely than `^`. */
  lemma MinusBindsLooserThanPower(a: Token, b: Token, known: set<string>)
    requires !a.Op? && !b.Op?
    ensures Factor([Op('-'), a, Op('^'), b], known) == Ok(Neg(Pow(Leaf(a), Pow(Leaf(b), Int("1")))), [])
  {
    var ts := [a, Op('^'), b];
    assert [Op('-'), a, Op('^'), b] == [Op('-')] + ts;
    assert ts == [a, Op('^'), b] + [];
    PowerPair(a, b, [], known);
    assert AllSigns([Op('-')]);
    assert multiset([Op('-')])[Op('-')] == 1;
    FactorIsSignedPower([Op('-')], ts, known);
  }

  // ---------------------------------------------------------------------------
  // parenexpr: brackets, calls, and falling back to an atom
  // ---------------------------------------------------------------------------

  /**
   * A bracketed expression yields the inner value itself; without its
   * closing bracket it matches nothing, since `(` is neither a name nor an
   * atom.
   */
  lemma BracketsYieldInner(ts: seq<Token>, known: set<string>)
    ensures Primary([Op('(')] + ts, known) == match Parser.Expr(ts, known)
      case Ok(v, r) => if StartsWith(r, ')') then Ok(v, r[1..]) else NoMatch
      case NoMatch => NoMatch
      case Fault(e) => Fault(e)
  {
    var u := [Op('(')] + ts;
    assert u[0] == Op('(') && u[1..] == ts;
  }

  /**
   * A name directly followed by a bracketed expression applies the function
   * of that name to the inner value, and fails if no such function exists.
   * When the bracketed part does not match, the name is read as a plain
   * symbol and the bracket is left unread.
   */
  lemma CallOrSymbol(n: string, ts: seq<Token>, known: set<string>)
    ensures Primary([Name(n), Op('(')] + ts, known) == match Parser.Expr(ts, known)
      case Ok(v, r) =>
        if !StartsWith(r, ')') then Ok(Sym(n), [Op('(')] + ts)
        else if n in known then Ok(Call(n, v), r[1..])
        else Fault(UnknownFunction(n))
      case NoMatch => Ok(Sym(n), [Op('(')] + ts)
      case Fault(e) => Fault(e)
  {
    var u := [Name(n), Op('(')] + ts;
    assert u[0] == Name(n) && u[1] == Op('(') && u[2..] == ts && u[1..] == [Op('(')] + ts;
  }

  /**
   * A fault in the leading operand ends the evaluation: it comes out of
   * every production above it unchanged.
   */
  lemma FaultClimbs(ts: seq<Token>, known: set<string>)
    requires Primary(ts, known).Fault? && |ts| > 0 && !IsSign(ts[0])
    ensures Term(ts, known) == Fault(Primary(ts, known).error)
    ensures Parser.Expr(ts, known) == Fault(Primary(ts, known).error)
  {
    var e := Primary(ts, known).error;
    assert Power(ts, known) == Fault(e);
    assert FactorRun(ts, known) == Fault(e);
    assert Factor(ts, known) == Fault(e);
    assert Term(ts, known) == Fault(e);
  }

  /**
   * Calling a function the catalogue does not hold aborts the statement,
   * although `name` alone would have been a valid expression.
   */
  lemma UnknownFunctionAborts(n: string, ts: seq<Token>, known: set<string>)
    requires n !in known
    requires Parser.Expr(ts, known).Ok? && StartsWith(Parser.Expr(ts, known).rest, ')')
    ensures Statement([Name(n), Op('(')] + ts, known) == Fault(UnknownFunction(n))
  {
    var u := [Name(n), Op('(')] + ts;
    CallOrSymbol(n, ts, known);
    assert u[0] == Name(n) && u[1] == Op('(');
    FaultClimbs(u, known);
  }

  // ---------------------------------------------------------------------------
  // statement: assignment first, then expression
  // ---------------------------------------------------------------------------

  /**
   * `name = expr` is returned as an unreduced assignment; when the right
   * side does not match, the statement is the lone symbol and `=` is left
   * unread.
   */
  lemma AssignmentFirst(x: string, ts: seq<Token>, known: set<string>)
    ensures Statement([Name(x), Op('=')] + ts, known) == match Parser.Expr(ts, known)
      case Ok(v, r) => Ok(Assign(x, v), r)
      case NoMatch => Ok(Value(Lone(Sym(x))), [Op('=')] + ts)
      case Fault(e) => Fault(e)
  {
    var u := [Name(x), Op('=')] + ts;
    assert u[0] == Name(x) && u[1] == Op('=') && u[2..] == ts;
    if Parser.Expr(ts, known).NoMatch? {
      assert u == [Name(x)] + ([Op('=')] + ts);
      OperandAlone(Name(x), [Op('=')] + ts, known);
    }
  }

  // ---------------------------------------------------------------------------
  // fpeval reads a prefix
  // ---------------------------------------------------------------------------

  /**
   * The evaluation stops at the first character that starts no token:
   * whatever follows it never changes the outcome.
   */
  lemma EvalIgnoresTail(p: string, q: string, known: set<string>)
    requires |q| > 0 && IsInert(q[0])
    ensures Fpeval(p + q, known) == Fpeval(p, known)
  {
    TokenizeIgnoresTail(p, q);
  }

  /**
   * `1e5` is the integer 1: without a point the exponent is not part of a
   * number, `e5` lexes as a name, and the name is never read.
   */
  lemma ExponentWithoutPointIsIgnored(known: set<string>)
    ensures Fpeval("1e5", known) == Success(Value(Lone(Int("1"))))
  {
    OneE5Tokens();
    IntThenName("1", "e5", known);
  }

  /** An integer followed by a name is the integer alone; the name is left unread. */
  lemma IntThenName(d: string, n: string, known: set<string>)
    ensures Statement([IntLit(d)] + [Name(n)], known) == Ok(Value(Lone(Int(d))), [Name(n)])
  {
    OperandAlone(IntLit(d), [Name(n)], known);
  }

  /** `1e5` is read as the integer `1` followed by the name `e5`. */
  lemma OneE5Tokens()
    ensures Tokenize("1e5") == [IntLit("1")] + [Name("e5")]
  {
    assert "1e5" == "1" + ['e'] + "5";
    assert IsIntText("1");
    ExponentNeedsPoint("1", 'e', "5");
    assert ['e'] + "5" == "e5";
    IdentLexesAlone("e5");
  }
}
