/**
 * What the three repeating productions read from tokens. A run of literal
 * operands joined by one level's operators, and followed by nothing that
 * extends it, is read whole: `power` nests it to the right, `term` and
 * `expr` fold it to the left, and every operand is reduced by the levels
 * below first, which is how `*` binds tighter than `+`.
 */
module ChainFacts {
  import opened Lexer
  import opened Fold
  import opened FoldFacts
  import opened Parser
  import opened ParserFacts

  /** The three repeating productions, by their operators. */
  datatype Level = PowerLevel | TermLevel | SumLevel {
    /** The operators the level's repetition takes. */
    function Ops(): set<char> {
      match this
      case PowerLevel => {'^'}
      case TermLevel => {'*', '/'}
      case SumLevel => {'+', '-'}
    }

    /** The operator tokens that would extend an operand at this level: its own and those of the levels below. */
    function Binding(): set<char> {
      match this
      case PowerLevel => {'^', '('}
      case TermLevel => {'^', '(', '*', '/'}
      case SumLevel => {'^', '(', '*', '/', '+', '-'}
    }

    /** The value a lone literal operand has when it reaches this level's repetition. */
    function Operand(t: Token): Fold.Expr
      requires !t.Op?
    {
      match this
      case PowerLevel => Leaf(t)
      case TermLevel => Pow(Leaf(t), Int("1"))
      case SumLevel => Mul(Int("1"), Pow(Leaf(t), Int("1")))
    }
  }

  /** Every link is one of the level's operators followed by a literal. */
  predicate Links(rest: seq<(char, Token)>, l: Level) {
    forall i :: 0 <= i < |rest| ==> rest[i].0 in l.Ops() && !rest[i].1.Op?
  }

  /** The tokens of the links: operator, operand, operator, operand, ... */
  function TailTokens(rest: seq<(char, Token)>): (r: seq<Token>)
    ensures |r| == 2 * |rest|
  {
    if |rest| == 0 then [] else [Op(rest[0].0), rest[0].1] + TailTokens(rest[1..])
  }

  /** The run items the links add, each operand reduced as the level below reduces it. */
  function TailItems(rest: seq<(char, Token)>, l: Level): (r: seq<Item>)
    requires Links(rest, l)
    ensures |r| == 2 * |rest|
  {
    if |rest| == 0 then [] else [OpItem(rest[0].0), Val(l.Operand(rest[0].1))] + TailItems(rest[1..], l)
  }

  /** Appending a link at the end appends its two items. */
  lemma {:induction false} TailItemsSnoc(rest: seq<(char, Token)>, c: char, t: Token, l: Level)
    requires Links(rest + [(c, t)], l)
    ensures Links(rest, l) && c in l.Ops() && !t.Op?
    ensures TailItems(rest + [(c, t)], l) == TailItems(rest, l) + [OpItem(c), Val(l.Operand(t))]
    decreases |rest|
  {
    assert forall i :: 0 <= i < |rest| ==> rest[i] == (rest + [(c, t)])[i];
    assert (rest + [(c, t)])[|rest|] == (c, t);
    if |rest| == 0 {
      assert [(c, t)][1..] == [];
    } else {
      var s := rest + [(c, t)];
      assert s[0] == rest[0] && s[1..] == rest[1..] + [(c, t)];
      TailItemsSnoc(rest[1..], c, t, l);
    }
  }

  /**
   * After the links, the next token is an operator of the level or whatever
   * `more` starts with: either way no operator of a level below.
   */
  lemma TailStops(rest: seq<(char, Token)>, more: seq<Token>, l: Level, cs: set<char>)
    requires Links(rest, l) && Stops(more, l.Binding())
    requires cs <= l.Binding() && cs !! l.Ops()
    ensures Stops(TailTokens(rest) + more, cs)
  {
    if |rest| > 0 {
      assert (TailTokens(rest) + more)[0] == Op(rest[0].0);
    } else {
      assert TailTokens(rest) + more == more;
    }
  }

  /** The first link's tokens, split off the front. */
  lemma TailFront(rest: seq<(char, Token)>, more: seq<Token>)
    requires |rest| > 0
    ensures TailTokens(rest) + more == [Op(rest[0].0)] + ([rest[0].1] + (TailTokens(rest[1..]) + more))
  {
  }

  // ---------------------------------------------------------------------------
  // one step of each repetition
  // ---------------------------------------------------------------------------

  /** `*` or `/` followed by a factor extends a term run by that factor, and the repetition goes on after it. */
  lemma TermStep(items: seq<Item>, o: char, ts: seq<Token>, f: Fold.Expr, rest: seq<Token>, known: set<string>)
    requires Chain(items, {'*', '/'}) && o in {'*', '/'} && Factor(ts, known) == Ok(f, rest)
    ensures Chain(items + [OpItem(o), Val(f)], {'*', '/'})
    ensures TermMore(items, [Op(o)] + ts, known) == TermMore(items + [OpItem(o), Val(f)], rest, known)
  {
    var u := [Op(o)] + ts;
    assert u[0] == Op(o) && u[1..] == ts;
    ChainGrow(items, o, f, {'*', '/'});
  }

  /** `+` or `-` followed by a term extends a sum run by that term, and the repetition goes on after it. */
  lemma ExprStep(items: seq<Item>, o: char, ts: seq<Token>, t: Fold.Expr, rest: seq<Token>, known: set<string>)
    requires Chain(items, {'+', '-'}) && o in {'+', '-'} && Term(ts, known) == Ok(t, rest)
    ensures Chain(items + [OpItem(o), Val(t)], {'+', '-'})
    ensures ExprMore(items, [Op(o)] + ts, known) == ExprMore(items + [OpItem(o), Val(t)], rest, known)
  {
    var u := [Op(o)] + ts;
    assert u[0] == Op(o) && u[1..] == ts;
    ChainGrow(items, o, t, {'+', '-'});
  }

  /** A repetition facing anything but its own operator stops at once and reads nothing. */
  lemma RunsStop(items: seq<Item>, ts: seq<Token>, known: set<string>)
    ensures Chain(items, {'^'}) && Stops(ts, {'^'}) ==> PowerMore(items, ts, known) == Ok(items, ts)
    ensures Chain(items, {'*', '/'}) && Stops(ts, {'*', '/'}) ==> TermMore(items, ts, known) == Ok(items, ts)
    ensures Chain(items, {'+', '-'}) && Stops(ts, {'+', '-'}) ==> ExprMore(items, ts, known) == Ok(items, ts)
  {
  }

  /**
   * An operator with nothing after it that its operand production matches is
   * left unread: the repetition backtracks to before the operator.
   */
  lemma DanglingOperatorUnread(items: seq<Item>, o: char, ts: seq<Token>, known: set<string>)
    ensures Chain(items, {'^'}) && o == '^' && Primary(ts, known).NoMatch? ==>
      PowerMore(items, [Op(o)] + ts, known) == Ok(items, [Op(o)] + ts)
    ensures Chain(items, {'*', '/'}) && o in {'*', '/'} && Factor(ts, known).NoMatch? ==>
      TermMore(items, [Op(o)] + ts, known) == Ok(items, [Op(o)] + ts)
    ensures Chain(items, {'+', '-'}) && o in {'+', '-'} && Term(ts, known).NoMatch? ==>
      ExprMore(items, [Op(o)] + ts, known) == Ok(items, [Op(o)] + ts)
  {
    var u := [Op(o)] + ts;
    assert u[0] == Op(o) && u[1..] == ts;
  }

  /**
   * A fault in the operand after an operator is not a failed match: the
   * repetition does not backtrack over the operator but passes the fault on.
   */
  lemma OperandFaultAborts(items: seq<Item>, o: char, ts: seq<Token>, known: set<string>)
    ensures Chain(items, {'^'}) && o == '^' && Primary(ts, known).Fault? ==>
      PowerMore(items, [Op(o)] + ts, known) == Fault(Primary(ts, known).error)
    ensures Chain(items, {'*', '/'}) && o in {'*', '/'} && Factor(ts, known).Fault? ==>
      TermMore(items, [Op(o)] + ts, known) == Fault(Factor(ts, known).error)
    ensures Chain(items, {'+', '-'}) && o in {'+', '-'} && Term(ts, known).Fault? ==>
      ExprMore(items, [Op(o)] + ts, known) == Fault(Term(ts, known).error)
  {
    var u := [Op(o)] + ts;
    assert u[0] == Op(o) && u[1..] == ts;
  }

  /**
   * A fault raised by a repetition, after its first operand matched, comes
   * out of the production that owns the repetition unchanged.
   */
  lemma RunFaultClimbs(ts: seq<Token>, known: set<string>)
    ensures var p := Primary(ts, known);
      p.Ok? && PowerMore([Val(p.value)], p.rest, known).Fault? ==>
      Power(ts, known) == Fault(PowerMore([Val(p.value)], p.rest, known).error)
    ensures var f := Factor(ts, known);
      f.Ok? && TermMore([Val(f.value)], f.rest, known).Fault? ==>
      Term(ts, known) == Fault(TermMore([Val(f.value)], f.rest, known).error)
    ensures var t := Term(ts, known);
      t.Ok? && ExprMore([Val(t.value)], t.rest, known).Fault? ==>
      Parser.Expr(ts, known) == Fault(ExprMore([Val(t.value)], t.rest, known).error)
  {
  }

  /** A faulting expression that is not the right side of an assignment makes the statement fault. */
  lemma StatementFault(ts: seq<Token>, known: set<string>)
    requires Parser.Expr(ts, known).Fault?
    requires !(|ts| >= 2 && ts[0].Name? && ts[1] == Op('='))
    ensures Statement(ts, known) == Fault(Parser.Expr(ts, known).error)
  {
  }

  /**
   * An unknown function aborts the statement wherever it is called, not
   * only in the leading operand: `a + f(x)` faults although `a` alone was
   * already a complete expression.
   */
  lemma LaterUnknownCallAborts(a: Token, n: string, x: Token, more: seq<Token>, known: set<string>)
    requires !a.Op? && !x.Op? && n !in known
    ensures Statement([a, Op('+'), Name(n), Op('('), x, Op(')')] + more, known) == Fault(UnknownFunction(n))
  {
    var inner := [x, Op(')')] + more;
    var call := [Name(n), Op('(')] + inner;
    var ts := [a, Op('+'), Name(n), Op('('), x, Op(')')] + more;
    assert ts == [a] + ([Op('+')] + call);
    assert inner == [x] + ([Op(')')] + more);
    OperandAlone(x, [Op(')')] + more, known);
    CallOrSymbol(n, inner, known);
    assert call[0] == Name(n);
    FaultClimbs(call, known);
    TermAlone(a, [Op('+')] + call, known);
    var m := Mul(Int("1"), Pow(Leaf(a), Int("1")));
    OperandFaultAborts([Val(m)], '+', call, known);
    RunFaultClimbs(ts, known);
    assert ts[1] == Op('+');
    StatementFault(ts, known);
  }

  // ---------------------------------------------------------------------------
  // whole runs, by induction on the number of links
  // ---------------------------------------------------------------------------

  /** The first link of a run at PowerLevel: `{ "^" parenexpr }` reads it and carries on with the rest. */
  lemma PowerLink(items: seq<Item>, rest: seq<(char, Token)>, more: seq<Token>, known: set<string>)
    requires Chain(items, {'^'}) && |rest| > 0 && Links(rest, PowerLevel) && Stops(more, PowerLevel.Binding())
    ensures Links(rest[1..], PowerLevel)
    ensures Chain(items + [OpItem(rest[0].0), Val(PowerLevel.Operand(rest[0].1))], {'^'})
    ensures PowerMore(items, TailTokens(rest) + more, known) ==
      PowerMore(items + [OpItem(rest[0].0), Val(PowerLevel.Operand(rest[0].1))], TailTokens(rest[1..]) + more, known)
    ensures items + TailItems(rest, PowerLevel) ==
      (items + [OpItem(rest[0].0), Val(PowerLevel.Operand(rest[0].1))]) + TailItems(rest[1..], PowerLevel)
  {
    var (c, t) := rest[0];
    var after := TailTokens(rest[1..]) + more;
    TailFront(rest, more);
    assert forall i :: 0 <= i < |rest| - 1 ==> rest[1..][i] == rest[i + 1];
    assert TailItems(rest, PowerLevel) == [OpItem(c), Val(PowerLevel.Operand(t))] + TailItems(rest[1..], PowerLevel);
    TailStops(rest[1..], more, PowerLevel, {'('});
    PrimaryLiteral(t, after, known);
    PowerStep(items, [t] + after, Leaf(t), after, known);
  }

  /** `{ "^" parenexpr }` over literal operands reads every link and stops before `more`. */
  lemma {:induction false} PowerMoreChain(items: seq<Item>, rest: seq<(char, Token)>, more: seq<Token>, known: set<string>)
    requires Chain(items, {'^'}) && Links(rest, PowerLevel) && Stops(more, PowerLevel.Binding())
    ensures PowerMore(items, TailTokens(rest) + more, known) == Ok(items + TailItems(rest, PowerLevel), more)
    decreases |rest|
  {
    if |rest| == 0 {
      RunsStop(items, more, known);
      assert TailTokens(rest) + more == more && items + TailItems(rest, PowerLevel) == items;
    } else {
      PowerLink(items, rest, more, known);
      PowerMoreChain(items + [OpItem(rest[0].0), Val(PowerLevel.Operand(rest[0].1))], rest[1..], more, known);
    }
  }

  /** The first link of a run at TermLevel: `{ ("*" | "/") factor }` reads it and carries on with the rest. */
  lemma TermLink(items: seq<Item>, rest: seq<(char, Token)>, more: seq<Token>, known: set<string>)
    requires Chain(items, {'*', '/'}) && |rest| > 0 && Links(rest, TermLevel) && Stops(more, TermLevel.Binding())
    ensures Links(rest[1..], TermLevel)
    ensures Chain(items + [OpItem(rest[0].0), Val(TermLevel.Operand(rest[0].1))], {'*', '/'})
    ensures TermMore(items, TailTokens(rest) + more, known) ==
      TermMore(items + [OpItem(rest[0].0), Val(TermLevel.Operand(rest[0].1))], TailTokens(rest[1..]) + more, known)
    ensures items + TailItems(rest, TermLevel) ==
      (items + [OpItem(rest[0].0), Val(TermLevel.Operand(rest[0].1))]) + TailItems(rest[1..], TermLevel)
  {
    var (c, t) := rest[0];
    var after := TailTokens(rest[1..]) + more;
    TailFront(rest, more);
    assert forall i :: 0 <= i < |rest| - 1 ==> rest[1..][i] == rest[i + 1];
    assert TailItems(rest, TermLevel) == [OpItem(c), Val(TermLevel.Operand(t))] + TailItems(rest[1..], TermLevel);
    TailStops(rest[1..], more, TermLevel, {'^', '('});
    FactorAlone(t, after, known);
    TermStep(items, c, [t] + after, Pow(Leaf(t), Int("1")), after, known);
  }

  /** `{ ("*" | "/") factor }` over literal operands reads every link and stops before `more`. */
  lemma {:induction false} TermMoreChain(items: seq<Item>, rest: seq<(char, Token)>, more: seq<Token>, known: set<string>)
    requires Chain(items, {'*', '/'}) && Links(rest, TermLevel) && Stops(more, TermLevel.Binding())
    ensures TermMore(items, TailTokens(rest) + more, known) == Ok(items + TailItems(rest, TermLevel), more)
    decreases |rest|
  {
    if |rest| == 0 {
      RunsStop(items, more, known);
      assert TailTokens(rest) + more == more && items + TailItems(rest, TermLevel) == items;
    } else {
      TermLink(items, rest, more, known);
      TermMoreChain(items + [OpItem(rest[0].0), Val(TermLevel.Operand(rest[0].1))], rest[1..], more, known);
    }
  }

  /** The first link of a run at SumLevel: `{ ("+" | "-") term }` reads it and carries on with the rest. */
  lemma SumLink(items: seq<Item>, rest: seq<(char, Token)>, more: seq<Token>, known: set<string>)
    requires Chain(items, {'+', '-'}) && |rest| > 0 && Links(rest, SumLevel) && Stops(more, SumLevel.Binding())
    ensures Links(rest[1..], SumLevel)
    ensures Chain(items + [OpItem(rest[0].0), Val(SumLevel.Operand(rest[0].1))], {'+', '-'})
    ensures ExprMore(items, TailTokens(rest) + more, known) ==
      ExprMore(items + [OpItem(rest[0].0), Val(SumLevel.Operand(rest[0].1))], TailTokens(rest[1..]) + more, known)
    ensures items + TailItems(rest, SumLevel) ==
      (items + [OpItem(rest[0].0), Val(SumLevel.Operand(rest[0].1))]) + TailItems(rest[1..], SumLevel)
  {
    var (c, t) := rest[0];
    var after := TailTokens(rest[1..]) + more;
    TailFront(rest, more);
    assert forall i :: 0 <= i < |rest| - 1 ==> rest[1..][i] == rest[i + 1];
    assert TailItems(rest, SumLevel) == [OpItem(c), Val(SumLevel.Operand(t))] + TailItems(rest[1..], SumLevel);
    TailStops(rest[1..], more, SumLevel, {'^', '(', '*', '/'});
    TermAlone(t, after, known);
    ExprStep(items, c, [t] + after, Mul(Int("1"), Pow(Leaf(t), Int("1"))), after, known);
  }

  /** `{ ("+" | "-") term }` over literal operands reads every link and stops before `more`. */
  lemma {:induction false} ExprMoreChain(items: seq<Item>, rest: seq<(char, Token)>, more: seq<Token>, known: set<string>)
    requires Chain(items, {'+', '-'}) && Links(rest, SumLevel) && Stops(more, SumLevel.Binding())
    ensures ExprMore(items, TailTokens(rest) + more, known) == Ok(items + TailItems(rest, SumLevel), more)
    decreases |rest|
  {
    if |rest| == 0 {
      RunsStop(items, more, known);
      assert TailTokens(rest) + more == more && items + TailItems(rest, SumLevel) == items;
    } else {
      SumLink(items, rest, more, known);
      ExprMoreChain(items + [OpItem(rest[0].0), Val(SumLevel.Operand(rest[0].1))], rest[1..], more, known);
    }
  }

  // ---------------------------------------------------------------------------
  // the trees whole runs become
  // ---------------------------------------------------------------------------

  /** `x ^ t1 ^ t2 ^ ... ^ tn` nested to the right, ending in the seed 1. */
  function PowerNest(x: Token, rest: seq<(char, Token)>): Fold.Expr
    requires !x.Op? && Links(rest, PowerLevel)
    decreases |rest|
  {
    if |rest| == 0 then Pow(Leaf(x), Int("1"))
    else Pow(Leaf(x), PowerNest(rest[0].1, rest[1..]))
  }

  /** `x o1 t1 o2 t2 ... on tn` at term level, folded to the left from the seed 1. */
  function TermNest(x: Token, rest: seq<(char, Token)>): Fold.Expr
    requires !x.Op? && Links(rest, TermLevel)
    decreases |rest|
  {
    if |rest| == 0 then Mul(Int("1"), TermLevel.Operand(x))
    else
      var (c, t) := rest[|rest| - 1];
      var init := TermNest(x, rest[..|rest| - 1]);
      if c == '*' then Mul(init, TermLevel.Operand(t)) else Div(init, TermLevel.Operand(t))
  }

  /** `x o1 t1 o2 t2 ... on tn` at sum level, folded to the left from the seed 0. */
  function SumNest(x: Token, rest: seq<(char, Token)>): Fold.Expr
    requires !x.Op? && Links(rest, SumLevel)
    decreases |rest|
  {
    if |rest| == 0 then Add(Int("0"), SumLevel.Operand(x))
    else
      var (c, t) := rest[|rest| - 1];
      var init := SumNest(x, rest[..|rest| - 1]);
      if c == '+' then Add(init, SumLevel.Operand(t)) else Sub(init, SumLevel.Operand(t))
  }

  /** The power fold of a literal run is the right nesting. */
  lemma {:induction false} PowerFoldNests(x: Token, rest: seq<(char, Token)>)
    requires !x.Op? && Links(rest, PowerLevel)
    ensures AsPower([Val(Leaf(x))] + TailItems(rest, PowerLevel)) == PowerNest(x, rest)
    decreases |rest|
  {
    if |rest| == 0 {
      PowerIsRightFold(Leaf(x), [], Leaf(x));
      assert [Val(Leaf(x))] + TailItems(rest, PowerLevel) == [Val(Leaf(x))];
    } else {
      var t := rest[0].1;
      PowerFoldNests(t, rest[1..]);
      var tail := [Val(Leaf(t))] + TailItems(rest[1..], PowerLevel);
      assert [Val(Leaf(x))] + TailItems(rest, PowerLevel) == [Val(Leaf(x)), OpItem('^')] + tail;
      PowerIsRightFold(Leaf(x), tail, Leaf(x));
    }
  }

  /** The term fold of a literal run is the left fold written out. */
  lemma {:induction false} TermFoldNests(x: Token, rest: seq<(char, Token)>)
    requires !x.Op? && Links(rest, TermLevel)
    ensures AsTerm([Val(TermLevel.Operand(x))] + TailItems(rest, TermLevel)) == TermNest(x, rest)
    decreases |rest|
  {
    var y := TermLevel.Operand(x);
    if |rest| == 0 {
      TermIsLeftFold([], '*', y, y);
      assert [Val(y)] + TailItems(rest, TermLevel) == [Val(y)];
    } else {
      var init := rest[..|rest| - 1];
      var (c, t) := rest[|rest| - 1];
      assert rest == init + [(c, t)];
      TailItemsSnoc(init, c, t, TermLevel);
      TermFoldNests(x, init);
      var run := [Val(y)] + TailItems(init, TermLevel);
      assert [Val(y)] + TailItems(rest, TermLevel) == run + [OpItem(c), Val(TermLevel.Operand(t))];
      TermIsLeftFold(run, c, TermLevel.Operand(t), y);
    }
  }

  /** The sum fold of a literal run is the left fold written out. */
  lemma {:induction false} SumFoldNests(x: Token, rest: seq<(char, Token)>)
    requires !x.Op? && Links(rest, SumLevel)
    ensures AsSum([Val(SumLevel.Operand(x))] + TailItems(rest, SumLevel)) == SumNest(x, rest)
    decreases |rest|
  {
    var y := SumLevel.Operand(x);
    if |rest| == 0 {
      SumIsLeftFold([], '+', y, y);
      assert [Val(y)] + TailItems(rest, SumLevel) == [Val(y)];
    } else {
      var init := rest[..|rest| - 1];
      var (c, t) := rest[|rest| - 1];
      assert rest == init + [(c, t)];
      TailItemsSnoc(init, c, t, SumLevel);
      SumFoldNests(x, init);
      var run := [Val(y)] + TailItems(init, SumLevel);
      assert [Val(y)] + TailItems(rest, SumLevel) == run + [OpItem(c), Val(SumLevel.Operand(t))];
      SumIsLeftFold(run, c, SumLevel.Operand(t), y);
    }
  }

  // ---------------------------------------------------------------------------
  // the productions over whole runs
  // ---------------------------------------------------------------------------

  /** `power` reads a whole `^` run of literals and nests it to the right. */
  lemma PowerChain(x: Token, rest: seq<(char, Token)>, more: seq<Token>, known: set<string>)
    requires !x.Op? && Links(rest, PowerLevel) && Stops(more, PowerLevel.Binding())
    ensures Power([x] + (TailTokens(rest) + more), known) == Ok(PowerNest(x, rest), more)
  {
    var after := TailTokens(rest) + more;
    TailStops(rest, more, PowerLevel, {'('});
    PrimaryLiteral(x, after, known);
    PowerMoreChain([Val(Leaf(x))], rest, more, known);
    PowerFoldNests(x, rest);
  }

  /** `term` reads a whole `* /` run of literals and folds it to the left. */
  lemma TermChain(x: Token, rest: seq<(char, Token)>, more: seq<Token>, known: set<string>)
    requires !x.Op? && Links(rest, TermLevel) && Stops(more, TermLevel.Binding())
    ensures Term([x] + (TailTokens(rest) + more), known) == Ok(TermNest(x, rest), more)
  {
    var after := TailTokens(rest) + more;
    TailStops(rest, more, TermLevel, {'^', '('});
    FactorAlone(x, after, known);
    TermMoreChain([Val(TermLevel.Operand(x))], rest, more, known);
    TermFoldNests(x, rest);
  }

  /** `expr` reads a whole `+ -` run of literals and folds it to the left. */
  lemma ExprChain(x: Token, rest: seq<(char, Token)>, more: seq<Token>, known: set<string>)
    requires !x.Op? && Links(rest, SumLevel) && Stops(more, SumLevel.Binding())
    ensures Parser.Expr([x] + (TailTokens(rest) + more), known) == Ok(SumNest(x, rest), more)
  {
    var after := TailTokens(rest) + more;
    TailStops(rest, more, SumLevel, {'^', '(', '*', '/'});
    TermAlone(x, after, known);
    ExprMoreChain([Val(SumLevel.Operand(x))], rest, more, known);
    SumFoldNests(x, rest);
  }

  // ---------------------------------------------------------------------------
  // three-operand instances
  // ---------------------------------------------------------------------------

  /** `a - b + c` is `((0 + a) - b) + c`, each operand the term `1 * x ^ 1`. */
  lemma SumOfThree(a: Token, b: Token, c: Token, more: seq<Token>, known: set<string>)
    requires !a.Op? && !b.Op? && !c.Op? && Stops(more, SumLevel.Binding())
    ensures Parser.Expr([a, Op('-'), b, Op('+'), c] + more, known) ==
      Ok(Add(Sub(Add(Int("0"), SumLevel.Operand(a)), SumLevel.Operand(b)), SumLevel.Operand(c)), more)
  {
    var rest := [('-', b), ('+', c)];
    assert TailTokens(rest) == [Op('-'), b, Op('+'), c] by {
      assert rest[1..] == [('+', c)] && rest[1..][1..] == [];
    }
    assert [a, Op('-'), b, Op('+'), c] + more == [a] + (TailTokens(rest) + more);
    ExprChain(a, rest, more, known);
    assert rest[..1] == [('-', b)] && rest[..1][..0] == [];
    assert SumNest(a, rest[..1]) == Sub(Add(Int("0"), SumLevel.Operand(a)), SumLevel.Operand(b));
  }

  /** `a / b / c` is `((1 * a) / b) / c`, each operand the factor `x ^ 1`. */
  lemma QuotientOfThree(a: Token, b: Token, c: Token, more: seq<Token>, known: set<string>)
    requires !a.Op? && !b.Op? && !c.Op? && Stops(more, TermLevel.Binding())
    ensures Term([a, Op('/'), b, Op('/'), c] + more, known) ==
      Ok(Div(Div(Mul(Int("1"), TermLevel.Operand(a)), TermLevel.Operand(b)), TermLevel.Operand(c)), more)
  {
    var rest := [('/', b), ('/', c)];
    assert TailTokens(rest) == [Op('/'), b, Op('/'), c] by {
      assert rest[1..] == [('/', c)] && rest[1..][1..] == [];
    }
    assert [a, Op('/'), b, Op('/'), c] + more == [a] + (TailTokens(rest) + more);
    TermChain(a, rest, more, known);
    assert rest[..1] == [('/', b)] && rest[..1][..0] == [];
    assert TermNest(a, rest[..1]) == Div(Mul(Int("1"), TermLevel.Operand(a)), TermLevel.Operand(b));
  }

  /** `a ^ b ^ c` is `a ^ (b ^ (c ^ 1))`. */
  lemma PowerOfThree(a: Token, b: Token, c: Token, more: seq<Token>, known: set<string>)
    requires !a.Op? && !b.Op? && !c.Op? && Stops(more, PowerLevel.Binding())
    ensures Power([a, Op('^'), b, Op('^'), c] + more, known) ==
      Ok(Pow(Leaf(a), Pow(Leaf(b), Pow(Leaf(c), Int("1")))), more)
  {
    var rest := [('^', b), ('^', c)];
    assert TailTokens(rest) == [Op('^'), b, Op('^'), c] by {
      assert rest[1..] == [('^', c)] && rest[1..][1..] == [];
    }
    assert [a, Op('^'), b, Op('^'), c] + more == [a] + (TailTokens(rest) + more);
    PowerChain(a, rest, more, known);
    assert PowerNest(c, rest[1..][1..]) == Pow(Leaf(c), Int("1"));
    assert PowerNest(b, rest[1..]) == Pow(Leaf(b), Pow(Leaf(c), Int("1")));
  }

  /**
   * `a + b * c` is `(0 + a) + ((1 * b) * c)`: the product is read whole as
   * the second term before the sum is folded.
   */
  lemma ProductBindsTighter(a: Token, b: Token, c: Token, more: seq<Token>, known: set<string>)
    requires !a.Op? && !b.Op? && !c.Op? && Stops(more, SumLevel.Binding())
    ensures Parser.Expr([a, Op('+'), b, Op('*'), c] + more, known) ==
      Ok(Add(Add(Int("0"), SumLevel.Operand(a)), Mul(Mul(Int("1"), TermLevel.Operand(b)), TermLevel.Operand(c))), more)
  {
    var product := [('*', c)];
    var tail := [b] + (TailTokens(product) + more);
    assert TailTokens(product) == [Op('*'), c];
    assert [a, Op('+'), b, Op('*'), c] + more == [a] + ([Op('+')] + tail);
    TermChain(b, product, more, known);
    var bc := TermNest(b, product);
    assert product[..0] == [];
    assert bc == Mul(Mul(Int("1"), TermLevel.Operand(b)), TermLevel.Operand(c));
    TermAlone(a, [Op('+')] + tail, known);
    var y := SumLevel.Operand(a);
    ExprStep([Val(y)], '+', tail, bc, more, known);
    RunsStop([Val(y), OpItem('+'), Val(bc)], more, known);
    assert [Val(y)] + [OpItem('+'), Val(bc)] == [Val(y), OpItem('+'), Val(bc)];
    SumIsLeftFold([Val(y)], '+', bc, y);
  }
}
