/**
 * The ordered-choice recursive-descent grammar of the evaluator and its
 * entry point `fpeval`:
 *
 *   atom       ::= FLOAT | INT | IDENTIFIER
 *   parenexpr  ::= "(" expr ")" | IDENTIFIER "(" expr ")" | atom
 *   power      ::= parenexpr { "^" parenexpr }
 *   factor     ::= { "+" | "-" } power
 *   term       ::= factor { ("*" | "/") factor }
 *   expr       ::= term { ("+" | "-") term }
 *   assignment ::= IDENTIFIER "=" expr
 *   statement  ::= assignment | expr
 *
 * Every rule is a PEG rule: alternatives are tried in order and the first
 * that matches wins, repetitions are greedy and never give back what they
 * matched. Each rule runs its reduction action as soon as it has matched, so
 * a named-function lookup that fails aborts the whole evaluation at once,
 * even inside an alternative that would otherwise have been abandoned.
 */
module Parser {
  import opened Wrappers
  import opened Lexer
  import opened Fold

  /** Why an evaluation failed. */
  datatype EvalError =
    | ParseError                  // the statement rule matched nothing
    | UnknownFunction(name: string) // `getattr(sympy, name)` found nothing to call

  /**
   * The outcome of one rule at one position: a value and the tokens after
   * it; no match, so the caller may try its next alternative; or a fault that
   * ends the evaluation.
   */
  datatype Parse<T> = Ok(value: T, rest: seq<Token>) | NoMatch | Fault(error: EvalError)

  /** What `fpeval` returns: an unreduced assignment group, or a value. */
  datatype Stmt = Assign(target: string, value: Expr) | Value(e: Expr)

  /** A match consumed at least one token. */
  predicate Advances<T>(r: Parse<T>, ts: seq<Token>) {
    r.Ok? ==> |r.rest| < |ts|
  }

  /** A match consumed no more than the input. */
  predicate Keeps<T>(r: Parse<T>, ts: seq<Token>) {
    r.Ok? ==> |r.rest| <= |ts|
  }

  predicate StartsWith(ts: seq<Token>, c: char) {
    |ts| > 0 && ts[0] == Op(c)
  }

  predicate IsSign(t: Token) { t == Op('+') || t == Op('-') }

  /** The leaf value a literal token reduces to. */
  function Leaf(t: Token): Expr
    requires !t.Op?
  {
    match t
    case IntLit(d) => Int(d)
    case FloatLit(x) => Flt(x)
    case Name(n) => Sym(n)
  }

  /** `atom ::= FLOAT | INT | IDENTIFIER`: any single literal token. */
  function Atom(ts: seq<Token>): (r: Parse<Expr>)
    ensures r.Ok? <==> |ts| > 0 && !ts[0].Op?
    ensures r.Ok? ==> r.rest == ts[1..]
    ensures !r.Fault?
  {
    if |ts| == 0 || ts[0].Op? then NoMatch else Ok(Leaf(ts[0]), ts[1..])
  }

  /**
   * `parenexpr`: a parenthesised expression yields the inner value (the
   * parentheses are suppressed); a name directly followed by a parenthesised
   * expression applies the function of that name, which must exist; anything
   * else is an atom.
   */
  function Primary(ts: seq<Token>, known: set<string>): (r: Parse<Expr>)
    ensures Advances(r, ts)
    decreases |ts|, 0
  {
    var paren := if StartsWith(ts, '(') then Expr(ts[1..], known) else NoMatch;
    if paren.Fault? then Fault(paren.error)
    else if paren.Ok? && StartsWith(paren.rest, ')') then Ok(paren.value, paren.rest[1..])
    else
      var call := if |ts| >= 2 && ts[0].Name? && ts[1] == Op('(') then Expr(ts[2..], known) else NoMatch;
      if call.Fault? then Fault(call.error)
      else if call.Ok? && StartsWith(call.rest, ')') then
        if ts[0].id in known then Ok(Call(ts[0].id, call.value), call.rest[1..])
        else Fault(UnknownFunction(ts[0].id))
      else Atom(ts)
  }

  /** The `{ "^" parenexpr }` repetition, appending to the run matched so far. */
  function PowerMore(items: seq<Item>, ts: seq<Token>, known: set<string>): (r: Parse<seq<Item>>)
    requires Chain(items, {'^'})
    ensures Keeps(r, ts)
    ensures r.Ok? ==> Chain(r.value, {'^'}) && items <= r.value
    decreases |ts|, 0
  {
    if StartsWith(ts, '^') then
      match Primary(ts[1..], known)
      case Ok(p, rest) => PowerMore(items + [OpItem('^'), Val(p)], rest, known)
      case NoMatch => Ok(items, ts)
      case Fault(e) => Fault(e)
    else Ok(items, ts)
  }

  /** `power ::= parenexpr { "^" parenexpr }`, reduced by `_as_power`. */
  function Power(ts: seq<Token>, known: set<string>): (r: Parse<Expr>)
    ensures Advances(r, ts)
    decreases |ts|, 1
  {
    match Primary(ts, known)
    case Ok(p, rest) =>
      (match PowerMore([Val(p)], rest, known)
       case Ok(items, rest') => Ok(AsPower(items), rest')
       case NoMatch => NoMatch
       case Fault(e) => Fault(e))
    case NoMatch => NoMatch
    case Fault(e) => Fault(e)
  }

  /** The `{ "+" | "-" } power` run of `factor`: the signs, then the power value. */
  function FactorRun(ts: seq<Token>, known: set<string>): (r: Parse<seq<Item>>)
    ensures Advances(r, ts)
    ensures r.Ok? ==> |r.value| > 0 && r.value[|r.value| - 1].Val?
    decreases |ts|, 2
  {
    if |ts| > 0 && IsSign(ts[0]) then
      match FactorRun(ts[1..], known)
      case Ok(items, rest) => Ok([OpItem(ts[0].symbol)] + items, rest)
      case NoMatch => NoMatch
      case Fault(e) => Fault(e)
    else
      match Power(ts, known)
      case Ok(p, rest) => Ok([Val(p)], rest)
      case NoMatch => NoMatch
      case Fault(e) => Fault(e)
  }

  /** `factor ::= { "+" | "-" } power`, reduced by `_as_factor`. */
  function Factor(ts: seq<Token>, known: set<string>): (r: Parse<Expr>)
    ensures Advances(r, ts)
    decreases |ts|, 3
  {
    match FactorRun(ts, known)
    case Ok(items, rest) => Ok(AsFactor(items), rest)
    case NoMatch => NoMatch
    case Fault(e) => Fault(e)
  }

  /** The `{ ("*" | "/") factor }` repetition. */
  function TermMore(items: seq<Item>, ts: seq<Token>, known: set<string>): (r: Parse<seq<Item>>)
    requires Chain(items, {'*', '/'})
    ensures Keeps(r, ts)
    ensures r.Ok? ==> Chain(r.value, {'*', '/'}) && items <= r.value
    decreases |ts|, 0
  {
    if StartsWith(ts, '*') || StartsWith(ts, '/') then
      match Factor(ts[1..], known)
      case Ok(f, rest) => TermMore(items + [OpItem(ts[0].symbol), Val(f)], rest, known)
      case NoMatch => Ok(items, ts)
      case Fault(e) => Fault(e)
    else Ok(items, ts)
  }

  /** `term ::= factor { ("*" | "/") factor }`, reduced by `_as_term`. */
  function Term(ts: seq<Token>, known: set<string>): (r: Parse<Expr>)
    ensures Advances(r, ts)
    decreases |ts|, 4
  {
    match Factor(ts, known)
    case Ok(f, rest) =>
      (match TermMore([Val(f)], rest, known)
       case Ok(items, rest') => Ok(AsTerm(items), rest')
       case NoMatch => NoMatch
       case Fault(e) => Fault(e))
    case NoMatch => NoMatch
    case Fault(e) => Fault(e)
  }

  /** The `{ ("+" | "-") term }` repetition. */
  function ExprMore(items: seq<Item>, ts: seq<Token>, known: set<string>): (r: Parse<seq<Item>>)
    requires Chain(items, {'+', '-'})
    ensures Keeps(r, ts)
    ensures r.Ok? ==> Chain(r.value, {'+', '-'}) && items <= r.value
    decreases |ts|, 0
  {
    if StartsWith(ts, '+') || StartsWith(ts, '-') then
      match Term(ts[1..], known)
      case Ok(t, rest) => ExprMore(items + [OpItem(ts[0].symbol), Val(t)], rest, known)
      case NoMatch => Ok(items, ts)
      case Fault(e) => Fault(e)
    else Ok(items, ts)
  }

  /** `expr ::= term { ("+" | "-") term }`, reduced by `_as_sum`. */
  function Expr(ts: seq<Token>, known: set<string>): (r: Parse<Fold.Expr>)
    ensures Advances(r, ts)
    decreases |ts|, 5
  {
    match Term(ts, known)
    case Ok(t, rest) =>
      (match ExprMore([Val(t)], rest, known)
       case Ok(items, rest') => Ok(AsSum(items), rest')
       case NoMatch => NoMatch
       case Fault(e) => Fault(e))
    case NoMatch => NoMatch
    case Fault(e) => Fault(e)
  }

  /**
   * `statement ::= assignment | expr`. An assignment is returned as the
   * unreduced group of its name and value; nothing is bound.
   */
  function Statement(ts: seq<Token>, known: set<string>): (r: Parse<Stmt>)
    ensures Advances(r, ts)
  {
    var assign := if |ts| >= 2 && ts[0].Name? && ts[1] == Op('=') then Expr(ts[2..], known) else NoMatch;
    match assign
    case Ok(v, rest) => Ok(Assign(ts[0].id, v), rest)
    case Fault(e) => Fault(e)
    case NoMatch =>
      match Expr(ts, known)
      case Ok(v, rest) => Ok(Value(v), rest)
      case NoMatch => NoMatch
      case Fault(e) => Fault(e)
  }

  /**
   * `fpeval`: evaluate the statement at the front of `text`. Whatever follows
   * the matched statement is ignored.
   */
  function Fpeval(text: string, known: set<string>): (r: Result<Stmt, EvalError>)
  {
    match Statement(Tokenize(text), known)
    case Ok(v, _) => Success(v)
    case NoMatch => Failure(ParseError)
    case Fault(e) => Failure(e)
  }
}
