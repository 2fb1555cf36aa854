/**
 * The shape of the trees the reduction actions build: `+ -` and `* /` fold
 * to the left from their seeds, `^` folds to the right, and a unary sign run
 * negates exactly when it holds an odd number of minus signs.
 */
module FoldFacts {
  import opened Fold

  lemma {:induction false} WalkAppend(st: FoldState, a: seq<Item>, b: seq<Item>, spec: char,
                                      f1: (Expr, Expr) -> Expr, f2: (Expr, Expr) -> Expr, rev: bool)
    ensures Walk(st, a + b, spec, f1, f2, rev) == Walk(Walk(st, a, spec, f1, f2, rev), b, spec, f1, f2, rev)
    decreases |a|
  {
    if |a| == 0 {
      assert a + b == b;
    } else {
      assert (a + b)[0] == a[0] && (a + b)[1..] == a[1..] + b;
      WalkAppend(Step(st, a[0], spec, f1, f2, rev), a[1..], b, spec, f1, f2, rev);
    }
  }

  lemma WalkOne(st: FoldState, x: Expr, spec: char, f1: (Expr, Expr) -> Expr,
                f2: (Expr, Expr) -> Expr, rev: bool)
    ensures Walk(st, [Val(x)], spec, f1, f2, rev) == Step(st, Val(x), spec, f1, f2, rev)
  {
    assert [Val(x)][0] == Val(x) && [Val(x)][1..] == [];
  }

  /** An operator followed by an operand: the operator alone decides the combinator. */
  lemma WalkPair(st: FoldState, o: char, x: Expr, spec: char, f1: (Expr, Expr) -> Expr,
                 f2: (Expr, Expr) -> Expr, rev: bool)
    ensures Walk(st, [OpItem(o), Val(x)], spec, f1, f2, rev).acc ==
      if rev then (if o == spec then f1(x, st.acc) else f2(x, st.acc))
      else (if o == spec then f1(st.acc, x) else f2(st.acc, x))
  {
    var s := [OpItem(o), Val(x)];
    var sel := FoldState(st.acc, o == spec);
    assert s[0] == OpItem(o) && s[1..] == [Val(x)];
    assert Walk(st, s, spec, f1, f2, rev) == Walk(sel, [Val(x)], spec, f1, f2, rev);
    assert [Val(x)][0] == Val(x) && [Val(x)][1..] == [];
    assert Walk(sel, [Val(x)], spec, f1, f2, rev) == Step(sel, Val(x), spec, f1, f2, rev);
    if o == spec {
      assert sel.useFirst;
    } else {
      assert !sel.useFirst;
    }
  }

  /** A one-operand run combines the seed with that operand through the first combinator. */
  lemma FoldSingle(x: Expr, spec: char, f1: (Expr, Expr) -> Expr, f2: (Expr, Expr) -> Expr,
                   seed: Expr, rev: bool)
    ensures CalcTokens([Val(x)], spec, f1, f2, seed, rev) == if rev then f1(x, seed) else f1(seed, x)
  {
    assert Reverse([Val(x)]) == [Val(x)];
    WalkOne(FoldState(seed, true), x, spec, f1, f2, rev);
  }

  /**
   * Left fold: appending an operator and an operand to the run applies the
   * operator's combinator OUTSIDE the fold of the run, so `a - b + c` becomes
   * `((seed + a) - b) + c`.
   */
  lemma LeftFoldAppend(items: seq<Item>, o: char, x: Expr, spec: char,
                       f1: (Expr, Expr) -> Expr, f2: (Expr, Expr) -> Expr, seed: Expr)
    ensures CalcTokens(items + [OpItem(o), Val(x)], spec, f1, f2, seed, false)
         == var acc := CalcTokens(items, spec, f1, f2, seed, false);
            if o == spec then f1(acc, x) else f2(acc, x)
  {
    var st := Walk(FoldState(seed, true), items, spec, f1, f2, false);
    WalkAppend(FoldState(seed, true), items, [OpItem(o), Val(x)], spec, f1, f2, false);
    WalkPair(st, o, x, spec, f1, f2, false);
  }

  lemma ReversePrepend<T>(x: T, y: T, s: seq<T>)
    ensures Reverse([x, y] + s) == Reverse(s) + [y, x]
  {
  }

  /**
   * Right fold: putting an operand and an operator in front of the run
   * applies the operator's combinator OUTSIDE the fold of the rest, with the
   * new operand first, so `a ^ b ^ c` becomes `a ^ (b ^ (c ^ seed))`.
   */
  lemma RightFoldPrepend(x: Expr, o: char, items: seq<Item>, spec: char,
                         f1: (Expr, Expr) -> Expr, f2: (Expr, Expr) -> Expr, seed: Expr)
    ensures CalcTokens([Val(x), OpItem(o)] + items, spec, f1, f2, seed, true)
         == var acc := CalcTokens(items, spec, f1, f2, seed, true);
            if o == spec then f1(x, acc) else f2(x, acc)
  {
    ReversePrepend(Val(x), OpItem(o), items);
    WalkAppend(FoldState(seed, true), Reverse(items), [OpItem(o), Val(x)], spec, f1, f2, true);
    WalkPair(Walk(FoldState(seed, true), Reverse(items), spec, f1, f2, true), o, x, spec, f1, f2, true);
  }

  /** `expr`: a left fold from 0, `+` adding and every other operator subtracting. */
  lemma SumIsLeftFold(items: seq<Item>, o: char, x: Expr, y: Expr)
    ensures AsSum([Val(y)]) == Add(Int("0"), y)
    ensures AsSum(items + [OpItem(o), Val(x)]) ==
      if o == '+' then Add(AsSum(items), x) else Sub(AsSum(items), x)
  {
    FoldSingle(y, '+', (a, b) => Add(a, b), (a, b) => Sub(a, b), Int("0"), false);
    LeftFoldAppend(items, o, x, '+', (a, b) => Add(a, b), (a, b) => Sub(a, b), Int("0"));
  }

  /** `term`: a left fold from 1, `*` multiplying and every other operator dividing. */
  lemma TermIsLeftFold(items: seq<Item>, o: char, x: Expr, y: Expr)
    ensures AsTerm([Val(y)]) == Mul(Int("1"), y)
    ensures AsTerm(items + [OpItem(o), Val(x)]) ==
      if o == '*' then Mul(AsTerm(items), x) else Div(AsTerm(items), x)
  {
    FoldSingle(y, '*', (a, b) => Mul(a, b), (a, b) => Div(a, b), Int("1"), false);
    LeftFoldAppend(items, o, x, '*', (a, b) => Mul(a, b), (a, b) => Div(a, b), Int("1"));
  }

  /** `power`: a right fold from 1, so exponentiation associates to the right. */
  lemma PowerIsRightFold(x: Expr, items: seq<Item>, y: Expr)
    ensures AsPower([Val(y)]) == Pow(y, Int("1"))
    ensures AsPower([Val(x), OpItem('^')] + items) == Pow(x, AsPower(items))
  {
    FoldSingle(y, '^', (a, b) => Pow(a, b), (a, b) => Pow(a, b), Int("1"), true);
    RightFoldPrepend(x, '^', items, '^', (a, b) => Pow(a, b), (a, b) => Pow(a, b), Int("1"));
  }

  /**
   * In a run separated only by `^`, the power fold never selects its second
   * combinator: the result is the same whatever function stands in for it.
   */
  lemma {:induction false} PowerSecondUnused(items: seq<Item>, f1: (Expr, Expr) -> Expr,
                                             g: (Expr, Expr) -> Expr, h: (Expr, Expr) -> Expr, seed: Expr)
    requires Chain(items, {'^'})
    ensures CalcTokens(items, '^', f1, g, seed, true) == CalcTokens(items, '^', f1, h, seed, true)
    decreases |items|
  {
    var x := items[0].e;
    if |items| == 1 {
      assert items == [Val(x)];
      FoldSingle(x, '^', f1, g, seed, true);
      FoldSingle(x, '^', f1, h, seed, true);
    } else {
      var rest := items[2..];
      assert items == [Val(x), OpItem('^')] + rest;
      assert Chain(rest, {'^'}) by {
        forall i | 0 <= i < |rest| ensures i % 2 == 0 ==> rest[i].Val? {
          assert rest[i] == items[i + 2];
        }
        forall i | 0 <= i < |rest| ensures i % 2 == 1 ==> rest[i].OpItem? && rest[i].sym in {'^'} {
          assert rest[i] == items[i + 2];
        }
      }
      PowerSecondUnused(rest, f1, g, h, seed);
      RightFoldPrepend(x, '^', rest, '^', f1, g, seed);
      RightFoldPrepend(x, '^', rest, '^', f1, h, seed);
    }
  }

  /** The number of minus-sign operators in a run. */
  function Minuses(items: seq<Item>): nat {
    multiset(items)[OpItem('-')]
  }

  lemma {:induction false} KeepSignParity(items: seq<Item>, keep: bool)
    ensures KeepSign(items, keep) == (keep == (Minuses(items) % 2 == 0))
    decreases |items|
  {
    if |items| > 0 {
      assert items == [items[0]] + items[1..];
      assert multiset(items) == multiset([items[0]]) + multiset(items[1..]);
      KeepSignParity(items[1..], if items[0] == OpItem('-') then !keep else keep);
    }
  }

  /**
   * `factor`: the power value is negated iff the sign run holds an odd
   * number of `-`; `+` signs have no effect.
   */
  lemma FactorSignParity(items: seq<Item>)
    requires |items| > 0 && items[|items| - 1].Val?
    ensures AsFactor(items) ==
      if Minuses(items) % 2 == 1 then Neg(items[|items| - 1].e) else items[|items| - 1].e
  {
    KeepSignParity(items, true);
  }

  // ---------------------------------------------------------------------------
  // The grouping of three-operand runs
  // ---------------------------------------------------------------------------

  /** `a - b + c` is `((0 + a) - b) + c`. */
  lemma SumGroupsLeft(a: Expr, b: Expr, c: Expr)
    ensures AsSum([Val(a), OpItem('-'), Val(b), OpItem('+'), Val(c)]) == Add(Sub(Add(Int("0"), a), b), c)
  {
    SumIsLeftFold([], '+', a, a);
    SumIsLeftFold([Val(a)], '-', b, a);
    assert [Val(a)] + [OpItem('-'), Val(b)] == [Val(a), OpItem('-'), Val(b)];
    SumIsLeftFold([Val(a), OpItem('-'), Val(b)], '+', c, a);
    assert [Val(a), OpItem('-'), Val(b)] + [OpItem('+'), Val(c)] == [Val(a), OpItem('-'), Val(b), OpItem('+'), Val(c)];
  }

  /** `a / b / c` is `((1 * a) / b) / c`. */
  lemma TermGroupsLeft(a: Expr, b: Expr, c: Expr)
    ensures AsTerm([Val(a), OpItem('/'), Val(b), OpItem('/'), Val(c)]) == Div(Div(Mul(Int("1"), a), b), c)
  {
    TermIsLeftFold([], '*', a, a);
    TermIsLeftFold([Val(a)], '/', b, a);
    assert [Val(a)] + [OpItem('/'), Val(b)] == [Val(a), OpItem('/'), Val(b)];
    TermIsLeftFold([Val(a), OpItem('/'), Val(b)], '/', c, a);
    assert [Val(a), OpItem('/'), Val(b)] + [OpItem('/'), Val(c)] == [Val(a), OpItem('/'), Val(b), OpItem('/'), Val(c)];
  }

  /** `a ^ b ^ c` is `a ^ (b ^ (c ^ 1))`. */
  lemma PowerGroupsRight(a: Expr, b: Expr, c: Expr)
    ensures AsPower([Val(a), OpItem('^'), Val(b), OpItem('^'), Val(c)]) == Pow(a, Pow(b, Pow(c, Int("1"))))
  {
    PowerIsRightFold(b, [Val(c)], c);
    assert [Val(b), OpItem('^')] + [Val(c)] == [Val(b), OpItem('^'), Val(c)];
    PowerIsRightFold(a, [Val(b), OpItem('^'), Val(c)], c);
    assert [Val(a), OpItem('^')] + [Val(b), OpItem('^'), Val(c)] == [Val(a), OpItem('^'), Val(b), OpItem('^'), Val(c)];
  }
}
