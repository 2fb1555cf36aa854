/**
 * An integer reading of the trees, the model's own: the original hands its
 * values to a symbolic algebra library, which is not modelled. It reads
 * integer literals, `+`, `-`, `*`, unary minus and non-negative powers, and
 * gives nothing for anything else. It exists to make the grouping the
 * folds build visible as numbers.
 */
module Interpret {
  import opened Wrappers
  import opened Lexer
  import opened Fold
  import opened FoldFacts

  /** `b` to the `n`th power. */
  function IntPow(b: int, n: nat): int
    decreases n
  {
    if n == 0 then 1 else b * IntPow(b, n - 1)
  }

  /** The integer a tree denotes, where it denotes one. */
  function IntValue(e: Expr): Option<int> {
    match e
    case Int(d) => if AllDigits(d) then Some(DigitsValue(d)) else None
    case Add(a, b) => Combine(IntValue(a), IntValue(b), (x, y) => x + y)
    case Sub(a, b) => Combine(IntValue(a), IntValue(b), (x, y) => x - y)
    case Mul(a, b) => Combine(IntValue(a), IntValue(b), (x, y) => x * y)
    case Neg(a) => if IntValue(a).Some? then Some(-IntValue(a).value) else None
    case Pow(a, b) =>
      if IntValue(a).Some? && IntValue(b).Some? && IntValue(b).value >= 0
      then Some(IntPow(IntValue(a).value, IntValue(b).value)) else None
    case _ => None
  }

  function Combine(x: Option<int>, y: Option<int>, f: (int, int) -> int): Option<int> {
    if x.Some? && y.Some? then Some(f(x.value, y.value)) else None
  }

  /** The integer literal of one digit. */
  function Digit(d: nat): (e: Expr)
    requires d < 10
    ensures IntValue(e) == Some(d)
  {
    var c := '0' + d as char;
    var t := [c];
    assert IsDigit(c) && DigitValue(c) == d;
    assert AllDigits(t) by {
      assert Digits.Has(t[0]);
    }
    assert t[..0] == [] && DigitsValue(t[..0]) == 0;
    assert DigitsValue(t) == d;
    Int(t)
  }

  /**
   * `2 ^ 3 ^ 2` folds to 2 ^ 9 = 512; grouping to the left would have given
   * (2 ^ 3) ^ 2 = 8 ^ 2 = 64.
   */
  lemma PowerChainValue()
    ensures IntValue(AsPower([Val(Digit(2)), OpItem('^'), Val(Digit(3)), OpItem('^'), Val(Digit(2))])) == Some(512)
  {
    PowerGroupsRight(Digit(2), Digit(3), Digit(2));
    assert IntValue(Int("1")) == Some(1) by {
      assert "1"[..0] == [];
    }
    assert IntPow(3, 2) == 9;
    assert IntPow(2, 9) == 512;
  }

  /** `7 - 2 + 1` folds to (7 - 2) + 1 = 6, where grouping to the right would give 7 - 3 = 4. */
  lemma SumChainValue()
    ensures IntValue(AsSum([Val(Digit(7)), OpItem('-'), Val(Digit(2)), OpItem('+'), Val(Digit(1))])) == Some(6)
  {
    SumGroupsLeft(Digit(7), Digit(2), Digit(1));
    assert IntValue(Int("0")) == Some(0) by {
      assert "0"[..0] == [];
    }
  }
}
