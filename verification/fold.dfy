/**
 * The values the evaluator builds and the reduction actions that fold each
 * matched run of operands and operators into one value.
 *
 * The symbolic algebra the original hands these values to is not modelled:
 * every combinator is a tree constructor, so a result records exactly which
 * operation was applied to which operands, in which order.
 */
module Fold {

  /** A symbolic value, kept as the tree of operations that produced it. */
  datatype Expr =
    | Int(digits: string)      // sympy.Integer of an integer literal, kept as its digits
    | Flt(text: string)        // sympy.Float of a float literal, kept as its text
    | Sym(name: string)        // sympy.Symbol of an identifier
    | Add(a: Expr, b: Expr)
    | Sub(a: Expr, b: Expr)
    | Mul(a: Expr, b: Expr)
    | Div(a: Expr, b: Expr)    // true division
    | Pow(a: Expr, b: Expr)
    | Neg(a: Expr)             // unary minus
    | Call(fn: string, arg: Expr)

  /** One element of a matched run: an operator symbol or an already reduced operand. */
  datatype Item = OpItem(sym: char) | Val(e: Expr)

  /** The loop state of the generic fold: the running result and which combinator is selected. */
  datatype FoldState = FoldState(acc: Expr, useFirst: bool)

  /**
   * One iteration of the generic fold. An operator selects the first
   * combinator iff it is the production's own symbol; an operand is combined
   * with the running result, result first in a left fold and operand first in
   * a right fold.
   */
  function Step(st: FoldState, item: Item, spec: char, f1: (Expr, Expr) -> Expr,
                f2: (Expr, Expr) -> Expr, rev: bool): FoldState
  {
    match item
    case OpItem(c) => FoldState(st.acc, c == spec)
    case Val(x) =>
      var f := if st.useFirst then f1 else f2;
      FoldState(if rev then f(x, st.acc) else f(st.acc, x), st.useFirst)
  }

  /** The fold's loop, visiting `items` from first to last. */
  function Walk(st: FoldState, items: seq<Item>, spec: char, f1: (Expr, Expr) -> Expr,
                f2: (Expr, Expr) -> Expr, rev: bool): FoldState
    decreases |items|
  {
    if |items| == 0 then st
    else Walk(Step(st, items[0], spec, f1, f2, rev), items[1..], spec, f1, f2, rev)
  }

  function Reverse<T>(s: seq<T>): (r: seq<T>)
    ensures |r| == |s|
    ensures forall i :: 0 <= i < |s| ==> r[i] == s[|s| - 1 - i]
  {
    if |s| == 0 then [] else Reverse(s[1..]) + [s[0]]
  }

  /**
   * `_calc_tokens`: fold `items` from `seed`, left to right, or right to left
   * when `rev` holds.
   */
  function CalcTokens(items: seq<Item>, spec: char, f1: (Expr, Expr) -> Expr,
                      f2: (Expr, Expr) -> Expr, seed: Expr, rev: bool): Expr
  {
    Walk(FoldState(seed, true), if rev then Reverse(items) else items, spec, f1, f2, rev).acc
  }

  /** The operand/operator alternation every repeating production matches: operand, then (operator, operand) pairs. */
  predicate Chain(items: seq<Item>, ops: set<char>) {
    |items| % 2 == 1 &&
    (forall i :: 0 <= i < |items| && i % 2 == 0 ==> items[i].Val?) &&
    (forall i :: 0 <= i < |items| && i % 2 == 1 ==> items[i].OpItem? && items[i].sym in ops)
  }

  // The three uses of the fold.

  /** `_as_sum`: `+` selects addition, anything else subtraction, from seed 0. */
  function AsSum(items: seq<Item>): Expr {
    CalcTokens(items, '+', (a, b) => Add(a, b), (a, b) => Sub(a, b), Int("0"), false)
  }

  /** `_as_term`: `*` selects multiplication, anything else true division, from seed 1. */
  function AsTerm(items: seq<Item>): Expr {
    CalcTokens(items, '*', (a, b) => Mul(a, b), (a, b) => Div(a, b), Int("1"), false)
  }

  /**
   * `_as_power`: a right fold from seed 1 with `^`. The original passes no
   * second combinator; PowerSecondUnused shows none is ever selected, so any
   * function stands in for it.
   */
  function AsPower(items: seq<Item>): Expr {
    CalcTokens(items, '^', (a, b) => Pow(a, b), (a, b) => Pow(a, b), Int("1"), true)
  }

  /**
   * `_as_factor`: the run is the unary signs followed by the power value.
   * Starting from "keep the sign", every `-` toggles; the power value is
   * returned as is or negated.
   */
  function AsFactor(items: seq<Item>): Expr
    requires |items| > 0 && items[|items| - 1].Val?
  {
    var last := items[|items| - 1].e;
    if KeepSign(items, true) then last else Neg(last)
  }

  function KeepSign(items: seq<Item>, keep: bool): bool
    decreases |items|
  {
    if |items| == 0 then keep
    else KeepSign(items[1..], if items[0] == OpItem('-') then !keep else keep)
  }
}
