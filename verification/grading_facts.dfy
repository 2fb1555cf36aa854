/**
 * Properties of grading and of the passed-problem list: an answer matches
 * itself, the verdict ignores what follows the evaluated prefix, recording a
 * pass is idempotent, and a run of passes lists each problem once, in the
 * order it was first passed.
 */
module GradingFacts {
  import opened Wrappers
  import opened Lexer
  import opened Parser
  import opened ParserFacts
  import opened Grading

  /**
   * Submitting the stored answer itself passes whenever it evaluates to a
   * value and equality of values is reflexive, as the algebra's structural
   * equality is.
   */
  lemma StoredAnswerPasses(prob: Problem, known: set<string>, same: (Stmt, Stmt) -> bool)
    requires Truthy(prob.answer) && Fpeval(prob.answer.value, known).Success?
    requires Fpeval(prob.answer.value, known).value.Value?
    requires forall e :: same(Value(e), Value(e))
    ensures CheckAnswer(prob, prob.answer, known, same) == Success(true)
  {
  }

  /**
   * An assignment is returned as a fresh group each time it is evaluated,
   * and such groups compare by identity, so equal to nothing the other side
   * evaluates to. A submitted assignment therefore never passes, not even
   * against the same stored text.
   */
  lemma AssignmentNeverPasses(prob: Problem, userans: string, known: set<string>, same: (Stmt, Stmt) -> bool)
    requires forall v: Stmt, w: Stmt :: v.Assign? ==> !same(v, w)
    requires Fpeval(userans, known).Success? && Fpeval(userans, known).value.Assign?
    ensures CheckAnswer(prob, Some(userans), known, same).Success? ==>
      CheckAnswer(prob, Some(userans), known, same) == Success(false)
  {
  }

  /**
   * With a symmetric equality, swapping the submitted and the stored answer
   * keeps the verdict whenever both evaluate.
   */
  lemma VerdictSymmetric(a: string, b: string, known: set<string>, same: (Stmt, Stmt) -> bool)
    requires forall v, w :: same(v, w) == same(w, v)
    requires Fpeval(a, known).Success? && Fpeval(b, known).Success?
    ensures CheckAnswer(Problem(Some(b)), Some(a), known, same) == CheckAnswer(Problem(Some(a)), Some(b), known, same)
  {
  }

  /** When both sides fail to evaluate, the submitted answer's error is the one reported. */
  lemma SubmittedErrorFirst(prob: Problem, userans: string, known: set<string>, same: (Stmt, Stmt) -> bool)
    requires Truthy(prob.answer) && |userans| > 0
    requires Fpeval(userans, known).Failure? && Fpeval(prob.answer.value, known).Failure?
    ensures CheckAnswer(prob, Some(userans), known, same) == Failure(Fpeval(userans, known).error)
  {
  }

  /**
   * Text after the first character that starts no token never changes the
   * verdict: `1+1 garbage` grades like `1+1`.
   */
  lemma VerdictIgnoresTail(prob: Problem, u: string, q: string, known: set<string>, same: (Stmt, Stmt) -> bool)
    requires |u| > 0 && |q| > 0 && IsInert(q[0])
    ensures CheckAnswer(prob, Some(u + q), known, same) == CheckAnswer(prob, Some(u), known, same)
  {
    EvalIgnoresTail(u, q, known);
  }

  // ---------------------------------------------------------------------------
  // the passed-problem list
  // ---------------------------------------------------------------------------

  /** Recording the same value twice is recording it once. */
  lemma AddIdempotent(user: Option<Account>, key: string, value: string)
    ensures AddToJsonColumn(AddToJsonColumn(user, key, value), key, value) == AddToJsonColumn(user, key, value)
  {
  }

  /** Recording a value leaves every entry where it was: old entries keep their positions. */
  lemma AddKeepsOrder(a: Account, value: string, i: nat)
    requires i < |a.passedprobs|
    ensures AddToJsonColumn(Some(a), "passedprobs", value).value.passedprobs[i] == a.passedprobs[i]
  {
  }

  /** Passes recorded one after another, in this order. */
  function RecordAll(user: Option<Account>, values: seq<string>): (r: Option<Account>)
    ensures r.Some? <==> user.Some?
    decreases |values|
  {
    if |values| == 0 then user
    else AddToJsonColumn(RecordAll(user, values[..|values| - 1]), "passedprobs", values[|values| - 1])
  }

  /** The position of the first occurrence of `x`. */
  function FirstIndex(vs: seq<string>, x: string): (i: nat)
    requires x in vs
    ensures i < |vs| && vs[i] == x
    ensures forall j :: 0 <= j < i ==> vs[j] != x
  {
    if vs[0] == x then 0 else 1 + FirstIndex(vs[1..], x)
  }

  /** A first occurrence inside a prefix stays the first occurrence when the sequence grows. */
  lemma FirstIndexExtend(vs: seq<string>, v: string, x: string)
    requires x in vs
    ensures x in vs + [v] && FirstIndex(vs + [v], x) == FirstIndex(vs, x)
  {
    var i := FirstIndex(vs, x);
    var k := FirstIndex(vs + [v], x);
    assert (vs + [v])[i] == x;
    assert k <= i < |vs|;
    assert vs[k] == x;
  }

  /** What a run of recorded passes leaves in the list of an account that held `start`. */
  predicate RecordedInOrder(start: seq<string>, values: seq<string>, r: seq<string>) {
    && start <= r
    && Distinct(r)
    && (forall v :: v in values ==> v in r)
    && (forall i :: |start| <= i < |r| ==> r[i] in values)
    && (forall i, j :: |start| <= i < j < |r| ==>
          (r[i] in values && r[j] in values && FirstIndex(values, r[i]) < FirstIndex(values, r[j])))
  }

  /**
   * Starting from a list without duplicates, recording the passes `values`
   * one by one keeps the old entries in front, lists every value exactly
   * once, and adds the new ones in the order of their first pass.
   */
  lemma {:induction false} RecordAllInOrder(start: seq<string>, values: seq<string>)
    requires Distinct(start)
    ensures RecordedInOrder(start, values, RecordAll(Some(Account(start)), values).value.passedprobs)
    decreases |values|
  {
    if |values| == 0 {
    } else {
      var init := values[..|values| - 1];
      var v := values[|values| - 1];
      assert values == init + [v];
      RecordAllInOrder(start, init);
      var before := RecordAll(Some(Account(start)), init).value.passedprobs;
      RecordStep(start, init, v, before);
    }
  }

  /** One more recorded pass keeps `RecordedInOrder`. */
  lemma RecordStep(start: seq<string>, init: seq<string>, v: string, before: seq<string>)
    requires RecordedInOrder(start, init, before)
    ensures RecordedInOrder(start, init + [v], AddToJsonColumn(Some(Account(before)), "passedprobs", v).value.passedprobs)
  {
    var values := init + [v];
    var after := AddToJsonColumn(Some(Account(before)), "passedprobs", v).value.passedprobs;
    forall x | x in init ensures x in values && FirstIndex(values, x) == FirstIndex(init, x) {
      FirstIndexExtend(init, v, x);
    }
    if v !in before {
      assert after == before + [v];
      assert v !in init;
      assert FirstIndex(values, v) == |init| by {
        assert values[|init|] == v;
      }
      forall i, j | |start| <= i < j < |after|
        ensures after[i] in values && after[j] in values && FirstIndex(values, after[i]) < FirstIndex(values, after[j])
      {
        if j == |before| {
          assert after[i] == before[i] && before[i] in init;
        } else {
          assert after[i] == before[i] && after[j] == before[j];
        }
      }
    }
  }

  // ---------------------------------------------------------------------------
  // submit
  // ---------------------------------------------------------------------------

  /**
   * For a signed-in user, after a graded submission the problem is in the
   * passed list iff the answer was right or it was already there.
   */
  lemma SubmitRecordsIffPassed(probs: map<string, Problem>, probno: string, userans: Option<string>,
                               a: Account, known: set<string>, same: (Stmt, Stmt) -> bool)
    requires Submit(probs, probno, userans, Some(a), known, same).Success?
    ensures var (verdict, after) := Submit(probs, probno, userans, Some(a), known, same).value;
      after.Some? && (probno in after.value.passedprobs <==> verdict || probno in a.passedprobs)
  {
  }

  /** Passing the same problem again leaves the account as the first pass left it. */
  lemma ResubmitChangesNothing(probs: map<string, Problem>, probno: string, userans: Option<string>,
                               user: Option<Account>, known: set<string>, same: (Stmt, Stmt) -> bool)
    ensures Submit(probs, probno, userans, user, known, same).Success? ==>
      var after := Submit(probs, probno, userans, user, known, same).value.1;
      Submit(probs, probno, userans, after, known, same) == Success((Submit(probs, probno, userans, user, known, same).value.0, after))
  {
    AddIdempotent(user, "passedprobs", probno);
  }
}
