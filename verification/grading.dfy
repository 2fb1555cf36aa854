/**
 * Grading a submission: a problem's stored answer against the submitted one,
 * and recording a pass in the user's list of passed problems. Value equality
 * of two evaluation results is the parameter `same`; the database, the web
 * request and the JSON encoding of the list are not modelled.
 */
module Grading {
  import opened Wrappers
  import opened Parser

  /** A problem, as far as grading sees it: its stored answer, possibly missing. */
  datatype Problem = Problem(answer: Option<string>)

  /** The account of a signed-in user; its one JSON list column holds the passed problem numbers. */
  datatype Account = Account(passedprobs: seq<string>)

  /** The columns of an account that hold a JSON list. */
  const JsonColumns: seq<string> := ["passedprobs"]

  /** Python truthiness of an optional string: present and not empty. */
  predicate Truthy(a: Option<string>) {
    a.Some? && |a.value| > 0
  }

  /**
   * `check_answer`: an empty or missing answer on either side is simply
   * wrong; otherwise the submitted answer is evaluated, then the stored one,
   * and the verdict is whether the two values are equal. An evaluation error
   * on either side is not caught.
   */
  function CheckAnswer(prob: Problem, userans: Option<string>, known: set<string>,
                       same: (Stmt, Stmt) -> bool): (r: Result<bool, EvalError>)
    ensures !Truthy(userans) || !Truthy(prob.answer) ==> r == Success(false)
    ensures r == Success(true) ==>
      Truthy(userans) && Truthy(prob.answer)
      && Fpeval(userans.value, known).Success? && Fpeval(prob.answer.value, known).Success?
      && same(Fpeval(userans.value, known).value, Fpeval(prob.answer.value, known).value)
    ensures Truthy(userans) && Truthy(prob.answer) ==>
      (r.Success? <==> Fpeval(userans.value, known).Success? && Fpeval(prob.answer.value, known).Success?)
    ensures Truthy(userans) && Truthy(prob.answer) && Fpeval(userans.value, known).Failure? ==>
      r == Failure(Fpeval(userans.value, known).error)
    ensures (Truthy(userans) && Truthy(prob.answer) && Fpeval(userans.value, known).Success?
             && Fpeval(prob.answer.value, known).Failure?) ==>
      r == Failure(Fpeval(prob.answer.value, known).error)
    ensures (Truthy(userans) && Truthy(prob.answer)
             && Fpeval(userans.value, known).Success? && Fpeval(prob.answer.value, known).Success?) ==>
      r == Success(same(Fpeval(userans.value, known).value, Fpeval(prob.answer.value, known).value))
  {
    if !Truthy(userans) || !Truthy(prob.answer) then Success(false)
    else
      match Fpeval(userans.value, known)
      case Failure(e) => Failure(e)
      case Success(mine) =>
        match Fpeval(prob.answer.value, known)
        case Failure(e) => Failure(e)
        case Success(theirs) => Success(same(mine, theirs))
  }

  /** No duplicate entries. */
  predicate Distinct(s: seq<string>) {
    forall i, j :: 0 <= i < j < |s| ==> s[i] != s[j]
  }

  /**
   * `add_to_json_column` on the list of an account: the value is appended
   * unless it is already there. Without an account, or for a key that is not
   * a JSON list column, nothing changes.
   */
  function AddToJsonColumn(user: Option<Account>, key: string, value: string): (r: Option<Account>)
    ensures user.None? || key !in JsonColumns ==> r == user
    ensures user.Some? && key in JsonColumns ==>
      r.Some? && value in r.value.passedprobs
      && user.value.passedprobs <= r.value.passedprobs
      && |r.value.passedprobs| <= |user.value.passedprobs| + 1
      && (value in user.value.passedprobs <==> r == user)
      && (Distinct(user.value.passedprobs) ==> Distinct(r.value.passedprobs))
  {
    if user.Some? && key in JsonColumns then
      var updated := user.value.passedprobs;
      Some(Account(if value in updated then updated else updated + [value]))
    else user
  }

  /** Why a submission failed. */
  datatype SubmitError =
    | NoSuchProblem          // the problem lookup gave nothing to grade against
    | Evaluation(error: EvalError)

  /**
   * The pass-recording part of `submit`: look the problem up by number, as
   * `get_prob` does, grade the answer and, iff the verdict is true, add the
   * problem number to the user's passed list. The verdict is returned with
   * the account as it is afterwards.
   */
  function Submit(probs: map<string, Problem>, probno: string, userans: Option<string>,
                  user: Option<Account>, known: set<string>,
                  same: (Stmt, Stmt) -> bool): (r: Result<(bool, Option<Account>), SubmitError>)
    ensures probno !in probs ==> r == Failure(NoSuchProblem)
    ensures r.Failure? ==> probno !in probs || CheckAnswer(probs[probno], userans, known, same).Failure?
    ensures probno in probs && CheckAnswer(probs[probno], userans, known, same).Failure? ==>
      r == Failure(Evaluation(CheckAnswer(probs[probno], userans, known, same).error))
    ensures r.Success? ==>
      probno in probs && CheckAnswer(probs[probno], userans, known, same).Success?
      && r.value.0 == CheckAnswer(probs[probno], userans, known, same).value
      && (r.value.0 ==> r.value.1 == AddToJsonColumn(user, "passedprobs", probno))
      && (!r.value.0 ==> r.value.1 == user)
  {
    if probno !in probs then Failure(NoSuchProblem)
    else
      match CheckAnswer(probs[probno], userans, known, same)
      case Failure(e) => Failure(Evaluation(e))
      case Success(verdict) =>
        Success((verdict, if verdict then AddToJsonColumn(user, "passedprobs", probno) else user))
  }
}
