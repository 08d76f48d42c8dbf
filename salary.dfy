/** The two salary estimators of main.py: `predict_salary`, used by both
    paginators, and `predict_rub_salary`, which nothing calls. */
module Salary {
  import opened Py

  /** A HeadHunter salary object: currency code and optional lower ("from") and upper ("to") bounds. */
  datatype SalaryRange = SalaryRange(currency: string, from: Option<real>, to: Option<real>)

  /** The bounds that `predict_salary` can turn into a number without raising:
      a truthy lower bound, or an upper bound that is not `None`. */
  predicate Estimable(from: Option<real>, to: Option<real>) {
    Truthy(from) || to.Some?
  }

  /** `predict_salary(salary_from, salary_to)`: 0.8 x upper when the lower bound is
      absent or zero, else 1.2 x lower when the upper bound is absent or zero, else
      the midpoint. `0.8 * None` raises, and the closing `return None` is never reached. */
  function PredictSalary(from: Option<real>, to: Option<real>): (r: Result<Option<real>>)
    ensures r != Ok(None)
    ensures r.Raise? <==> !Estimable(from, to)
    ensures r.Raise? ==> r.exc == TypeError
  {
    if !Truthy(from) then
      if to.None? then Raise(TypeError) else Ok(Some(0.8 * to.value))
    else if !Truthy(to) then
      Ok(Some(1.2 * from.value))
    else if Truthy(from) && to != Some(0.0) then
      Ok(Some((from.value + to.value) / 2.0))
    else
      Ok(None)
  }

  /** The intended estimate, with absent and zero both meaning "not specified":
      midpoint of two bounds, 1.2 x a lone lower bound, 0.8 x a lone upper bound,
      and no estimate without bounds. */
  function IntendedEstimate(from: Option<real>, to: Option<real>): Option<real> {
    if Truthy(from) && Truthy(to) then Some((from.value + to.value) / 2.0)
    else if Truthy(from) then Some(1.2 * from.value)
    else if Truthy(to) then Some(0.8 * to.value)
    else None
  }

  /** `predict_salary` gives the intended estimate whenever some bound is specified;
      with neither it does not answer "unknown": it raises when the upper bound is
      `None` and returns 0 when it is 0. */
  lemma PredictSalaryAsIntended(from: Option<real>, to: Option<real>)
    ensures Truthy(from) || Truthy(to) ==> PredictSalary(from, to) == Ok(IntendedEstimate(from, to))
    ensures !Truthy(from) && !Truthy(to) ==>
      IntendedEstimate(from, to) == None &&
      PredictSalary(from, to) == (if to.None? then Raise(TypeError) else Ok(Some(0.0)))
  {
  }

  /** With non-negative bounds the estimate is non-negative, and with two specified
      bounds in order it lies between them. */
  lemma PredictSalaryBounds(from: Option<real>, to: Option<real>)
    requires NonNegative(from) && NonNegative(to)
    ensures PredictSalary(from, to).Ok? ==> 0.0 <= PredictSalary(from, to).value.value
    ensures Truthy(from) && Truthy(to) && from.value <= to.value ==>
      from.value <= PredictSalary(from, to).value.value <= to.value
  {
  }

  /** `predict_rub_salary(vacancy)`: `None` unless the currency is "RUR"; for "RUR",
      the midpoint when the lower bound is truthy and the upper is not `None`, else
      0.8 x upper when the lower is `None` (raising when the upper is `None` too),
      else 1.2 x lower when the upper is `None`; a zero lower bound with an upper
      bound falls through every branch and yields `None`. */
  function PredictRubSalary(v: SalaryRange): (r: Result<Option<real>>)
    ensures r == Ok(None) <==> v.currency != "RUR" || (v.from == Some(0.0) && v.to.Some?)
    ensures r.Raise? <==> v.currency == "RUR" && v.from.None? && v.to.None?
    ensures r.Raise? ==> r.exc == TypeError
  {
    if v.currency == "RUR" then
      if Truthy(v.from) && v.to.Some? then
        Ok(Some((v.from.value + v.to.value) / 2.0))
      else if v.from.None? then
        if v.to.None? then Raise(TypeError) else Ok(Some(0.8 * v.to.value))
      else if v.to.None? then
        Ok(Some(1.2 * v.from.value))
      else
        Ok(None)
    else
      Ok(None)
  }

  /** On a rouble salary the two estimators agree unless the lower bound is zero, or
      a truthy lower bound comes with a zero upper bound. */
  lemma RubSalaryAgreesWithPredictSalary(v: SalaryRange)
    requires v.currency == "RUR" && v.from != Some(0.0) && !(Truthy(v.from) && v.to == Some(0.0))
    ensures PredictRubSalary(v) == PredictSalary(v.from, v.to)
  {
  }

  /** Where they differ: a truthy lower bound with a zero upper bound gives the
      midpoint with 0 instead of 1.2 x lower; a zero lower bound with an upper bound
      gives no estimate instead of 0.8 x upper; a zero lower bound without an upper
      bound gives 0 where `predict_salary` raises. */
  lemma RubSalaryDiffersOnZeroBounds(v: SalaryRange)
    requires v.currency == "RUR"
    ensures Truthy(v.from) && v.to == Some(0.0) ==>
      PredictRubSalary(v) == Ok(Some(v.from.value / 2.0)) &&
      PredictSalary(v.from, v.to) == Ok(Some(1.2 * v.from.value))
    ensures v.from == Some(0.0) && v.to.Some? ==>
      PredictRubSalary(v) == Ok(None) &&
      PredictSalary(v.from, v.to) == Ok(Some(0.8 * v.to.value))
    ensures v.from == Some(0.0) && v.to.None? ==>
      PredictRubSalary(v) == Ok(Some(0.0)) &&
      PredictSalary(v.from, v.to) == Raise(TypeError)
  {
  }
}
