/** The salary estimator `predict_rub_salary` (main.py:17-24) and the
    arithmetic the aggregation applies to its results. */
module Estimator {
  import opened Outcomes

  /** Python truthiness of an optional integer bound: `None` and `0` are both false. */
  predicate Truthy(b: Option<int>) {
    b.Some? && b.value != 0
  }

  /** A bound that is absent or not negative. */
  predicate NonNegative(b: Option<int>) {
    b.Some? ==> b.value >= 0
  }

  /** `predict_rub_salary(salary_from, salary_to)`. Float arithmetic is
      modelled exactly by `real`. When `salary_from` is falsy the source
      evaluates `salary_to * 0.8`, which raises a TypeError for `None` and
      yields 0.0 for `0`. */
  function PredictRubSalary(salaryFrom: Option<int>, salaryTo: Option<int>): (r: Result<real>)
    ensures r.Err? <==> !Truthy(salaryFrom) && salaryTo.None?
    ensures r.Err? ==> r.error == TypeError
  {
    if Truthy(salaryFrom) && Truthy(salaryTo) then
      Ok((salaryFrom.value + salaryTo.value) as real / 2.0)
    else if Truthy(salaryFrom) then
      Ok(salaryFrom.value as real * 1.2)
    else if salaryTo.Some? then
      Ok(salaryTo.value as real * 0.8)
    else
      Err(TypeError)
  }

  /** Whenever at least one bound is present, the estimator does not raise. */
  lemma EstimateDefined(salaryFrom: Option<int>, salaryTo: Option<int>)
    requires Truthy(salaryFrom) || Truthy(salaryTo)
    ensures PredictRubSalary(salaryFrom, salaryTo).Ok?
  {
  }

  /** With non-negative bounds the estimate is non-negative. */
  lemma EstimateNonNegative(salaryFrom: Option<int>, salaryTo: Option<int>)
    requires NonNegative(salaryFrom) && NonNegative(salaryTo)
    requires PredictRubSalary(salaryFrom, salaryTo).Ok?
    ensures PredictRubSalary(salaryFrom, salaryTo).value >= 0.0
  {
  }

  /** With both bounds present and ordered, the estimate lies between them. */
  lemma EstimateWithinBounds(lo: int, hi: int)
    requires lo != 0 && hi != 0 && lo <= hi
    ensures PredictRubSalary(Some(lo), Some(hi)).Ok?
    ensures lo as real <= PredictRubSalary(Some(lo), Some(hi)).value <= hi as real
  {
  }

  /** A lone positive lower bound is raised by a fifth, a lone positive
      upper bound lowered by a fifth. */
  lemma EstimateOneSided(b: int)
    requires b > 0
    ensures PredictRubSalary(Some(b), None) == PredictRubSalary(Some(b), Some(0))
    ensures PredictRubSalary(Some(b), None).value > b as real
    ensures PredictRubSalary(None, Some(b)) == PredictRubSalary(Some(0), Some(b))
    ensures PredictRubSalary(None, Some(b)).value < b as real
  {
  }

  /** The worked examples of the estimator. */
  lemma EstimateExamples()
    ensures PredictRubSalary(Some(100), Some(200)) == Ok(150.0)
    ensures PredictRubSalary(Some(100), None) == Ok(120.0)
    ensures PredictRubSalary(None, Some(200)) == Ok(160.0)
    ensures PredictRubSalary(None, None) == Err(TypeError)
    ensures PredictRubSalary(Some(0), Some(0)) == Ok(0.0)
  {
  }

  /** The sum of a list of estimates. */
  function Sum(s: seq<real>): real {
    if s == [] then 0.0 else s[0] + Sum(s[1..])
  }

  /** `statistics.mean`, taken exactly. */
  function Mean(s: seq<real>): real
    requires s != []
  {
    Sum(s) / (|s| as real)
  }

  /** Python's `int()` on a float: truncation toward zero. */
  function Trunc(x: real): (n: int)
    ensures x >= 0.0 ==> 0 <= n && n as real <= x < n as real + 1.0
    ensures x < 0.0 ==> n <= 0 && n as real - 1.0 < x <= n as real
  {
    if x >= 0.0 then x.Floor else -((-x).Floor)
  }

  /** Bounds on every element bound the sum. */
  lemma {:induction false} SumWithin(s: seq<real>, lo: real, hi: real)
    requires forall k :: 0 <= k < |s| ==> lo <= s[k] <= hi
    ensures lo * (|s| as real) <= Sum(s) <= hi * (|s| as real)
  {
    if s != [] {
      SumWithin(s[1..], lo, hi);
      assert lo * (|s| as real) == lo + lo * (|s[1..]| as real);
      assert hi * (|s| as real) == hi + hi * (|s[1..]| as real);
    }
  }

  /** The mean lies between any lower and upper bound of the elements. */
  lemma MeanWithin(s: seq<real>, lo: real, hi: real)
    requires s != []
    requires forall k :: 0 <= k < |s| ==> lo <= s[k] <= hi
    ensures lo <= Mean(s) <= hi
  {
    SumWithin(s, lo, hi);
    var n := |s| as real;
    assert Mean(s) * n == Sum(s);
  }

  /** The sum of non-negative estimates is non-negative. */
  lemma {:induction false} SumNonNegative(s: seq<real>)
    requires forall k :: 0 <= k < |s| ==> s[k] >= 0.0
    ensures Sum(s) >= 0.0
  {
    if s != [] {
      SumNonNegative(s[1..]);
    }
  }
}
