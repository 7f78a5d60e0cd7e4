/** The per-source record filters: the inner loops of `get_hh_stats`
    (main.py:42-53) and `get_sj_stats` (main.py:96-107), which decide which
    vacancy records of one page contribute a salary estimate. */
module Vacancies {
  import opened Outcomes
  import opened Estimator

  /** The currency code each source uses for roubles. */
  const HhCurrency: string := "RUR"
  const SjCurrency: string := "rub"

  /** The `salary` object of an hh.ru vacancy. */
  datatype HhSalary = HhSalary(salaryFrom: Option<int>, salaryTo: Option<int>, currency: string)

  /** An hh.ru vacancy; its `salary` is `None` when the employer gave none. */
  datatype HhVacancy = HhVacancy(salary: Option<HhSalary>)

  /** A SuperJob vacancy with its payment bounds and currency. */
  datatype SjVacancy = SjVacancy(paymentFrom: Option<int>, paymentTo: Option<int>, currency: string)

  /** An hh.ru vacancy passes the filter: it has a salary in roubles. */
  predicate HhAccepted(v: HhVacancy) {
    v.salary.Some? && v.salary.value.currency == HhCurrency
  }

  /** A SuperJob vacancy passes the filter: it is paid in roubles and
      names at least one non-zero bound. */
  predicate SjAccepted(v: SjVacancy) {
    v.currency == SjCurrency && (Truthy(v.paymentFrom) || Truthy(v.paymentTo))
  }

  /** What one hh.ru vacancy contributes: no estimate, one estimate, or the
      TypeError raised when a rouble salary has a falsy lower bound and no
      upper bound. */
  function HhEstimate(v: HhVacancy): (r: Result<Option<real>>)
    ensures r == Ok(None) <==> !HhAccepted(v)
    ensures r.Ok? && r.value.Some? ==>
      PredictRubSalary(v.salary.value.salaryFrom, v.salary.value.salaryTo) == Ok(r.value.value)
    ensures r.Err? ==> HhAccepted(v) && r.error == TypeError
    ensures r.Err? ==> PredictRubSalary(v.salary.value.salaryFrom, v.salary.value.salaryTo) == Err(r.error)
    ensures HhAccepted(v) ==>
      (r.Err? <==> PredictRubSalary(v.salary.value.salaryFrom, v.salary.value.salaryTo).Err?)
  {
    match v.salary
    case None => Ok(None)
    case Some(salary) =>
      if salary.currency != HhCurrency then Ok(None)
      else
        var calculated :- PredictRubSalary(salary.salaryFrom, salary.salaryTo);
        Ok(Some(calculated))
  }

  /** What one SuperJob vacancy contributes. The filter's guard ensures that
      the estimator is never reached with both bounds falsy, so it never raises. */
  function SjEstimate(v: SjVacancy): (r: Option<real>)
    ensures r.Some? <==> SjAccepted(v)
    ensures r.Some? ==> PredictRubSalary(v.paymentFrom, v.paymentTo) == Ok(r.value)
  {
    if v.currency != SjCurrency then None
    else if !Truthy(v.paymentFrom) && !Truthy(v.paymentTo) then None
    else Some(PredictRubSalary(v.paymentFrom, v.paymentTo).value)
  }

  function OptionToSeq(o: Option<real>): seq<real> {
    if o.Some? then [o.value] else []
  }

  /** The number of records among `items` that pass the hh.ru filter. */
  function HhAcceptedCount(items: seq<HhVacancy>): nat {
    if items == [] then 0 else (if HhAccepted(items[0]) then 1 else 0) + HhAcceptedCount(items[1..])
  }

  /** The number of records among `objects` that pass the SuperJob filter. */
  function SjAcceptedCount(objects: seq<SjVacancy>): nat {
    if objects == [] then 0 else (if SjAccepted(objects[0]) then 1 else 0) + SjAcceptedCount(objects[1..])
  }

  /** The estimates appended for one hh.ru page, in item order; fails with
      the first record's error. */
  function HhItems(items: seq<HhVacancy>): (r: Result<seq<real>>)
    ensures r.Ok? ==> |r.value| == HhAcceptedCount(items) <= |items|
    ensures r.Err? <==> exists k :: 0 <= k < |items| && HhEstimate(items[k]).Err?
    ensures r.Err? ==> r.error == TypeError
  {
    if items == [] then Ok([])
    else
      var e :- HhEstimate(items[0]);
      Prepend(OptionToSeq(e), HhItems(items[1..]))
  }

  /** The estimates appended for one SuperJob page, in item order. */
  function SjItems(objects: seq<SjVacancy>): (r: seq<real>)
    ensures |r| == SjAcceptedCount(objects) <= |objects|
  {
    if objects == [] then [] else OptionToSeq(SjEstimate(objects[0])) + SjItems(objects[1..])
  }

  /** Every accepted hh.ru record's estimate sits in the result at the
      position given by the number of accepted records before it. */
  lemma {:induction false} HhItemsOrder(items: seq<HhVacancy>, j: nat)
    requires HhItems(items).Ok? && j < |items| && HhAccepted(items[j])
    ensures HhEstimate(items[j]).Ok? && HhEstimate(items[j]).value.Some?
    ensures HhAcceptedCount(items[..j]) < |HhItems(items).value|
    ensures HhItems(items).value[HhAcceptedCount(items[..j])] == HhEstimate(items[j]).value.value
  {
    var e := HhEstimate(items[0]);
    assert e.Ok?;
    assert HhItems(items) == Prepend(OptionToSeq(e.value), HhItems(items[1..]));
    if j == 0 {
      assert items[..0] == [];
    } else {
      HhItemsOrder(items[1..], j - 1);
      assert items[..j][0] == items[0];
      assert items[..j][1..] == items[1..][..j - 1];
    }
  }

  /** Every accepted SuperJob record's estimate sits in the result at the
      position given by the number of accepted records before it. */
  lemma {:induction false} SjItemsOrder(objects: seq<SjVacancy>, j: nat)
    requires j < |objects| && SjAccepted(objects[j])
    ensures SjAcceptedCount(objects[..j]) < |SjItems(objects)|
    ensures SjItems(objects)[SjAcceptedCount(objects[..j])] == SjEstimate(objects[j]).value
  {
    if j == 0 {
      assert objects[..0] == [];
    } else {
      SjItemsOrder(objects[1..], j - 1);
      assert objects[..j][0] == objects[0];
      assert objects[..j][1..] == objects[1..][..j - 1];
    }
  }

  /** The bounds of an hh.ru vacancy are absent or non-negative. */
  predicate HhNonNegative(v: HhVacancy) {
    v.salary.Some? ==> NonNegative(v.salary.value.salaryFrom) && NonNegative(v.salary.value.salaryTo)
  }

  /** The bounds of a SuperJob vacancy are absent or non-negative. */
  predicate SjNonNegative(v: SjVacancy) {
    NonNegative(v.paymentFrom) && NonNegative(v.paymentTo)
  }

  lemma {:induction false} HhItemsNonNegative(items: seq<HhVacancy>)
    requires forall k :: 0 <= k < |items| ==> HhNonNegative(items[k])
    requires HhItems(items).Ok?
    ensures forall k :: 0 <= k < |HhItems(items).value| ==> HhItems(items).value[k] >= 0.0
  {
    if items != [] {
      var e := HhEstimate(items[0]);
      if e.value.Some? {
        EstimateNonNegative(items[0].salary.value.salaryFrom, items[0].salary.value.salaryTo);
      }
      HhItemsNonNegative(items[1..]);
    }
  }

  lemma {:induction false} SjItemsNonNegative(objects: seq<SjVacancy>)
    requires forall k :: 0 <= k < |objects| ==> SjNonNegative(objects[k])
    ensures forall k :: 0 <= k < |SjItems(objects)| ==> SjItems(objects)[k] >= 0.0
  {
    if objects != [] {
      var e := SjEstimate(objects[0]);
      if e.Some? {
        EstimateNonNegative(objects[0].paymentFrom, objects[0].paymentTo);
      }
      SjItemsNonNegative(objects[1..]);
    }
  }

  /** One step of `HhItems` on a suffix of the page. */
  lemma HhItemsAt(items: seq<HhVacancy>, j: nat)
    requires j < |items|
    ensures HhEstimate(items[j]).Err? ==> HhItems(items[j..]) == Err(HhEstimate(items[j]).error)
    ensures HhEstimate(items[j]).Ok? ==>
      HhItems(items[j..]) == Prepend(OptionToSeq(HhEstimate(items[j]).value), HhItems(items[j + 1..]))
  {
    assert items[j..][0] == items[j] && items[j..][1..] == items[j + 1..];
  }

  /** One step of `SjItems` on a suffix of the page. */
  lemma SjItemsAt(objects: seq<SjVacancy>, j: nat)
    requires j < |objects|
    ensures SjItems(objects[j..]) == OptionToSeq(SjEstimate(objects[j])) + SjItems(objects[j + 1..])
  {
    assert objects[j..][0] == objects[j] && objects[j..][1..] == objects[j + 1..];
  }

  /** The loop over the items of one hh.ru page (main.py:42-53). */
  method HhPageEstimates(items: seq<HhVacancy>) returns (r: Result<seq<real>>)
    ensures r == HhItems(items)
  {
    var salaries: seq<real> := [];
    var j := 0;
    PrependNothing(HhItems(items));
    while j < |items|
      invariant 0 <= j <= |items|
      invariant HhItems(items) == Prepend(salaries, HhItems(items[j..]))
    {
      var vacancy := items[j];
      HhItemsAt(items, j);
      var salary := vacancy.salary;
      if salary.Some? && salary.value.currency == HhCurrency {
        var calculated := PredictRubSalary(salary.value.salaryFrom, salary.value.salaryTo);
        if calculated.Err? {
          assert HhEstimate(vacancy) == Err(calculated.error);
          assert HhItems(items[j..]) == Err(calculated.error);
          assert Prepend(salaries, Err(calculated.error)) == Err(calculated.error);
          return Err(calculated.error);
        }
        assert OptionToSeq(HhEstimate(vacancy).value) == [calculated.value];
        PrependPrepend(salaries, [calculated.value], HhItems(items[j + 1..]));
        salaries := salaries + [calculated.value];
      } else {
        assert OptionToSeq(HhEstimate(vacancy).value) == [];
        PrependPrepend(salaries, [], HhItems(items[j + 1..]));
        assert salaries + [] == salaries;
      }
      j := j + 1;
    }
    assert items[j..] == [];
    assert Prepend(salaries, HhItems([])) == Ok(salaries + []);
    assert salaries + [] == salaries;
    r := Ok(salaries);
  }

  /** The loop over the objects of one SuperJob page (main.py:96-107). */
  method SjPageEstimates(objects: seq<SjVacancy>) returns (salaries: seq<real>)
    ensures salaries == SjItems(objects)
  {
    salaries := [];
    var j := 0;
    while j < |objects|
      invariant 0 <= j <= |objects|
      invariant SjItems(objects) == salaries + SjItems(objects[j..])
    {
      var vacancy := objects[j];
      SjItemsAt(objects, j);
      ghost var before := salaries;
      if vacancy.currency == SjCurrency {
        var salaryFrom := vacancy.paymentFrom;
        var salaryTo := vacancy.paymentTo;
        if Truthy(salaryFrom) || Truthy(salaryTo) {
          var calculated := PredictRubSalary(salaryFrom, salaryTo);
          salaries := salaries + [calculated.value];
        }
      }
      assert salaries == before + OptionToSeq(SjEstimate(vacancy));
      j := j + 1;
    }
    assert objects[j..] == [];
  }
}
