/** Option and result types shared by the salary-statistics model. */
module Outcomes {

  /** A value that may be missing: Python's `None` versus a present value. */
  datatype Option<+T> = None | Some(value: T)

  /** The exceptions that can abort a run of `get_hh_stats` or `get_sj_stats`. */
  datatype Error =
    | TransportError   // `get_response`: the request failed or `raise_for_status` raised
    | TypeError        // `predict_rub_salary` evaluated `None * 0.8`
    | StatisticsError  // `statistics.mean` of an empty list

  /** The outcome of a computation that may raise one of the errors above. */
  datatype Result<+T> = Ok(value: T) | Err(error: Error) {
    predicate IsFailure() { Err? }

    function PropagateFailure<U>(): Result<U>
      requires Err?
    {
      Err(error)
    }

    function Extract(): T
      requires Ok?
    {
      value
    }
  }

  /** The elements `pre` followed by those of `rest`, unless `rest` failed. */
  function Prepend<T>(pre: seq<T>, rest: Result<seq<T>>): Result<seq<T>> {
    match rest
    case Ok(s) => Ok(pre + s)
    case Err(e) => Err(e)
  }

  lemma PrependNothing<T>(rest: Result<seq<T>>)
    ensures Prepend([], rest) == rest
  {
    if rest.Ok? { assert [] + rest.value == rest.value; }
  }

  lemma PrependPrepend<T>(a: seq<T>, b: seq<T>, rest: Result<seq<T>>)
    ensures Prepend(a, Prepend(b, rest)) == Prepend(a + b, rest)
  {
    if rest.Ok? { assert a + (b + rest.value) == (a + b) + rest.value; }
  }
}
