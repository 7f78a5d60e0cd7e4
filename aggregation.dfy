/** The per-language statistics and the dictionaries `get_hh_stats`
    (main.py:27-69) and `get_sj_stats` (main.py:72-123) return. */
module Aggregation {
  import opened Outcomes
  import opened Estimator
  import opened Vacancies
  import opened Pagination

  /** `{vacancies_found, vacancies_processed, average_salary}` of one language. */
  datatype LanguageStats = LanguageStats(vacanciesFound: int, vacanciesProcessed: nat, averageSalary: int)

  // ------------------------------------------------------ one language

  /** The statistics of one hh.ru query: `found` of page 0, the number of
      estimates and the truncated mean; `statistics.mean` raises on an
      empty list, so no estimate at all is an error. */
  function HhStats(rs: seq<Fetch<HhPage>>): (r: Result<LanguageStats>)
    requires HhEndsFrom(rs, 0)
    ensures r.Ok? ==> rs[0].Received? && r.value.vacanciesFound == rs[0].page.found
    ensures r.Ok? ==> 0 < r.value.vacanciesProcessed <= HhSeen(rs, 0)
    ensures r == Err(StatisticsError) <==> HhCollect(rs, 0) == Ok([])
  {
    var salaries :- HhCollect(rs, 0);
    if salaries == [] then Err(StatisticsError)
    else Ok(LanguageStats(rs[0].page.found, |salaries|, Trunc(Mean(salaries))))
  }

  /** The statistics of one SuperJob query: `total` of page 0 (captured
      even when that page is empty), the number of estimates and their
      truncated mean, or 0 when there is none. */
  function SjStats(rs: seq<Fetch<SjPage>>): (r: Result<LanguageStats>)
    requires SjEndsFrom(rs, 0)
    ensures r.Ok? ==> rs[0].Received? && r.value.vacanciesFound == rs[0].page.total
    ensures r.Ok? ==> r.value.vacanciesProcessed <= SjSeen(rs, 0)
    ensures r.Ok? && r.value.vacanciesProcessed == 0 ==> r.value.averageSalary == 0
    ensures r.Err? ==> r.error == TransportError
  {
    var salaries :- SjCollect(rs, 0);
    var average := if salaries != [] then Mean(salaries) else 0.0;
    Ok(LanguageStats(rs[0].page.total, |salaries|, Trunc(average)))
  }

  /** `vacancies_processed` of an hh.ru query is the number of accepted
      records on the fetched pages; a query whose pages all arrive and
      whose records do not raise fails only for want of an estimate. */
  lemma HhStatsProcessed(rs: seq<Fetch<HhPage>>)
    requires HhEndsFrom(rs, 0)
    ensures HhStats(rs).Ok? ==> HhStats(rs).value.vacanciesProcessed == HhUsable(rs, 0)
    ensures (forall j :: 0 <= j <= HhFirstStop(rs, 0) ==> rs[j].Received? && HhItems(rs[j].page.items).Ok?) ==>
      (HhStats(rs).Ok? <==> HhUsable(rs, 0) > 0)
  {
    HhCollectExact(rs, 0);
  }

  /** `vacancies_processed` of a SuperJob query is the number of accepted
      records on the fetched pages; the query succeeds exactly when every
      fetched page arrives. */
  lemma SjStatsProcessed(rs: seq<Fetch<SjPage>>)
    requires SjEndsFrom(rs, 0)
    ensures SjStats(rs).Ok? ==> SjStats(rs).value.vacanciesProcessed == SjUsable(rs, 0)
    ensures SjStats(rs).Ok? <==> forall j :: 0 <= j <= SjFirstStop(rs, 0) ==> rs[j].Received?
  {
    SjCollectExact(rs, 0);
  }

  /** No usable hh.ru estimate makes the query fail. */
  lemma HhNoEstimatesFails(rs: seq<Fetch<HhPage>>)
    requires HhEndsFrom(rs, 0) && HhCollect(rs, 0) == Ok([])
    ensures HhStats(rs) == Err(StatisticsError)
  {
  }

  /** An empty first SuperJob page gives its `total`, nothing processed and
      an average of 0, whatever its `more` flag. */
  lemma SjEmptyFirstPage(rs: seq<Fetch<SjPage>>)
    requires |rs| > 0 && rs[0].Received? && rs[0].page.objects == []
    ensures SjEndsFrom(rs, 0)
    ensures SjStats(rs) == Ok(LanguageStats(rs[0].page.total, 0, 0))
  {
    SjEmptyPageEnds(rs, 0);
  }

  /** If every hh.ru estimate lies in `[lo, hi]`, the average lies between
      the truncations of `lo` and `hi`. */
  lemma HhAverageWithin(rs: seq<Fetch<HhPage>>, lo: real, hi: real)
    requires HhEndsFrom(rs, 0) && HhCollect(rs, 0).Ok?
    requires forall k :: 0 <= k < |HhCollect(rs, 0).value| ==> lo <= HhCollect(rs, 0).value[k] <= hi
    requires HhStats(rs).Ok?
    ensures Trunc(lo) <= HhStats(rs).value.averageSalary
    ensures HhStats(rs).value.averageSalary <= Trunc(hi)
  {
    var s := HhCollect(rs, 0).value;
    MeanWithin(s, lo, hi);
    TruncMonotonic(lo, Mean(s));
    TruncMonotonic(Mean(s), hi);
  }

  /** If every SuperJob estimate lies in `[lo, hi]`, the average lies
      between the truncations of `lo` and `hi`. */
  lemma SjAverageWithin(rs: seq<Fetch<SjPage>>, lo: real, hi: real)
    requires SjEndsFrom(rs, 0) && SjCollect(rs, 0).Ok? && SjCollect(rs, 0).value != []
    requires forall k :: 0 <= k < |SjCollect(rs, 0).value| ==> lo <= SjCollect(rs, 0).value[k] <= hi
    ensures SjStats(rs).Ok?
    ensures Trunc(lo) <= SjStats(rs).value.averageSalary
    ensures SjStats(rs).value.averageSalary <= Trunc(hi)
  {
    var s := SjCollect(rs, 0).value;
    MeanWithin(s, lo, hi);
    TruncMonotonic(lo, Mean(s));
    TruncMonotonic(Mean(s), hi);
  }

  lemma TruncMonotonic(x: real, y: real)
    requires x <= y
    ensures Trunc(x) <= Trunc(y)
  {
    if x >= 0.0 {
      assert x.Floor <= y.Floor;
    } else if y < 0.0 {
      assert (-y).Floor <= (-x).Floor;
    }
  }

  /** With non-negative bounds on every page, the hh.ru average is non-negative. */
  lemma HhAverageNonNegative(rs: seq<Fetch<HhPage>>)
    requires HhEndsFrom(rs, 0) && HhPagesNonNegative(rs, 0) && HhStats(rs).Ok?
    ensures HhStats(rs).value.averageSalary >= 0
  {
    var s := HhCollect(rs, 0).value;
    HhCollectNonNegative(rs, 0);
    SumNonNegative(s);
  }

  /** With non-negative bounds on every page, the SuperJob average is non-negative. */
  lemma SjAverageNonNegative(rs: seq<Fetch<SjPage>>)
    requires SjEndsFrom(rs, 0) && SjPagesNonNegative(rs, 0) && SjStats(rs).Ok?
    ensures SjStats(rs).value.averageSalary >= 0
  {
    var s := SjCollect(rs, 0).value;
    SjCollectNonNegative(rs, 0);
    SumNonNegative(s);
  }

  /** Pages after the one that ends the hh.ru loop do not affect the statistics. */
  lemma HhStatsPrefix(rs: seq<Fetch<HhPage>>, n: nat)
    requires HhEndsFrom(rs, 0) && HhFirstStop(rs, 0) < n <= |rs|
    ensures HhEndsFrom(rs[..n], 0) && HhStats(rs[..n]) == HhStats(rs)
  {
    HhCollectPrefix(rs, 0, n);
    assert rs[..n][0] == rs[0];
  }

  /** Pages after the one that ends the SuperJob loop do not affect the statistics. */
  lemma SjStatsPrefix(rs: seq<Fetch<SjPage>>, n: nat)
    requires SjEndsFrom(rs, 0) && SjFirstStop(rs, 0) < n <= |rs|
    ensures SjEndsFrom(rs[..n], 0) && SjStats(rs[..n]) == SjStats(rs)
  {
    SjCollectPrefix(rs, 0, n);
    assert rs[..n][0] == rs[0];
  }

  /** The worked hh.ru example: two pages with estimates 1500, 1800 and 720. */
  lemma HhTwoPageExample()
    ensures var page0 := HhPage([HhVacancy(Some(HhSalary(Some(1000), Some(2000), "RUR"))),
                                 HhVacancy(Some(HhSalary(Some(1500), None, "RUR")))], 50, 2);
      var page1 := HhPage([HhVacancy(Some(HhSalary(None, Some(900), "RUR")))], 50, 2);
      var rs := [Received(page0), Received(page1)];
      HhEndsFrom(rs, 0) && HhStats(rs) == Ok(LanguageStats(50, 3, 1340))
  {
  }

  // --------------------------------------------------- the report

  /** The dictionary built by assigning each language's statistics in
      order; the first error aborts the whole run. */
  function Assemble(langs: seq<string>, results: seq<Result<LanguageStats>>): (r: Result<map<string, LanguageStats>>)
    requires |results| == |langs|
    ensures r.Ok? <==> forall i :: 0 <= i < |results| ==> results[i].Ok?
    ensures r.Ok? ==> r.value.Keys == set l | l in langs
  {
    if langs == [] then Ok(map[])
    else
      var n := |langs| - 1;
      var report :- Assemble(langs[..n], results[..n]);
      var stats :- results[n];
      assert langs == langs[..n] + [langs[n]];
      Ok(report[langs[n] := stats])
  }

  /** A language holds the statistics of its last occurrence in the input. */
  lemma {:induction false} AssembleLastWins(langs: seq<string>, results: seq<Result<LanguageStats>>, i: nat)
    requires |results| == |langs| && Assemble(langs, results).Ok?
    requires i < |langs| && langs[i] !in langs[i + 1..]
    ensures results[i].Ok? && Assemble(langs, results).value[langs[i]] == results[i].value
  {
    var n := |langs| - 1;
    if i < n {
      assert langs[..n][i + 1..] <= langs[i + 1..];
      assert langs[i] in langs[..n] by { assert langs[..n][i] == langs[i]; }
      assert langs[n] in langs[i + 1..] by { assert langs[i + 1..][n - i - 1] == langs[n]; }
      AssembleLastWins(langs[..n], results[..n], i);
    }
  }

  /** The run fails with the error of the first language whose query fails. */
  lemma {:induction false} AssembleFirstError(langs: seq<string>, results: seq<Result<LanguageStats>>, i: nat)
    requires |results| == |langs| && i < |langs| && results[i].Err?
    requires forall j :: 0 <= j < i ==> results[j].Ok?
    ensures Assemble(langs, results) == Err(results[i].error)
  {
    var n := |langs| - 1;
    if i < n {
      AssembleFirstError(langs[..n], results[..n], i);
    } else {
      assert Assemble(langs[..n], results[..n]).Ok?;
    }
  }

  /** The statistics of every hh.ru query, in input order; this only names
      the specification of `GetHhStats`. */
  function HhResults(runs: seq<seq<Fetch<HhPage>>>): (r: seq<Result<LanguageStats>>)
    requires forall i :: 0 <= i < |runs| ==> HhEndsFrom(runs[i], 0)
  {
    seq(|runs|, i requires 0 <= i < |runs| => HhStats(runs[i]))
  }

  /** The statistics of every SuperJob query, in input order; this only
      names the specification of `GetSjStats`. */
  function SjResults(runs: seq<seq<Fetch<SjPage>>>): (r: seq<Result<LanguageStats>>)
    requires forall i :: 0 <= i < |runs| ==> SjEndsFrom(runs[i], 0)
  {
    seq(|runs|, i requires 0 <= i < |runs| => SjStats(runs[i]))
  }

  // --------------------------------------------------- the loops

  /** The page loop of `get_hh_stats` for one language (main.py:32-68):
      `rs[page]` is what `get_response` returns for `page`. */
  method HhLanguageStats(rs: seq<Fetch<HhPage>>) returns (r: Result<LanguageStats>)
    requires HhEndsFrom(rs, 0)
    ensures r == HhStats(rs)
  {
    var salaries: seq<real> := [];
    var found := 0;
    var page := 0;
    PrependNothing(HhCollect(rs, 0));
    while true
      invariant page < |rs| && HhEndsFrom(rs, page)
      invariant HhCollect(rs, 0) == Prepend(salaries, HhCollect(rs, page))
      invariant page > 0 ==> rs[0].Received? && found == rs[0].page.found
      decreases |rs| - page
    {
      var response := rs[page];
      if response.Failed? {
        assert HhCollect(rs, page) == Err(TransportError);
        assert HhCollect(rs, 0) == Err(TransportError);
        return Err(TransportError);
      }
      var details := response.page;
      var calculated := HhPageEstimates(details.items);
      if calculated.Err? {
        assert HhCollect(rs, page) == Err(calculated.error);
        assert HhCollect(rs, 0) == Err(calculated.error);
        return Err(calculated.error);
      }
      if page == 0 {
        found := details.found;
      }
      var lastPage := details.pages - 1;
      if page >= lastPage {
        assert HhCollect(rs, page) == Ok(calculated.value);
        salaries := salaries + calculated.value;
        break;
      }
      HhCollectStep(rs, page);
      PrependPrepend(salaries, calculated.value, HhCollect(rs, page + 1));
      salaries := salaries + calculated.value;
      page := page + 1;
    }
    assert HhCollect(rs, 0) == Ok(salaries);
    if salaries == [] {
      return Err(StatisticsError);
    }
    r := Ok(LanguageStats(found, |salaries|, Trunc(Mean(salaries))));
  }

  /** The page loop of `get_sj_stats` for one language (main.py:77-122). */
  method SjLanguageStats(rs: seq<Fetch<SjPage>>) returns (r: Result<LanguageStats>)
    requires SjEndsFrom(rs, 0)
    ensures r == SjStats(rs)
  {
    var salaries: seq<real> := [];
    var found := 0;
    var page := 0;
    PrependNothing(SjCollect(rs, 0));
    while true
      invariant page < |rs| && SjEndsFrom(rs, page)
      invariant SjCollect(rs, 0) == Prepend(salaries, SjCollect(rs, page))
      invariant page > 0 ==> rs[0].Received? && found == rs[0].page.total
      decreases |rs| - page
    {
      var response := rs[page];
      if response.Failed? {
        assert SjCollect(rs, page) == Err(TransportError);
        assert SjCollect(rs, 0) == Err(TransportError);
        return Err(TransportError);
      }
      var details := response.page;
      if page == 0 {
        found := details.total;
      }
      if details.objects == [] {
        assert SjCollect(rs, page) == Ok([]);
        assert salaries + [] == salaries;
        break;
      }
      var calculated := SjPageEstimates(details.objects);
      if !details.more {
        assert SjCollect(rs, page) == Ok(calculated);
        salaries := salaries + calculated;
        break;
      }
      SjCollectStep(rs, page);
      PrependPrepend(salaries, calculated, SjCollect(rs, page + 1));
      salaries := salaries + calculated;
      page := page + 1;
    }
    assert SjCollect(rs, 0) == Ok(salaries);
    var average := if salaries != [] then Mean(salaries) else 0.0;
    r := Ok(LanguageStats(found, |salaries|, Trunc(average)));
  }

  /** `get_hh_stats(languages)`: `runs[i]` holds the responses of the query
      for `langs[i]`. */
  method GetHhStats(langs: seq<string>, runs: seq<seq<Fetch<HhPage>>>)
    returns (r: Result<map<string, LanguageStats>>)
    requires |runs| == |langs|
    requires forall i :: 0 <= i < |runs| ==> HhEndsFrom(runs[i], 0)
    ensures r == Assemble(langs, HhResults(runs))
  {
    ghost var results := HhResults(runs);
    var vacanciesStats: map<string, LanguageStats> := map[];
    var i := 0;
    while i < |langs|
      invariant 0 <= i <= |langs|
      invariant Assemble(langs[..i], results[..i]) == Ok(vacanciesStats)
    {
      var stats := HhLanguageStats(runs[i]);
      if stats.Err? {
        assert forall j :: 0 <= j < i ==> results[..i][j] == results[j];
        AssembleFirstError(langs, results, i);
        return Err(stats.error);
      }
      assert langs[..i + 1][..i] == langs[..i];
      assert results[..i + 1][..i] == results[..i];
      vacanciesStats := vacanciesStats[langs[i] := stats.value];
      i := i + 1;
    }
    assert langs[..i] == langs && results[..i] == results;
    r := Ok(vacanciesStats);
  }

  /** `get_sj_stats(languages, superjob_api_key)`: `runs[i]` holds the
      responses of the query for `langs[i]`. */
  method GetSjStats(langs: seq<string>, runs: seq<seq<Fetch<SjPage>>>)
    returns (r: Result<map<string, LanguageStats>>)
    requires |runs| == |langs|
    requires forall i :: 0 <= i < |runs| ==> SjEndsFrom(runs[i], 0)
    ensures r == Assemble(langs, SjResults(runs))
  {
    ghost var results := SjResults(runs);
    var vacanciesStats: map<string, LanguageStats> := map[];
    var i := 0;
    while i < |langs|
      invariant 0 <= i <= |langs|
      invariant Assemble(langs[..i], results[..i]) == Ok(vacanciesStats)
    {
      var stats := SjLanguageStats(runs[i]);
      if stats.Err? {
        assert forall j :: 0 <= j < i ==> results[..i][j] == results[j];
        AssembleFirstError(langs, results, i);
        return Err(stats.error);
      }
      assert langs[..i + 1][..i] == langs[..i];
      assert results[..i + 1][..i] == results[..i];
      vacanciesStats := vacanciesStats[langs[i] := stats.value];
      i := i + 1;
    }
    assert langs[..i] == langs && results[..i] == results;
    r := Ok(vacanciesStats);
  }
}
