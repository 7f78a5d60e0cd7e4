# Average salaries by programming language (hh.ru and SuperJob)

A Dafny model of the salary-statistics pipeline of `main.py`. For each language, the program asks a job board for every page of vacancies. It turns each usable vacancy's salary bounds into one rouble estimate and reports, per language, the number of vacancies the board found, the number it could use, and the truncated mean of the estimates.

Modules, leaf to root:

- `Outcomes` — `Option`, `Result` and the three exceptions that abort a run: a failed request, the `TypeError` of `None * 0.8`, and the `StatisticsError` of `statistics.mean([])`.
- `Estimator` — `predict_rub_salary` with Python truthiness on the bounds, and `Sum`, `Mean` and `Trunc`. `Trunc` is `int()` on a float: truncation toward zero.
- `Vacancies` — the record filters of both boards and the two loops over the records of one page.
- `Pagination` — the page responses, the stop rule of each board, the first stopping page, and the estimates collected over the fetched pages.
- `Aggregation` — the per-language statistics, the page loop of each board, and the loop over languages that builds the result dictionary.

Network access is replaced by data. `get_response` for page `p` of a query becomes `rs[p]`, a `Fetch` value: either the decoded body or `Failed`. A run over several languages takes one such sequence per language. Each page loop requires that some page in its sequence ends the loop. Given that, the loop terminates by `decreases |rs| - page`. The prefix lemmas show that no page after the first stopping page is ever read.

Three behaviours of the code are worth spelling out, because they are easy to misread:

- `predict_rub_salary` never returns `None`. When the lower bound is falsy, it evaluates `salary_to * 0.8`. With `salary_to` being `None`, that raises a TypeError. The hh.ru filter does not guard against this, so such a record aborts the run (`Err(TypeError)`). The SuperJob filter skips records whose bounds are both falsy, so the error cannot happen there (`SjEstimate`).
- A zero bound can still produce an estimate: `(None, 0)` and `(0, 0)` give `0.0`, and the hh.ru filter appends it.
- An hh.ru query with no usable estimate calls `statistics.mean([])`, which raises. The model fails with `StatisticsError`. A SuperJob query with no usable estimate reports an average of 0.

## Model

| member | source | states |
|---|---|---|
| Estimator.PredictRubSalary | main.py:17-24 | the estimator raises exactly when the lower bound is falsy and the upper bound is `None`, and the error is a TypeError |
| Estimator.EstimateDefined | main.py:17-24 | if at least one bound is truthy, the estimator returns a value |
| Estimator.EstimateNonNegative | main.py:17-24 | with absent or non-negative bounds, every estimate is non-negative |
| Estimator.EstimateWithinBounds | main.py:18-20 | with both bounds present and `from <= to`, the estimate lies in `[from, to]` |
| Estimator.EstimateOneSided | main.py:21-24 | a lone positive bound has the same effect as that bound paired with 0; the estimate is above a lone lower bound and below a lone upper bound |
| Estimator.EstimateExamples | main.py:17-24 | (100,200) gives 150, (100,None) gives 120, (None,200) gives 160, (None,None) raises TypeError, (0,0) gives 0 |
| Estimator.Trunc | main.py:67 | `int()` truncates toward zero: the result is within 1 of `x` and on the same side of 0 as `x` |
| Estimator.MeanWithin | main.py:63 | `Mean` (with `Sum`) stands for `statistics.mean`, here and at main.py:115; the mean of a non-empty list lies between any lower and upper bound of its elements |
| Estimator.SumNonNegative | main.py:63 | the sum of non-negative estimates is non-negative |
| Vacancies.HhEstimate | main.py:43-53 | `HhAccepted` is the filter of main.py:44-48; a record gets no estimate exactly when it is not accepted; an accepted record fails exactly when the estimator raises, with the estimator's TypeError, and otherwise gets the estimator's value |
| Vacancies.SjEstimate | main.py:97-107 | `SjAccepted` is the filter of main.py:98-104; a record gets an estimate exactly when its currency is `rub` and one of its bounds is truthy; the estimator then never raises |
| Vacancies.HhItems | main.py:42-53 | a page's estimate list has one entry per accepted record, so it is no longer than the page; it fails exactly when some record raises, and then with a TypeError |
| Vacancies.SjItems | main.py:96-107 | a page's estimate list has one entry per accepted record, so it is no longer than the page |
| Vacancies.HhItemsOrder | main.py:42-53 | each accepted hh.ru record's estimate sits at the position equal to the number of accepted records before it (item order) |
| Vacancies.SjItemsOrder | main.py:96-107 | each accepted SuperJob record's estimate sits at the position equal to the number of accepted records before it (item order) |
| Vacancies.HhItemsNonNegative | main.py:42-53 | with non-negative bounds on a page, all its hh.ru estimates are non-negative |
| Vacancies.SjItemsNonNegative | main.py:96-107 | with non-negative bounds on a page, all its SuperJob estimates are non-negative |
| Vacancies.HhPageEstimates | main.py:42-53 | the loop over one hh.ru page computes the page's estimate list or its first error |
| Vacancies.SjPageEstimates | main.py:96-107 | the loop over one SuperJob page computes the page's estimate list |
| Pagination.HhFirstStop | main.py:58-61 | `HhStops` is the rule of main.py:58-59; the result is the first page `k` whose request failed or with `k >= pages - 1`, past which no page is read; a TypeError on a record (main.py:52) can end the loop on an earlier page, which `HhCollect` models |
| Pagination.HhCollect | main.py:35-61 | if collection succeeds, every page up to the stopping page was received, and the estimates number at most the records on those pages; a failure is a transport error or a TypeError |
| Pagination.HhCollectExact | main.py:35-61 | the hh.ru collection succeeds exactly when every fetched page was received and none of its records raised; it then holds one estimate per accepted record on those pages (`HhUsable`) |
| Pagination.HhCollectPrefix | main.py:35-61 | pages after the first stopping page do not change the hh.ru collection or the stopping page |
| Pagination.HhSinglePage | main.py:58-61 | a first page reporting `pages` of 0 or 1 gives exactly one iteration, which collects that page's estimates |
| Pagination.HhThreePages | main.py:58-61 | with three pages reporting `pages = 3`, the stop rule first holds at page 2, so no page after page 2 is fetched; a raising record can end the loop earlier |
| Pagination.HhThreePagesCollect | main.py:35-61 | when no record on them raises, three pages reporting `pages = 3` are all collected, in page order, and nothing else is |
| Pagination.HhCollectNonNegative | main.py:35-61 | with non-negative bounds on all pages, all collected hh.ru estimates are non-negative |
| Pagination.SjFirstStop | main.py:92-112 | `SjStops` is the rule of main.py:93 and 110; the result is the first page whose request failed, whose `objects` is empty or whose `more` is false |
| Pagination.SjCollect | main.py:80-112 | if collection succeeds, every page up to the stopping page was received, and the estimates number at most the records on those pages; the only error is a transport error |
| Pagination.SjCollectExact | main.py:80-112 | the SuperJob collection succeeds exactly when every fetched page was received; it then holds one estimate per accepted record on those pages (`SjUsable`), an empty page counting none |
| Pagination.SjCollectPrefix | main.py:80-112 | pages after the first stopping page do not change the SuperJob collection or the stopping page |
| Pagination.SjEmptyPageEnds | main.py:92-94 | a page with no objects ends the SuperJob loop whatever `more` says, and contributes nothing |
| Pagination.SjCollectNonNegative | main.py:80-112 | with non-negative bounds on all pages, all collected SuperJob estimates are non-negative |
| Aggregation.HhStats | main.py:55-68 | hh.ru statistics report page 0's `found`, and between 1 and the number of fetched records as processed; the query fails with StatisticsError exactly when the collection succeeds with no estimate |
| Aggregation.SjStats | main.py:89-122 | SuperJob statistics report page 0's `total`, at most the number of fetched records as processed, and average 0 when nothing was processed; the only error is a transport error |
| Aggregation.HhStatsProcessed | main.py:63-68 | `vacancies_processed` equals the number of accepted records on the fetched pages; with every page received and no record raising, the query succeeds exactly when that number is positive |
| Aggregation.SjStatsProcessed | main.py:114-122 | `vacancies_processed` equals the number of accepted records on the fetched pages; the query succeeds exactly when every fetched page was received |
| Aggregation.HhNoEstimatesFails | main.py:63 | an hh.ru query with no usable estimate fails with StatisticsError |
| Aggregation.SjEmptyFirstPage | main.py:89-94 | an empty first SuperJob page gives its `total`, 0 processed and average 0, whatever `more` says |
| Aggregation.HhAverageWithin | main.py:63-67 | the hh.ru average lies between the truncations of any lower and upper bound of the estimates |
| Aggregation.SjAverageWithin | main.py:114-121 | the SuperJob average lies between the truncations of any lower and upper bound of a non-empty list of estimates |
| Aggregation.TruncMonotonic | main.py:67 | truncation toward zero is monotonic |
| Aggregation.HhAverageNonNegative | main.py:63-67 | with non-negative bounds on all pages, the hh.ru average is non-negative |
| Aggregation.SjAverageNonNegative | main.py:114-121 | with non-negative bounds on all pages, the SuperJob average is non-negative |
| Aggregation.HhStatsPrefix | main.py:31-68 | the hh.ru statistics depend only on pages 0 to the stopping page |
| Aggregation.SjStatsPrefix | main.py:76-122 | the SuperJob statistics depend only on pages 0 to the stopping page |
| Aggregation.HhTwoPageExample | main.py:31-68 | two hh.ru pages with estimates 1500, 1800 and 720 report found 50, processed 3, average 1340 |
| Aggregation.Assemble | main.py:64-69 | the report is produced exactly when every language's query succeeds, and its keys are exactly the input languages |
| Aggregation.AssembleLastWins | main.py:64 | each language maps to the statistics of its last occurrence in the input |
| Aggregation.AssembleFirstError | main.py:31-69 | a run fails with the error of the first language whose query fails |
| Aggregation.HhLanguageStats | main.py:32-68 | the hh.ru page loop with its first-page capture of `found` computes the hh.ru statistics |
| Aggregation.SjLanguageStats | main.py:77-122 | the SuperJob page loop with its first-page capture of `total` computes the SuperJob statistics |
| Aggregation.GetHhStats | main.py:27-69 | the loop over languages builds the hh.ru report, or the first error |
| Aggregation.GetSjStats | main.py:72-123 | the loop over languages builds the SuperJob report, or the first error |

## Left out

- `get_response` (main.py:11-14) is not modelled as code. HTTP, TLS with verification disabled, and `raise_for_status` become the supplied `Fetch` sequences; a `Failed` entry is any exception it raises.
- `main` (main.py:126-145) is left out: `load_dotenv`, the environment variable, warning suppression, the language tuple, `print` and writing `description.json` are I/O and configuration.
- The query parameters and headers (main.py:36-37, 81-85) are left out. This includes the SuperJob API key, which only travels in a header. The model assumes each language's responses are given.
- The `print(f'{lang} Ok')` lines (main.py:60, 111) are console output only.
- `/ 2`, `* 1.2`, `* 0.8` and `statistics.mean` use IEEE floats in the source. The model uses exact `real` arithmetic, so it does not capture rounding.
- Decoding the JSON body, and a `KeyError` for a missing key, are outside the model. Every page carries the fields the code reads.
- An hh.ru `salary` that is an empty dictionary (falsy) cannot be expressed. `salary` is either `None` or carries `from`, `to` and `currency`.
- Bounds that are floats or other non-integer JSON values are not modelled. Bounds are optional integers.
- The result dictionary is a `map`, so its insertion order is not modelled. Each language in the input is a key, and a repeated language holds its last statistics, as with dictionary assignment.
- A board that never signals the last page makes the source loop forever, unless a request fails or, on hh.ru, a record raises TypeError. The model requires each response sequence to contain a stopping page. It does not model the unbounded case.
- The loops over languages and pages are split into one method per language and one per report. The estimator and `statistics.mean` are called as functions.
