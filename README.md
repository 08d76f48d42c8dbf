# language-salary in Dafny

A model of the salary logic of `main.py` in the language-salary program. The
program asks two job boards, HeadHunter and SuperJob, for vacancies per
programming language. For each language it estimates every usable listing's
salary from its lower ("from") and upper ("to") bounds. It then records how many
vacancies the board reported, how many listings it processed, and their average
estimated salary.

The model is organised as follows:

- `py.dfy` (module `Py`): the Python semantics the code depends on. `None`
  becomes `Option`. Truthiness of a number-or-`None` is `Truthy`. The two
  exceptions the code can raise itself (`TypeError`, `ZeroDivisionError`) are
  carried in `Result`. `int()` on a float is `Trunc`, which rounds toward zero.
- `salary.dfy` (module `Salary`): `predict_salary` as `PredictSalary` and
  `predict_rub_salary` as `PredictRubSalary`. They are pure functions, with
  lemmas that relate them to the intended estimate and to each other.
- `tally.dfy` (module `Tally`): the filter-and-accumulate walk shared by
  `parse_hh` and `parse_sj`. `Kept` holds the bounds that pass a filter.
  `TotalEstimate` is the running `summary_salary`. `Summary` builds the
  per-language record. `Collect` builds the per-language dictionary. The
  imperative loops are the methods `AddPage` (the loop over one page's listings)
  and `Fold` (the loop over pages). Each is proved equal to these functions.
- `head_hunter.dfy` (module `HeadHunter`): `parse_hh`. Its page count is the
  server's `pages`. Its filter keeps a non-`null` salary in `"RUR"`.
- `super_job.dfy` (module `SuperJob`): `parse_sj`. Its page count is
  `int(total / 100 + 1)`. Its filter is the expression on lines 91-92 as Python
  parses it.

The HTTP exchange is not modelled. For each language, the server's answers are
an input value `Search`. It holds the first response and the listings returned
for each page index. `Answered` requires an answer for every page index the loop
requests. Salaries are exact `real`s, so the only rounding in the model is the
final `int(...)`.

## Intended behaviour versus code

The model also defines the intended behaviour: `Salary.IntendedEstimate` (absent
and zero both mean "not specified"), `HeadHunter.IntendedFilter` and
`SuperJob.IntendedFilter` (some bound specified, and the salary in roubles), a
page count of `ceil(total / 100)` (`SuperJob.IntendedPageCount`), and no record
for a language without usable listings (`Tally.IntendedSummary`). `main.py`
differs from it in five places. The model follows the code:

- With neither bound specified there is no "unknown" estimate. `predict_salary`
  raises `TypeError` when the upper bound is `None`, and returns 0 when the upper
  bound is 0 (`Salary.PredictSalaryAsIntended`).
- SuperJob pagination requests `floor(total / 100) + 1` pages rather than
  `ceil(total / 100)` (`SuperJob.PageCountRule`).
- The SuperJob filter also accepts listings in any currency with a truthy
  `payment_from`. It also accepts rouble listings with a `null` `payment_to`
  and no `payment_from`, and those then raise `TypeError`
  (`SuperJob.CountedVsIntended`, `SuperJob.OnePageExample`).
- The HeadHunter filter checks only for a non-`null` rouble salary. A rouble
  salary with neither bound truthy is processed too: it raises `TypeError` when
  its upper bound is `null`, and otherwise adds an estimate of 0 that lowers the
  average (`HeadHunter.CountedVsIntended`, `HeadHunter.ZeroBoundsExample`).
- A language with no processed listings does not simply produce no record. The
  code raises `ZeroDivisionError`, which ends the whole run
  (`Tally.SummaryVsIntended`, `Tally.SummaryOutcome`,
  `HeadHunter.LanguageStatRaises`, `SuperJob.LanguageStatRaises`). This also
  happens when the board reports no vacancies at all.

## Model

| member | source | states |
|---|---|---|
| `Py.Trunc` | main.py:62 | `int()` of a quotient is its integer part, rounded toward zero for either sign |
| `Salary.PredictSalary` | main.py:9-17 | raises `TypeError` exactly when the lower bound is absent or 0 and the upper bound is `None`; never returns `None`, so the final `return None` is unreachable |
| `Salary.PredictSalaryAsIntended` | main.py:9-17 | with some bound specified: the intended estimate (the midpoint, 1.2 x a lone lower bound, or 0.8 x a lone upper bound); with neither specified: `TypeError` or 0 instead of "unknown" |
| `Salary.PredictSalaryBounds` | main.py:9-17 | non-negative bounds give a non-negative estimate; two ordered bounds give an estimate between them |
| `Salary.PredictRubSalary` | main.py:20-29 | returns `None` exactly for a currency other than `"RUR"` or for a zero lower bound with an upper bound present; raises exactly for `"RUR"` with both bounds `None` |
| `Salary.RubSalaryAgreesWithPredictSalary` | main.py:20-29 | on a `"RUR"` salary, `predict_rub_salary` equals `predict_salary` unless the lower bound is zero, or a truthy lower bound comes with a zero upper bound |
| `Salary.RubSalaryDiffersOnZeroBounds` | main.py:20-29 | the two estimators differ on a `"RUR"` salary with a zero lower bound, or a truthy lower bound with a zero upper bound: midpoint with 0 against 1.2 x lower; `None` against 0.8 x upper; 0 against `TypeError` when the upper bound is `None` |
| `Tally.Kept` | main.py:53-55 | the walk keeps at most one entry per visited listing |
| `Tally.KeptCount` | main.py:53-58 | `count` equals the number of visited listings that pass the filter |
| `Tally.KeptComplete` | main.py:53-57 | the bounds of every passing listing go to `predict_salary` |
| `Tally.KeptSound` | main.py:53-57 | only bounds of passing listings go to `predict_salary` |
| `Tally.TotalEstimateOutcome` | main.py:56-57 | `summary_salary` is computed exactly when every kept listing can be estimated; otherwise the walk raises `TypeError` |
| `Tally.TotalEstimateNonNegative` | main.py:56-57 | non-negative bounds give a non-negative `summary_salary` |
| `Tally.SummaryOutcome` | main.py:59-63 | record iff some listing was kept and all can be estimated; `ZeroDivisionError` iff none was kept; `TypeError` iff one cannot be estimated; a record carries `found` and the count |
| `Tally.SummaryVsIntended` | main.py:59-63 | the code's record and the intended record (none when no listing was kept) agree on every record and every `TypeError`; the code raises `ZeroDivisionError` exactly where the intended record is absent |
| `Tally.SummaryNonNegative` | main.py:62 | non-negative bounds give a non-negative `average_salary` |
| `Tally.WalkOutcome` | main.py:47-63 | over the visited listings: `vacancies_processed` is the number that pass the filter, between 1 and the number visited; which listings make the walk raise, and which exception |
| `Tally.WalkAverageNonNegative` | main.py:53-62 | passing listings with non-negative bounds give a non-negative average |
| `Tally.AddPage` | main.py:53-58 | the loop over one page's listings: the new `count` and `summary_salary` are those of the walk extended by the page, or the walk raises `TypeError` |
| `Tally.Fold` | main.py:47-63 | the nested loops over pages `0..n-1` and their listings return exactly the record (or exception) that `Summary` gives for the kept listings |
| `Tally.CollectOutcome` | main.py:40-65 | the dictionary is built exactly when every language yields a record, and has one key per input language; otherwise the run raises the first language's exception |
| `Tally.CollectEntries` | main.py:64 | each language's entry is that language's record |
| `Tally.CollectByLanguage` | main.py:40-65 | with outcomes looked up by language, the dictionary has exactly one entry per input language, holding that language's record, and the run raises iff some language's outcome raises |
| `HeadHunter.LanguageStatRecord` | main.py:47-63 | `vacancies_found` is the first response's `found`; `vacancies_processed` counts exactly the visited listings with a non-`null` `"RUR"` salary, at least one and at most all visited; non-negative bounds give a non-negative average |
| `HeadHunter.LanguageStatRaises` | main.py:54-62 | `ZeroDivisionError` iff no visited listing has a `"RUR"` salary; `TypeError` iff one has neither a truthy lower bound nor an upper bound |
| `HeadHunter.LanguageStatIgnoresLaterPages` | main.py:47 | only pages `0..pages-1` affect the result |
| `HeadHunter.CountedVsIntended` | main.py:54-57 | the filter as written accepts every listing the intended filter does, plus exactly the rouble salaries with neither bound truthy, which raise `TypeError` when the upper bound is `null` and otherwise are estimated at 0 |
| `HeadHunter.ZeroBoundsExample` | main.py:47-63 | a rouble salary with bounds 0/0 beside one of 100000-200000, `found` 5: the record is (5, 2, 75000) |
| `HeadHunter.OnePageExample` | main.py:47-63 | one page with a rouble and a dollar listing, each 100000-200000, and `found` 50: the record is (50, 1, 150000) |
| `HeadHunter.ParseLanguage` | main.py:41-63 | the loop body for one language returns that language's record or exception |
| `HeadHunter.ParseHh` | main.py:32-65 | `parse_hh` returns the collected dictionary: its keys are the input languages, each value is that language's record, and it raises iff some language does |
| `SuperJob.IntendedPageCount` | main.py:84 | the intended page count: for a positive `total`, the fewest pages of 100 that hold `total` listings; none otherwise |
| `SuperJob.PageCountRule` | main.py:84 | for `total >= 0` the loop requests `floor(total / 100) + 1` pages, so at least one, and `ceil(total / 100) + 1` when `total` is a multiple of 100; none for a negative total |
| `SuperJob.CountedVsIntended` | main.py:91-92 | the filter as parsed accepts every listing the intended filter does, plus exactly two kinds: a truthy `payment_from` in another currency, and a rouble listing with no truthy `payment_from` and a `null` `payment_to` (which cannot be estimated) |
| `SuperJob.LanguageStatRecord` | main.py:84-100 | `vacancies_found` is the first response's `total`; `vacancies_processed` counts exactly the visited listings that pass the filter as parsed, at least one and at most all visited; non-negative bounds give a non-negative average |
| `SuperJob.LanguageStatRaises` | main.py:90-99 | `ZeroDivisionError` iff no visited listing passes the filter; `TypeError` iff a passing one has neither a truthy `payment_from` nor a `payment_to` |
| `SuperJob.LanguageStatIgnoresLaterPages` | main.py:84 | only pages `0..PageCount(total)-1` affect the result |
| `SuperJob.OnePageExample` | main.py:84-100 | with `total` 10, a rouble listing with only `payment_to` 50000 and a dollar listing with only `payment_from` 100000 are both processed: the record is (10, 2, 80000) |
| `SuperJob.ParseLanguage` | main.py:77-100 | the loop body for one language returns that language's record or exception |
| `SuperJob.ParseSj` | main.py:68-102 | `parse_sj` returns the collected dictionary: its keys are the input languages, each value is that language's record, and it raises iff some language does |

## Left out

- HTTP (`requests.get`, `raise_for_status`, `json.loads`, main.py:44-52 and 80-89): the server's answers are input values. `Answered` requires an answer for every page the loop requests, and a failed request is not modelled.
- The first request of each language is represented only by the fields read from it (`found` and `pages`, or `total`). It may be sent with a stale `page` parameter left over from the previous language. When it carries no `page` (or a stale 0), it fetches page 0, and the loop fetches page 0 again. Both only affect which request is sent, so they are not modelled.
- The request parameters (`params`: area, period, town, catalogues, `app_key`, the search text `'Разработчик ' + language`) are not modelled. The server's answers are keyed by language. The one parameter that matters is SuperJob's page size of 100, kept as `SuperJob.PerPage`.
- `load_dotenv` and `os.environ` (main.py:126-127) are environment configuration, and the fixed list of 13 languages in `main` (main.py:128-142) is not modelled. The paginators take any list of languages.
- `print_table` and `main`'s printing (main.py:105-148) are presentation only. Dafny maps have no order, so the insertion order of the result dictionaries, which only fixes the order of the printed rows, is not modelled.
- Floating point: `0.8 *`, `1.2 *`, `/ 2` and `summary_salary / count` are exact real arithmetic. Float rounding, including in SuperJob's `total / 100 + 1`, is not modelled. Only the final truncation by `int(...)` is.
- Dictionary access errors (`KeyError` for a missing field) are not modelled: every listing has all the fields the code reads. A JSON `null` is `None` wherever the code compares it.
