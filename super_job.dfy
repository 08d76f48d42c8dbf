/** `parse_sj`: per-language statistics from the SuperJob vacancy search. The HTTP
    exchange is abstracted: for each keyword the server's answers are given as a
    `Search` value. */
module SuperJob {
  import opened Py
  import opened Salary
  import opened Tally

  /** One element of a response's `objects`. */
  datatype Vacancy = Vacancy(paymentFrom: Option<real>, paymentTo: Option<real>, currency: string)

  /** The field of the first response that `parse_sj` reads: `total`. */
  datatype FirstPage = FirstPage(total: int)

  /** The server's answers for one language: the first response, and the `objects`
      of the response to the request for page `p` at index `p`. */
  datatype Search = Search(first: FirstPage, pages: seq<seq<Vacancy>>)

  /** The page size sent as `params['count']`. */
  const PerPage: nat := 100

  /** The number of page requests `range(int(total / count + 1))` issues: the float
      quotient plus one, truncated toward zero, and none when that is negative. */
  function PageCount(total: int): nat {
    var n := Trunc(total as real / PerPage as real + 1.0);
    if n < 0 then 0 else n
  }

  /** The intended page count `ceil(total / 100)`: the fewest pages of `PerPage`
      listings that hold `total` of them. */
  function IntendedPageCount(total: int): (n: nat)
    ensures 0 < total ==> (n - 1) * PerPage < total <= n * PerPage
    ensures total <= 0 ==> n == 0
  {
    if total <= 0 then 0 else (total + PerPage - 1) / PerPage
  }

  /** For a non-negative total the loop requests `floor(total / 100) + 1` pages: at
      least one even for no vacancies, and one more than `ceil(total / 100)` when the
      total is a multiple of 100. A negative total requests none. */
  lemma PageCountRule(total: int)
    ensures 0 <= total ==> PageCount(total) == total / PerPage + 1 >= 1
    ensures 0 <= total ==>
      PageCount(total) == IntendedPageCount(total) + (if total % PerPage == 0 then 1 else 0)
    ensures total < 0 ==> PageCount(total) == 0
  {
    var x := total as real / PerPage as real + 1.0;
    var n := Trunc(x);
    if 0 <= total {
      var q, m := total / PerPage, total % PerPage;
      assert total == PerPage * q + m && 0 <= m < PerPage;
      assert x == q as real + 1.0 + m as real / 100.0;
      assert n == q + 1;
      if m == 0 {
        assert total + PerPage - 1 == PerPage * q + 99;
      } else {
        assert total + PerPage - 1 == PerPage * (q + 1) + (m - 1);
      }
    } else {
      assert x < 1.0;
    }
  }

  /** The server answers every page request the loop issues. */
  predicate Answered(s: Search) {
    PageCount(s.first.total) <= |s.pages|
  }

  /** The listings the loop visits: those of pages `0..PageCount-1`, in order. */
  function Visited(s: Search): seq<Vacancy>
    requires Answered(s)
  {
    Flatten(s.pages[..PageCount(s.first.total)])
  }

  /** The filter of lines 91-92 as Python parses it: `and` binds tighter than `or`, so
      it reads `payment_from or (payment_to != 0 and currency == 'rub')`. */
  predicate Counted(v: Vacancy) {
    Truthy(v.paymentFrom) || (v.paymentTo != Some(0.0) && v.currency == "rub")
  }

  /** The intended filter: some bound specified, and the salary in roubles. */
  predicate IntendedFilter(v: Vacancy) {
    (Truthy(v.paymentFrom) || Truthy(v.paymentTo)) && v.currency == "rub"
  }

  /** The filter as written accepts every listing the intended one does, and two kinds
      more: a truthy `payment_from` in another currency, and a rouble listing with no
      truthy `payment_from` and a `null` `payment_to`, which `predict_salary` cannot
      estimate. */
  lemma CountedVsIntended(v: Vacancy)
    ensures IntendedFilter(v) ==> Counted(v)
    ensures Counted(v) && !IntendedFilter(v) <==>
      (Truthy(v.paymentFrom) && v.currency != "rub") ||
      (!Truthy(v.paymentFrom) && v.paymentTo.None? && v.currency == "rub")
    ensures !Truthy(v.paymentFrom) && v.paymentTo.None? ==> !Estimable(v.paymentFrom, v.paymentTo)
  {
  }

  /** The bounds handed to `predict_salary` (lines 93-94). */
  function BoundsOf(v: Vacancy): Bounds {
    Bounds(v.paymentFrom, v.paymentTo)
  }

  /** The outcome of the loop for one language. */
  function LanguageStat(s: Search): Result<Stat>
    requires Answered(s)
  {
    Summary(s.first.total, Kept(Visited(s), Counted, BoundsOf))
  }

  /** A record reports `total` of the first response and counts exactly the visited
      listings that pass the filter as written (at least one, and no more than the
      listings visited); with non-negative bounds on those its average is non-negative. */
  lemma LanguageStatRecord(s: Search)
    requires Answered(s) && LanguageStat(s).Ok?
    ensures LanguageStat(s).value.found == s.first.total
    ensures LanguageStat(s).value.processed == |Passing(Visited(s), Counted)|
    ensures 0 < LanguageStat(s).value.processed <= |Visited(s)|
    ensures (forall i :: 0 <= i < |Visited(s)| && Counted(Visited(s)[i]) ==>
               NonNegative(Visited(s)[i].paymentFrom) && NonNegative(Visited(s)[i].paymentTo))
      ==> 0 <= LanguageStat(s).value.average
  {
    WalkOutcome(s.first.total, Visited(s), Counted, BoundsOf);
    var xs := Visited(s);
    if forall i :: 0 <= i < |xs| && Counted(xs[i]) ==>
         NonNegative(xs[i].paymentFrom) && NonNegative(xs[i].paymentTo) {
      WalkAverageNonNegative(s.first.total, xs, Counted, BoundsOf);
    }
  }

  /** The exceptions of the loop: `ZeroDivisionError` exactly when no visited listing
      passes the filter, and `TypeError` exactly when a passing one has neither a
      truthy `payment_from` nor a `payment_to`. */
  lemma LanguageStatRaises(s: Search)
    requires Answered(s)
    ensures LanguageStat(s) == Raise(ZeroDivisionError) <==>
      forall i :: 0 <= i < |Visited(s)| ==> !Counted(Visited(s)[i])
    ensures LanguageStat(s) == Raise(TypeError) <==>
      exists i :: 0 <= i < |Visited(s)| && Counted(Visited(s)[i]) &&
        !Estimable(Visited(s)[i].paymentFrom, Visited(s)[i].paymentTo)
  {
    WalkOutcome(s.first.total, Visited(s), Counted, BoundsOf);
  }

  /** Pages from index `PageCount(total)` on are never read. */
  lemma LanguageStatIgnoresLaterPages(s: Search, t: Search)
    requires Answered(s) && Answered(t) && s.first == t.first
    requires s.pages[..PageCount(s.first.total)] == t.pages[..PageCount(t.first.total)]
    ensures LanguageStat(s) == LanguageStat(t)
  {
  }

  /** Ten vacancies on one page: a rouble listing with only `payment_to` = 50000, and
      a dollar listing with only `payment_from` = 100000. Both are counted, the second
      because of the filter's precedence: 0.8 x 50000 and 1.2 x 100000 average to 80000. */
  lemma OnePageExample()
    ensures LanguageStat(Search(FirstPage(10), [[
      Vacancy(Some(0.0), Some(50000.0), "rub"),
      Vacancy(Some(100000.0), Some(0.0), "usd")]]))
      == Ok(Stat(10, 2, 80000))
  {
    var rub := Vacancy(Some(0.0), Some(50000.0), "rub");
    var usd := Vacancy(Some(100000.0), Some(0.0), "usd");
    var s := Search(FirstPage(10), [[rub, usd]]);
    var a, b := BoundsOf(rub), BoundsOf(usd);
    assert Visited(s) == [rub, usd] by {
      PageCountRule(10);
      assert s.pages[..1] == s.pages && s.pages[..0] == [];
    }
    assert Kept([rub, usd], Counted, BoundsOf) == [a, b] by {
      KeptStep([rub], usd, Counted, BoundsOf);
      KeptStep([], rub, Counted, BoundsOf);
      assert [] + [rub] == [rub];
    }
    assert TotalEstimate([a, b]) == Ok(160000.0) by {
      TotalEstimateStep([], a, 0.0);
      assert [] + [a] == [a];
      TotalEstimateStep([a], b, 40000.0);
      assert [a] + [b] == [a, b];
    }
    assert Trunc(160000.0 / 2.0) == 80000;
  }

  /** The outcome of every language the server answers completely. */
  function Outcomes(server: map<string, Search>): map<string, Result<Stat>> {
    map l | l in server && Answered(server[l]) :: LanguageStat(server[l])
  }

  /** The body of the language loop of `parse_sj` (lines 77-100): walk pages
      `0..PageCount(total)-1` of the answers for one language and build its record. */
  method ParseLanguage(s: Search) returns (r: Result<Stat>)
    requires Answered(s)
    ensures r == LanguageStat(s)
  {
    r := Fold(s.first.total, s.pages, PageCount(s.first.total), Counted, BoundsOf);
  }

  /** `parse_sj(languages, app_key_sj)`: one record per language, stored under the
      language in `results_sj`; any exception of one language ends the run. */
  method ParseSj(languages: seq<string>, server: map<string, Search>)
    returns (r: Result<map<string, Stat>>)
    requires forall l :: l in languages ==> l in server && Answered(server[l])
    ensures r == Collect(languages, Lookup(languages, Outcomes(server)))
    ensures r.Ok? ==> r.value.Keys == set l | l in languages
    ensures r.Ok? ==> forall l :: l in languages ==> LanguageStat(server[l]) == Ok(r.value[l])
    ensures r.Raise? <==> exists l :: l in languages && LanguageStat(server[l]).Raise?
  {
    CollectByLanguage(languages, Outcomes(server));
    ghost var outcomes := Lookup(languages, Outcomes(server));
    var results: map<string, Stat> := map[];
    for k := 0 to |languages|
      invariant Collect(languages[..k], outcomes[..k]) == Ok(results)
    {
      var stat := ParseLanguage(server[languages[k]]);
      if stat.Raise? {
        CollectRaiseAt(languages, outcomes, k);
        return Raise(stat.exc);
      }
      assert languages[..k + 1][..k] == languages[..k] && outcomes[..k + 1][..k] == outcomes[..k];
      results := results[languages[k] := stat.value];
    }
    assert languages[..|languages|] == languages && outcomes[..|outcomes|] == outcomes;
    r := Ok(results);
  }
}
