/** `parse_hh`: per-language statistics from the HeadHunter vacancy search. The HTTP
    exchange is abstracted: for each search term the server's answers are given as a
    `Search` value. */
module HeadHunter {
  import opened Py
  import opened Salary
  import opened Tally

  /** One element of a response's `items`: its `salary` object may be `null`. */
  datatype Vacancy = Vacancy(salary: Option<SalaryRange>)

  /** The fields of the first response that `parse_hh` reads: `found` and `pages`. */
  datatype FirstPage = FirstPage(found: int, pages: int)

  /** The server's answers for one language: the first response, and the `items` of
      the response to the request for page `p` at index `p`. */
  datatype Search = Search(first: FirstPage, pages: seq<seq<Vacancy>>)

  /** The number of page requests `range(first_page['pages'])` issues. */
  function PageCount(first: FirstPage): nat {
    if first.pages < 0 then 0 else first.pages
  }

  /** The server answers every page request the loop issues. */
  predicate Answered(s: Search) {
    PageCount(s.first) <= |s.pages|
  }

  /** The listings the loop visits: those of pages `0..pages-1`, in order. */
  function Visited(s: Search): seq<Vacancy>
    requires Answered(s)
  {
    Flatten(s.pages[..PageCount(s.first)])
  }

  /** The filter of lines 54-55: a salary object in roubles. */
  predicate Counted(v: Vacancy) {
    v.salary.Some? && v.salary.value.currency == "RUR"
  }

  /** The intended filter: a rouble salary with some bound specified. */
  predicate IntendedFilter(v: Vacancy) {
    v.salary.Some? && v.salary.value.currency == "RUR" &&
    (Truthy(v.salary.value.from) || Truthy(v.salary.value.to))
  }

  /** The filter as written accepts every listing the intended one does, and one kind
      more: a rouble salary with neither bound truthy. Such a listing raises when its
      upper bound is `null` and otherwise adds an estimate of 0. */
  lemma CountedVsIntended(v: Vacancy)
    ensures IntendedFilter(v) ==> Counted(v)
    ensures Counted(v) && !IntendedFilter(v) <==>
      v.salary.Some? && v.salary.value.currency == "RUR" &&
      !Truthy(v.salary.value.from) && !Truthy(v.salary.value.to)
    ensures Counted(v) && !IntendedFilter(v) ==>
      PredictSalary(v.salary.value.from, v.salary.value.to) ==
        (if v.salary.value.to.None? then Raise(TypeError) else Ok(Some(0.0)))
  {
  }

  /** The bounds handed to `predict_salary` (lines 56-57). */
  function BoundsOf(v: Vacancy): Bounds {
    if v.salary.Some? then Bounds(v.salary.value.from, v.salary.value.to) else Bounds(None, None)
  }

  /** The outcome of the loop for one language. */
  function LanguageStat(s: Search): Result<Stat>
    requires Answered(s)
  {
    Summary(s.first.found, Kept(Visited(s), Counted, BoundsOf))
  }

  /** A record reports `found` of the first response and counts exactly the visited
      listings with a rouble salary (at least one, and no more than the listings
      visited); with non-negative rouble bounds its average is non-negative. */
  lemma LanguageStatRecord(s: Search)
    requires Answered(s) && LanguageStat(s).Ok?
    ensures LanguageStat(s).value.found == s.first.found
    ensures LanguageStat(s).value.processed == |Passing(Visited(s), Counted)|
    ensures 0 < LanguageStat(s).value.processed <= |Visited(s)|
    ensures (forall i :: 0 <= i < |Visited(s)| && Counted(Visited(s)[i]) ==>
               NonNegative(Visited(s)[i].salary.value.from) && NonNegative(Visited(s)[i].salary.value.to))
      ==> 0 <= LanguageStat(s).value.average
  {
    WalkOutcome(s.first.found, Visited(s), Counted, BoundsOf);
    var xs := Visited(s);
    if forall i :: 0 <= i < |xs| && Counted(xs[i]) ==>
         NonNegative(xs[i].salary.value.from) && NonNegative(xs[i].salary.value.to) {
      WalkAverageNonNegative(s.first.found, xs, Counted, BoundsOf);
    }
  }

  /** The exceptions of the loop: `ZeroDivisionError` exactly when no visited listing
      has a rouble salary, and `TypeError` exactly when one of them has neither a
      truthy lower bound nor an upper bound. */
  lemma LanguageStatRaises(s: Search)
    requires Answered(s)
    ensures LanguageStat(s) == Raise(ZeroDivisionError) <==>
      forall i :: 0 <= i < |Visited(s)| ==> !Counted(Visited(s)[i])
    ensures LanguageStat(s) == Raise(TypeError) <==>
      exists i :: 0 <= i < |Visited(s)| && Counted(Visited(s)[i]) &&
        !Estimable(Visited(s)[i].salary.value.from, Visited(s)[i].salary.value.to)
  {
    WalkOutcome(s.first.found, Visited(s), Counted, BoundsOf);
  }

  /** Pages from index `pages` on are never read. */
  lemma LanguageStatIgnoresLaterPages(s: Search, t: Search)
    requires Answered(s) && Answered(t) && s.first == t.first
    requires s.pages[..PageCount(s.first)] == t.pages[..PageCount(t.first)]
    ensures LanguageStat(s) == LanguageStat(t)
  {
  }

  /** One page reporting 50 vacancies: a rouble salary from 100000 to 200000 and the
      same salary in dollars. Only the rouble one is counted, at its midpoint. */
  lemma OnePageExample()
    ensures LanguageStat(Search(FirstPage(50, 1), [[
      Vacancy(Some(SalaryRange("RUR", Some(100000.0), Some(200000.0)))),
      Vacancy(Some(SalaryRange("USD", Some(100000.0), Some(200000.0))))]]))
      == Ok(Stat(50, 1, 150000))
  {
    var rub := Vacancy(Some(SalaryRange("RUR", Some(100000.0), Some(200000.0))));
    var usd := Vacancy(Some(SalaryRange("USD", Some(100000.0), Some(200000.0))));
    var pages := [[rub, usd]];
    assert pages[..1] == pages;
    assert Flatten(pages) == [rub, usd] by {
      assert pages[..0] == [];
    }
    KeptStep([rub], usd, Counted, BoundsOf);
    KeptStep([], rub, Counted, BoundsOf);
    assert [] + [rub] == [rub];
    var b := Bounds(Some(100000.0), Some(200000.0));
    assert Kept([rub, usd], Counted, BoundsOf) == [b];
    assert [b][..0] == [];
    assert TotalEstimate([b]) == Ok(150000.0);
    assert Trunc(150000.0 / 1.0) == 150000;
  }

  /** A rouble salary with both bounds 0 is processed with estimate 0: beside one
      of 100000-200000 it halves the average to 75000. */
  lemma ZeroBoundsExample()
    ensures LanguageStat(Search(FirstPage(5, 1), [[
      Vacancy(Some(SalaryRange("RUR", Some(0.0), Some(0.0)))),
      Vacancy(Some(SalaryRange("RUR", Some(100000.0), Some(200000.0))))]]))
      == Ok(Stat(5, 2, 75000))
  {
    var zero := Vacancy(Some(SalaryRange("RUR", Some(0.0), Some(0.0))));
    var full := Vacancy(Some(SalaryRange("RUR", Some(100000.0), Some(200000.0))));
    var pages := [[zero, full]];
    assert pages[..1] == pages;
    assert Flatten(pages) == [zero, full] by {
      assert pages[..0] == [];
    }
    var a := Bounds(Some(0.0), Some(0.0));
    var b := Bounds(Some(100000.0), Some(200000.0));
    assert Kept([zero, full], Counted, BoundsOf) == [a, b] by {
      KeptStep([zero], full, Counted, BoundsOf);
      KeptStep([], zero, Counted, BoundsOf);
      assert [] + [zero] == [zero];
    }
    assert TotalEstimate([a, b]) == Ok(150000.0) by {
      assert PredictSalary(a.from, a.to) == Ok(Some(0.0));
      assert PredictSalary(b.from, b.to) == Ok(Some(150000.0));
      TotalEstimateStep([], a, 0.0);
      assert [] + [a] == [a];
      TotalEstimateStep([a], b, 0.0);
      assert [a] + [b] == [a, b];
    }
    assert Trunc(150000.0 / 2.0) == 75000;
  }

  /** The outcome of every language the server answers completely. */
  function Outcomes(server: map<string, Search>): map<string, Result<Stat>> {
    map l | l in server && Answered(server[l]) :: LanguageStat(server[l])
  }

  /** The body of the language loop of `parse_hh` (lines 41-63): walk pages
      `0..pages-1` of the answers for one language and build its record. */
  method ParseLanguage(s: Search) returns (r: Result<Stat>)
    requires Answered(s)
    ensures r == LanguageStat(s)
  {
    r := Fold(s.first.found, s.pages, PageCount(s.first), Counted, BoundsOf);
  }

  /** `parse_hh(languages)`: one record per language, stored under the language in
      `results_hh`; any exception of one language ends the run. */
  method ParseHh(languages: seq<string>, server: map<string, Search>)
    returns (r: Result<map<string, Stat>>)
    requires forall l :: l in languages ==> l in server && Answered(server[l])
    ensures r == Collect(languages, Lookup(languages, Outcomes(server)))
    ensures r.Ok? ==> r.value.Keys == set l | l in languages
    ensures r.Ok? ==> forall l :: l in languages ==> LanguageStat(server[l]) == Ok(r.value[l])
    ensures r.Raise? <==> exists l :: l in languages && LanguageStat(server[l]).Raise?
  {
    CollectByLanguage(languages, Outcomes(server));
    ghost var outcomes := Lookup(languages, Outcomes(server));
    var results: map<string, Stat> := map[];
    for k := 0 to |languages|
      invariant Collect(languages[..k], outcomes[..k]) == Ok(results)
    {
      var stat := ParseLanguage(server[languages[k]]);
      if stat.Raise? {
        CollectRaiseAt(languages, outcomes, k);
        return Raise(stat.exc);
      }
      assert languages[..k + 1][..k] == languages[..k] && outcomes[..k + 1][..k] == outcomes[..k];
      results := results[languages[k] := stat.value];
    }
    assert languages[..|languages|] == languages && outcomes[..|outcomes|] == outcomes;
    r := Ok(results);
  }
}
