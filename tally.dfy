/** The filter-and-accumulate fold that `parse_hh` and `parse_sj` share: walk the
    pages, keep the listings that pass the source's filter, add up their
    `predict_salary` estimates, count them, and build the per-language record;
    then collect one record per language. */
module Tally {
  import opened Py
  import opened Salary

  /** The two bounds a kept listing hands to `predict_salary`. */
  datatype Bounds = Bounds(from: Option<real>, to: Option<real>)

  /** One value of `results_hh` / `results_sj`: `vacancies_found`,
      `vacancies_processed` and `average_salary`. */
  datatype Stat = Stat(found: int, processed: nat, average: int)

  /** The listings of the given pages, page after page. */
  function Flatten<T>(pages: seq<seq<T>>): seq<T> {
    if pages == [] then [] else Flatten(pages[..|pages| - 1]) + pages[|pages| - 1]
  }

  /** The listings of the first `p` pages come first among those of the first `n`. */
  lemma {:induction false} FlattenPrefix<T>(pages: seq<seq<T>>, p: nat, n: nat)
    requires p <= n <= |pages|
    ensures Flatten(pages[..p]) <= Flatten(pages[..n])
  {
    if p < n {
      FlattenPrefix(pages, p, n - 1);
      assert pages[..n][..n - 1] == pages[..n - 1];
    } else {
      assert pages[..p] == pages[..n];
    }
  }

  /** The bounds of the listings that pass the filter, in the order they are visited. */
  function Kept<V>(xs: seq<V>, passes: V -> bool, bounds: V -> Bounds): (r: seq<Bounds>)
    ensures |r| <= |xs|
  {
    if xs == [] then []
    else
      var init := Kept(xs[..|xs| - 1], passes, bounds);
      if passes(xs[|xs| - 1]) then init + [bounds(xs[|xs| - 1])] else init
  }

  /** The positions of the listings that pass the filter. */
  function Passing<V>(xs: seq<V>, passes: V -> bool): set<nat> {
    set i: nat | i < |xs| && passes(xs[i])
  }

  /** One kept entry per passing listing: the count is the number of listings that
      pass the filter. */
  lemma {:induction false} KeptCount<V>(xs: seq<V>, passes: V -> bool, bounds: V -> Bounds)
    ensures |Kept(xs, passes, bounds)| == |Passing(xs, passes)|
  {
    if xs != [] {
      var init, k := xs[..|xs| - 1], |xs| - 1;
      KeptCount(init, passes, bounds);
      assert forall i :: 0 <= i < k ==> xs[i] == init[i];
      if passes(xs[k]) {
        assert Passing(xs, passes) == Passing(init, passes) + {k};
      } else {
        assert Passing(xs, passes) == Passing(init, passes);
      }
    }
  }

  /** The bounds of every passing listing are kept. */
  lemma {:induction false} KeptComplete<V>(xs: seq<V>, passes: V -> bool, bounds: V -> Bounds)
    ensures forall i :: 0 <= i < |xs| && passes(xs[i]) ==> bounds(xs[i]) in Kept(xs, passes, bounds)
  {
    if xs != [] {
      var init, k := xs[..|xs| - 1], |xs| - 1;
      KeptComplete(init, passes, bounds);
      assert forall i :: 0 <= i < k ==> xs[i] == init[i];
    }
  }

  /** Only the bounds of passing listings are kept. */
  lemma {:induction false} KeptSound<V>(xs: seq<V>, passes: V -> bool, bounds: V -> Bounds)
    ensures forall b :: b in Kept(xs, passes, bounds) ==>
      exists i :: 0 <= i < |xs| && passes(xs[i]) && bounds(xs[i]) == b
  {
    if xs != [] {
      var init, k := xs[..|xs| - 1], |xs| - 1;
      KeptSound(init, passes, bounds);
      forall b | b in Kept(xs, passes, bounds)
        ensures exists i :: 0 <= i < |xs| && passes(xs[i]) && bounds(xs[i]) == b
      {
        if b in Kept(init, passes, bounds) {
          var i :| 0 <= i < |init| && passes(init[i]) && bounds(init[i]) == b;
          assert xs[i] == init[i];
        } else {
          assert passes(xs[k]) && bounds(xs[k]) == b;
        }
      }
    }
  }

  /** Filtering a longer walk extends the filtered shorter one. */
  lemma {:induction false} KeptPrefix<V>(xs: seq<V>, ys: seq<V>, passes: V -> bool, bounds: V -> Bounds)
    requires xs <= ys
    ensures Kept(xs, passes, bounds) <= Kept(ys, passes, bounds)
  {
    if |xs| < |ys| {
      assert xs <= ys[..|ys| - 1];
      KeptPrefix(xs, ys[..|ys| - 1], passes, bounds);
    } else {
      assert xs == ys;
    }
  }

  /** `summary_salary` after adding the estimates of the kept listings one by one;
      a `TypeError` from `predict_salary`, or from adding its `None`, stops the sum. */
  function TotalEstimate(kept: seq<Bounds>): Result<real> {
    if kept == [] then Ok(0.0)
    else
      var last := kept[|kept| - 1];
      match TotalEstimate(kept[..|kept| - 1])
      case Raise(e) => Raise(e)
      case Ok(sum) =>
        match PredictSalary(last.from, last.to)
        case Raise(e) => Raise(e)
        case Ok(None) => Raise(TypeError)
        case Ok(Some(x)) => Ok(sum + x)
  }

  /** The running total survives exactly when every kept listing can be estimated;
      otherwise it raises `TypeError`. */
  lemma {:induction false} TotalEstimateOutcome(kept: seq<Bounds>)
    ensures TotalEstimate(kept).Ok? <==> forall i :: 0 <= i < |kept| ==> Estimable(kept[i].from, kept[i].to)
    ensures TotalEstimate(kept).Raise? ==> TotalEstimate(kept).exc == TypeError
  {
    if kept != [] {
      var init := kept[..|kept| - 1];
      TotalEstimateOutcome(init);
      assert forall i :: 0 <= i < |init| ==> init[i] == kept[i];
    }
  }

  /** Summing non-negative bounds gives a non-negative total. */
  lemma {:induction false} TotalEstimateNonNegative(kept: seq<Bounds>)
    requires forall i :: 0 <= i < |kept| ==> NonNegative(kept[i].from) && NonNegative(kept[i].to)
    requires TotalEstimate(kept).Ok?
    ensures 0.0 <= TotalEstimate(kept).value
  {
    if kept != [] {
      var last := kept[|kept| - 1];
      TotalEstimateNonNegative(kept[..|kept| - 1]);
      PredictSalaryBounds(last.from, last.to);
    }
  }

  /** The record built after the walk: `int(summary_salary / count)`, which raises
      `ZeroDivisionError` when no listing was kept. */
  function Summary(found: int, kept: seq<Bounds>): Result<Stat> {
    match TotalEstimate(kept)
    case Raise(e) => Raise(e)
    case Ok(total) =>
      if |kept| == 0 then Raise(ZeroDivisionError)
      else Ok(Stat(found, |kept|, Trunc(total / |kept| as real)))
  }

  /** The record exists exactly when some listing was kept and all kept listings can
      be estimated; `ZeroDivisionError` exactly when none was kept; `TypeError` exactly
      when one cannot be estimated. A record reports `found` and the number kept. */
  lemma SummaryOutcome(found: int, kept: seq<Bounds>)
    ensures Summary(found, kept).Ok? <==>
      kept != [] && forall i :: 0 <= i < |kept| ==> Estimable(kept[i].from, kept[i].to)
    ensures Summary(found, kept) == Raise(ZeroDivisionError) <==> kept == []
    ensures Summary(found, kept) == Raise(TypeError) <==>
      exists i :: 0 <= i < |kept| && !Estimable(kept[i].from, kept[i].to)
    ensures Summary(found, kept).Ok? ==>
      Summary(found, kept).value.found == found && Summary(found, kept).value.processed == |kept| > 0
  {
    TotalEstimateOutcome(kept);
  }

  /** With non-negative bounds the average salary is non-negative. */
  lemma SummaryNonNegative(found: int, kept: seq<Bounds>)
    requires forall i :: 0 <= i < |kept| ==> NonNegative(kept[i].from) && NonNegative(kept[i].to)
    requires Summary(found, kept).Ok?
    ensures 0 <= Summary(found, kept).value.average
  {
    TotalEstimateNonNegative(kept);
  }

  /** The intended record: no record (`None`) for a language where no listing was
      kept, and otherwise the average of the kept estimates. */
  function IntendedSummary(found: int, kept: seq<Bounds>): Result<Option<Stat>> {
    if kept == [] then Ok(None)
    else match TotalEstimate(kept)
      case Raise(e) => Raise(e)
      case Ok(total) => Ok(Some(Stat(found, |kept|, Trunc(total / |kept| as real))))
  }

  /** The code's record differs from the intended one only where nothing was kept:
      there the code raises `ZeroDivisionError` and the intended record is absent. */
  lemma SummaryVsIntended(found: int, kept: seq<Bounds>)
    ensures Summary(found, kept) == Raise(ZeroDivisionError) <==>
      IntendedSummary(found, kept) == Ok(None)
    ensures Summary(found, kept).Ok? ==>
      IntendedSummary(found, kept) == Ok(Some(Summary(found, kept).value))
    ensures Summary(found, kept) == Raise(TypeError) <==>
      IntendedSummary(found, kept) == Raise(TypeError)
  {
    TotalEstimateOutcome(kept);
  }

  /** Once the running total has raised, a longer walk raises too. */
  lemma TotalEstimateRaisePrefix(k: seq<Bounds>, K: seq<Bounds>)
    requires k <= K
    requires TotalEstimate(k).Raise?
    ensures TotalEstimate(K).Raise?
  {
    TotalEstimateOutcome(k);
    TotalEstimateOutcome(K);
    var i :| 0 <= i < |k| && !Estimable(k[i].from, k[i].to);
    assert K[i] == k[i];
  }

  /** The outcome of a walk: a record reports `found`, counts exactly the listings
      that pass the filter (at least one, at most all visited); the walk raises
      `ZeroDivisionError` exactly when no listing passes, and `TypeError` exactly
      when a passing listing has bounds `predict_salary` cannot estimate. */
  lemma WalkOutcome<V>(found: int, xs: seq<V>, passes: V -> bool, bounds: V -> Bounds)
    ensures Summary(found, Kept(xs, passes, bounds)).Ok? ==>
      var stat := Summary(found, Kept(xs, passes, bounds)).value;
      stat.found == found && stat.processed == |Passing(xs, passes)| && 0 < stat.processed <= |xs|
    ensures Summary(found, Kept(xs, passes, bounds)) == Raise(ZeroDivisionError) <==>
      forall i :: 0 <= i < |xs| ==> !passes(xs[i])
    ensures Summary(found, Kept(xs, passes, bounds)) == Raise(TypeError) <==>
      exists i :: 0 <= i < |xs| && passes(xs[i]) && !Estimable(bounds(xs[i]).from, bounds(xs[i]).to)
  {
    var kept := Kept(xs, passes, bounds);
    KeptCount(xs, passes, bounds);
    KeptComplete(xs, passes, bounds);
    KeptSound(xs, passes, bounds);
    SummaryOutcome(found, kept);
    if kept != [] {
      assert kept[0] in kept;
    }
    if exists i :: 0 <= i < |xs| && passes(xs[i]) && !Estimable(bounds(xs[i]).from, bounds(xs[i]).to) {
      var i :| 0 <= i < |xs| && passes(xs[i]) && !Estimable(bounds(xs[i]).from, bounds(xs[i]).to);
      var j :| 0 <= j < |kept| && kept[j] == bounds(xs[i]);
    }
    if exists j :: 0 <= j < |kept| && !Estimable(kept[j].from, kept[j].to) {
      var j :| 0 <= j < |kept| && !Estimable(kept[j].from, kept[j].to);
      assert kept[j] in kept;
    }
  }

  /** A walk whose passing listings all have non-negative bounds averages to a
      non-negative salary. */
  lemma WalkAverageNonNegative<V>(found: int, xs: seq<V>, passes: V -> bool, bounds: V -> Bounds)
    requires forall i :: 0 <= i < |xs| && passes(xs[i]) ==>
      NonNegative(bounds(xs[i]).from) && NonNegative(bounds(xs[i]).to)
    requires Summary(found, Kept(xs, passes, bounds)).Ok?
    ensures 0 <= Summary(found, Kept(xs, passes, bounds)).value.average
  {
    var kept := Kept(xs, passes, bounds);
    KeptSound(xs, passes, bounds);
    forall j | 0 <= j < |kept|
      ensures NonNegative(kept[j].from) && NonNegative(kept[j].to)
    {
      assert kept[j] in kept;
    }
    SummaryNonNegative(found, kept);
  }

  /** A walk that already met a listing `predict_salary` cannot estimate ends in
      `TypeError`, whatever follows. */
  lemma RaiseExtends<V>(found: int, seen: seq<V>, all: seq<V>, passes: V -> bool, bounds: V -> Bounds)
    requires seen <= all
    requires TotalEstimate(Kept(seen, passes, bounds)).Raise?
    ensures Summary(found, Kept(all, passes, bounds)) == Raise(TypeError)
  {
    KeptPrefix(seen, all, passes, bounds);
    TotalEstimateRaisePrefix(Kept(seen, passes, bounds), Kept(all, passes, bounds));
    TotalEstimateOutcome(Kept(all, passes, bounds));
  }

  /** Walking one more listing keeps its bounds exactly when it passes the filter. */
  lemma KeptStep<V>(xs: seq<V>, v: V, passes: V -> bool, bounds: V -> Bounds)
    ensures Kept(xs + [v], passes, bounds) ==
      if passes(v) then Kept(xs, passes, bounds) + [bounds(v)] else Kept(xs, passes, bounds)
  {
    assert (xs + [v])[..|xs|] == xs;
  }

  /** A walk that meets a kept listing `predict_salary` cannot estimate raises. */
  lemma RaiseAt<V>(before: seq<V>, v: V, all: seq<V>, passes: V -> bool, bounds: V -> Bounds)
    requires before + [v] <= all
    requires passes(v) && !Estimable(bounds(v).from, bounds(v).to)
    ensures TotalEstimate(Kept(all, passes, bounds)).Raise?
  {
    KeptStep(before, v, passes, bounds);
    var k := Kept(before + [v], passes, bounds);
    assert k[|k| - 1] == bounds(v);
    TotalEstimateOutcome(k);
    KeptPrefix(before + [v], all, passes, bounds);
    TotalEstimateRaisePrefix(k, Kept(all, passes, bounds));
  }

  /** Adding one more kept listing adds its estimate to the running total. */
  lemma TotalEstimateStep(kept: seq<Bounds>, b: Bounds, sum: real)
    requires TotalEstimate(kept) == Ok(sum)
    requires PredictSalary(b.from, b.to).Ok?
    ensures TotalEstimate(kept + [b]) == Ok(sum + PredictSalary(b.from, b.to).value.value)
  {
    assert (kept + [b])[..|kept|] == kept;
  }

  /** Visiting one more listing: when it passes the filter, the count grows by one
      and its estimate joins the running total; otherwise nothing changes. */
  lemma WalkStep<V>(before: seq<V>, v: V, sum: real, passes: V -> bool, bounds: V -> Bounds)
    requires TotalEstimate(Kept(before, passes, bounds)) == Ok(sum)
    requires passes(v) ==> PredictSalary(bounds(v).from, bounds(v).to).Ok?
    ensures |Kept(before + [v], passes, bounds)| == |Kept(before, passes, bounds)| + (if passes(v) then 1 else 0)
    ensures TotalEstimate(Kept(before + [v], passes, bounds)) ==
      Ok(if passes(v) then sum + PredictSalary(bounds(v).from, bounds(v).to).value.value else sum)
  {
    KeptStep(before, v, passes, bounds);
    if passes(v) {
      TotalEstimateStep(Kept(before, passes, bounds), bounds(v), sum);
    }
  }

  /** The inner loop of the walk, over the listings of one page: starting from the
      running `count` and `summary_salary` of the listings `done` visited before,
      it adds the page's kept listings; a `TypeError` ends it. */
  method AddPage<V>(ghost done: seq<V>, items: seq<V>, count: nat, summary: real,
                    passes: V -> bool, bounds: V -> Bounds)
    returns (r: Result<(nat, real)>)
    requires count == |Kept(done, passes, bounds)|
    requires TotalEstimate(Kept(done, passes, bounds)) == Ok(summary)
    ensures r.Ok? ==> r.value.0 == |Kept(done + items, passes, bounds)|
    ensures r.Ok? <==> TotalEstimate(Kept(done + items, passes, bounds)).Ok?
    ensures r.Ok? ==> TotalEstimate(Kept(done + items, passes, bounds)) == Ok(r.value.1)
    ensures r.Raise? ==> r.exc == TypeError
  {
    var c, sum := count, summary;
    ghost var seen := done;
    for i := 0 to |items|
      invariant seen == done + items[..i]
      invariant c == |Kept(seen, passes, bounds)|
      invariant TotalEstimate(Kept(seen, passes, bounds)) == Ok(sum)
    {
      var v := items[i];
      assert items[..i + 1] == items[..i] + [v];
      if passes(v) {
        var b := bounds(v);
        var e := PredictSalary(b.from, b.to);
        if e.Raise? {
          assert seen + [v] <= done + items;
          RaiseAt(seen, v, done + items, passes, bounds);
          return Raise(e.exc);
        }
        WalkStep(seen, v, sum, passes, bounds);
        sum := sum + e.value.value;
        c := c + 1;
      } else {
        WalkStep(seen, v, sum, passes, bounds);
      }
      seen := seen + [v];
    }
    assert items[..|items|] == items;
    r := Ok((c, sum));
  }

  /** The nested loops of `parse_hh` (lines 47-63) and `parse_sj` (lines 84-100) for
      one language: walk pages `0..n-1`, add the estimate of every listing that passes
      the filter and count it, then build the record. An exception ends the walk. */
  method Fold<V>(found: int, pages: seq<seq<V>>, n: nat, passes: V -> bool, bounds: V -> Bounds)
    returns (r: Result<Stat>)
    requires n <= |pages|
    ensures r == Summary(found, Kept(Flatten(pages[..n]), passes, bounds))
  {
    var count: nat := 0;
    var summary := 0.0;
    for p := 0 to n
      invariant count == |Kept(Flatten(pages[..p]), passes, bounds)|
      invariant TotalEstimate(Kept(Flatten(pages[..p]), passes, bounds)) == Ok(summary)
    {
      assert pages[..p + 1][..p] == pages[..p];
      var page := AddPage(Flatten(pages[..p]), pages[p], count, summary, passes, bounds);
      if page.Raise? {
        FlattenPrefix(pages, p + 1, n);
        RaiseExtends(found, Flatten(pages[..p + 1]), Flatten(pages[..n]), passes, bounds);
        return Raise(page.exc);
      }
      count, summary := page.value.0, page.value.1;
    }
    assert pages[..n] == pages[..n][..n];
    if count == 0 {
      return Raise(ZeroDivisionError);
    }
    r := Ok(Stat(found, count, Trunc(summary / count as real)));
  }

  /** The dictionary `results_hh` / `results_sj` built over the languages in order:
      entry `languages[i]` is set to the value of `outcomes[i]`; the first exception
      ends the whole run. */
  function Collect(languages: seq<string>, outcomes: seq<Result<Stat>>): Result<map<string, Stat>>
    requires |outcomes| == |languages|
  {
    if languages == [] then Ok(map[])
    else
      var n := |languages| - 1;
      match Collect(languages[..n], outcomes[..n])
      case Raise(e) => Raise(e)
      case Ok(m) =>
        match outcomes[n]
        case Raise(e) => Raise(e)
        case Ok(s) => Ok(m[languages[n] := s])
  }

  /** The run completes exactly when every language does, with one entry per
      language; otherwise it raises the exception of the first language that raises. */
  lemma {:induction false} CollectOutcome(languages: seq<string>, outcomes: seq<Result<Stat>>)
    requires |outcomes| == |languages|
    ensures Collect(languages, outcomes).Ok? <==> forall i :: 0 <= i < |outcomes| ==> outcomes[i].Ok?
    ensures Collect(languages, outcomes).Ok? ==> Collect(languages, outcomes).value.Keys == set l | l in languages
    ensures Collect(languages, outcomes).Raise? ==>
      exists i :: 0 <= i < |outcomes| && outcomes[i] == Raise(Collect(languages, outcomes).exc) &&
        (forall j :: 0 <= j < i ==> outcomes[j].Ok?)
  {
    if languages != [] {
      var n := |languages| - 1;
      CollectOutcome(languages[..n], outcomes[..n]);
      assert forall j :: 0 <= j < n ==> outcomes[..n][j] == outcomes[j];
      match Collect(languages[..n], outcomes[..n])
      case Raise(e) =>
        var i :| 0 <= i < n && outcomes[..n][i] == Raise(e) && forall j :: 0 <= j < i ==> outcomes[..n][j].Ok?;
        assert outcomes[i] == Raise(e) && forall j :: 0 <= j < i ==> outcomes[j].Ok?;
      case Ok(m) =>
        assert (set l | l in languages) == (set l | l in languages[..n]) + {languages[n]} by {
          assert languages == languages[..n] + [languages[n]];
        }
    }
  }

  /** The run stops at the first language whose outcome raises. */
  lemma CollectRaiseAt(languages: seq<string>, outcomes: seq<Result<Stat>>, k: nat)
    requires |outcomes| == |languages| && k < |languages|
    requires Collect(languages[..k], outcomes[..k]).Ok? && outcomes[k].Raise?
    ensures Collect(languages, outcomes) == Raise(outcomes[k].exc)
  {
    CollectOutcome(languages[..k], outcomes[..k]);
    CollectOutcome(languages, outcomes);
    assert forall j :: 0 <= j < k ==> outcomes[..k][j] == outcomes[j];
  }

  /** When a language always yields the same outcome, its entry holds that outcome's record. */
  lemma {:induction false} CollectEntries(languages: seq<string>, outcomes: seq<Result<Stat>>)
    requires |outcomes| == |languages|
    requires forall i, j :: 0 <= i < j < |languages| && languages[i] == languages[j] ==> outcomes[i] == outcomes[j]
    requires Collect(languages, outcomes).Ok?
    ensures forall i :: 0 <= i < |languages| ==>
      languages[i] in Collect(languages, outcomes).value && outcomes[i] == Ok(Collect(languages, outcomes).value[languages[i]])
  {
    if languages != [] {
      var n := |languages| - 1;
      CollectOutcome(languages[..n], outcomes[..n]);
      CollectOutcome(languages, outcomes);
      CollectEntries(languages[..n], outcomes[..n]);
    }
  }

  /** The outcomes of the languages in the order of `languages`, looked up by language. */
  function Lookup(languages: seq<string>, outcome: map<string, Result<Stat>>): (r: seq<Result<Stat>>)
    requires forall l :: l in languages ==> l in outcome
    ensures |r| == |languages|
  {
    seq(|languages|, i requires 0 <= i < |languages| => outcome[languages[i]])
  }

  /** Collected language by language: the dictionary holds exactly one entry per
      input language, that language's record, and the run raises exactly when
      some language's outcome does. */
  lemma CollectByLanguage(languages: seq<string>, outcome: map<string, Result<Stat>>)
    requires forall l :: l in languages ==> l in outcome
    ensures Collect(languages, Lookup(languages, outcome)).Ok? ==>
      Collect(languages, Lookup(languages, outcome)).value.Keys == set l | l in languages
    ensures Collect(languages, Lookup(languages, outcome)).Ok? ==>
      forall l :: l in languages ==> outcome[l] == Ok(Collect(languages, Lookup(languages, outcome)).value[l])
    ensures Collect(languages, Lookup(languages, outcome)).Raise? <==>
      exists l :: l in languages && outcome[l].Raise?
  {
    var outcomes := Lookup(languages, outcome);
    var r := Collect(languages, outcomes);
    CollectOutcome(languages, outcomes);
    if r.Ok? {
      CollectEntries(languages, outcomes);
      forall l | l in languages
        ensures outcome[l] == Ok(r.value[l])
      {
        var i :| 0 <= i < |languages| && languages[i] == l;
      }
    } else {
      var i :| 0 <= i < |outcomes| && outcomes[i] == Raise(r.exc);
      assert languages[i] in languages;
    }
  }
}
