/** The pure pieces of the dashboard script (`script.js`): the product filter behind the
    search box and the three drop-downs, the fallback that merges the news and product
    functions' responses and recomputes the summary, the retry loop around one
    function call, and the CSS class derived from a category name. */
module Dashboard {
  import opened Strings
  import opened Model
  import opened Report

  /** The drop-down value that switches a filter off. */
  const All: string := "All"

  /** `Object.keys(PRODUCT_CATEGORIES)`, in declaration order. */
  const DashboardCategories: seq<string> :=
    ["News", "CRM & Sales", "Finance", "Support", "Productivity", "Development", "HR",
     "Marketing", "Other"]

  /** The `type` string the classifying scrapers write for each update type. */
  function TypeName(t: UpdateType): string {
    match t
    case NewFeatures => "New Features"
    case Improvements => "Improvements"
    case BugFixes => "Bug Fixes"
    case Security => "Security"
    case ApiChanges => "API Changes"
    case PressRelease => "Press Release"
    case News => "News"
    case General => "General"
  }

  /** The `priority` string the classifying scrapers write. */
  function PriorityName(p: Priority): string {
    match p
    case Critical => "Critical"
    case Major => "Major"
    case Normal => "Normal"
  }

  /** Distinct types and priorities are written as distinct strings, none of them
      `All`, so a drop-down value selects at most one type or priority. */
  lemma NamesAreDistinct(t1: UpdateType, t2: UpdateType, p1: Priority, p2: Priority)
    ensures TypeName(t1) == TypeName(t2) ==> t1 == t2
    ensures PriorityName(p1) == PriorityName(p2) ==> p1 == p2
    ensures TypeName(t1) != All && PriorityName(p1) != All
  {
    assert "New Features"[0] != "News"[2];
    assert "Bug Fixes"[0] != "News"[0];
  }

  /** The state of the search box and the three drop-downs. */
  datatype Filters = Filters(search: string, category: string, updateType: string, priority: string)

  /** The search box: the trimmed, lower-cased query is empty or occurs in the
      lower-cased name. */
  predicate MatchesSearch(r: SourceResult, search: string) {
    var q := Trim(LowerStr(search));
    q == "" || Contains(LowerStr(r.name), q)
  }

  /** The category drop-down: `All`, or exactly the result's category. A result without
      a category only passes `All`. */
  predicate MatchesCategory(r: SourceResult, category: string) {
    category == All || r.category == Some(category)
  }

  /** Some update carries the selected type. Updates of the variants that do not
      classify carry no type and never match. */
  predicate HasUpdateOfType(r: SourceResult, name: string) {
    exists k :: 0 <= k < |r.updates| && r.updates[k].tags.Some? && TypeName(r.updates[k].tags.value.kind) == name
  }

  predicate HasUpdateOfPriority(r: SourceResult, name: string) {
    exists k :: 0 <= k < |r.updates| && r.updates[k].tags.Some?
                && PriorityName(r.updates[k].tags.value.priority) == name
  }

  /** The predicate `applyFilters` keeps a result by: all four filters pass. */
  predicate Keep(r: SourceResult, f: Filters) {
    MatchesSearch(r, f.search)
    && MatchesCategory(r, f.category)
    && (f.updateType == All || HasUpdateOfType(r, f.updateType))
    && (f.priority == All || HasUpdateOfPriority(r, f.priority))
  }

  /** `applyFilters()`: `currentData.products.filter(...)`. The result keeps the input's
      order and holds exactly the results that pass every filter. */
  function ApplyFilters(products: seq<SourceResult>, f: Filters): (r: seq<SourceResult>)
    ensures IsSubseq(r, products)
    ensures forall x :: x in r <==> x in products && Keep(x, f)
    ensures |r| <= |products|
    decreases |products|
  {
    if |products| == 0 then []
    else
      var rest := ApplyFilters(products[1..], f);
      FilterStep(products, rest, f);
      if Keep(products[0], f) then [products[0]] + rest else rest
  }

  /** One step of the filter: what holds of the tail's result carries over to the
      whole list, with or without its head. */
  lemma FilterStep(products: seq<SourceResult>, rest: seq<SourceResult>, f: Filters)
    requires |products| > 0
    requires IsSubseq(rest, products[1..])
    requires forall x :: x in rest <==> x in products[1..] && Keep(x, f)
    requires |rest| <= |products[1..]|
    ensures var r := if Keep(products[0], f) then [products[0]] + rest else rest;
            IsSubseq(r, products)
            && (forall x :: x in r <==> x in products && Keep(x, f))
            && |r| <= |products|
  {
    assert products == [products[0]] + products[1..];
    SubseqDropFirst(rest, products);
    if Keep(products[0], f) {
      assert ([products[0]] + rest)[1..] == rest;
    }
  }

  /** Every result that passes the filters is kept as many times as it occurs in the
      input, and no other result is kept at all. */
  lemma {:induction false} ApplyFiltersCounts(products: seq<SourceResult>, f: Filters)
    ensures forall x :: multiset(ApplyFilters(products, f))[x] ==
                          (if Keep(x, f) then multiset(products)[x] else 0)
    decreases |products|
  {
    if |products| > 0 {
      ApplyFiltersCounts(products[1..], f);
      CountsStep(products, ApplyFilters(products, f), ApplyFilters(products[1..], f), x => Keep(x, f));
    }
  }

  /** Keeping or dropping the head of a list carries the tail's counts over to it. */
  lemma CountsStep<T>(s: seq<T>, r: seq<T>, rest: seq<T>, keep: T -> bool)
    requires |s| > 0
    requires r == if keep(s[0]) then [s[0]] + rest else rest
    requires forall x :: multiset(rest)[x] == (if keep(x) then multiset(s[1..])[x] else 0)
    ensures forall x :: multiset(r)[x] == (if keep(x) then multiset(s)[x] else 0)
  {
    assert s == [s[0]] + s[1..];
    assert multiset(s) == multiset{s[0]} + multiset(s[1..]);
    if keep(s[0]) {
      assert multiset(r) == multiset{s[0]} + multiset(rest);
    }
  }

  /** A subsequence of a list's tail is a subsequence of the list. */
  lemma SubseqDropFirst<T>(a: seq<T>, b: seq<T>)
    requires |b| > 0 && IsSubseq(a, b[1..])
    ensures IsSubseq(a, b)
  {
  }

  /** With every drop-down at `All` and a blank query, nothing is filtered out. */
  lemma {:induction false} ApplyFiltersIdentity(products: seq<SourceResult>, f: Filters)
    requires f.category == All && f.updateType == All && f.priority == All
    requires Trim(LowerStr(f.search)) == ""
    ensures ApplyFilters(products, f) == products
    decreases |products|
  {
    if |products| > 0 {
      ApplyFiltersIdentity(products[1..], f);
      assert products == [products[0]] + products[1..];
    }
  }

  /** Filtering the filtered list again changes nothing. */
  lemma {:induction false} ApplyFiltersIdempotent(products: seq<SourceResult>, f: Filters)
    ensures ApplyFilters(ApplyFilters(products, f), f) == ApplyFilters(products, f)
    decreases |products|
  {
    if |products| > 0 {
      ApplyFiltersIdempotent(products[1..], f);
      var rest := ApplyFilters(products[1..], f);
      if Keep(products[0], f) {
        assert ([products[0]] + rest)[1..] == rest;
      }
    }
  }

  /** A query with letters in any case finds the same results as its lower-case form. */
  lemma SearchIgnoresCase(r: SourceResult, search: string)
    ensures MatchesSearch(r, search) == MatchesSearch(r, LowerStr(search))
  {
    assert LowerStr(LowerStr(search)) == LowerStr(search) by {
      forall i | 0 <= i < |search| ensures Lower(Lower(search[i])) == Lower(search[i]) {}
    }
  }

  /** The recomputed `summary` of the merged response. `by_category` stays empty. */
  datatype Summary = Summary(totalProducts: nat, productsWithUpdates: nat, totalUpdates: nat)

  datatype Combined = Combined(products: seq<SourceResult>, categories: seq<string>, summary: Summary)

  const NoDataMessage: string := "No data from any function"

  /** The products of one function's response; a call that failed after its retries
      contributes none. */
  function ProductsOf(response: Result<seq<SourceResult>>): seq<SourceResult> {
    match response
    case Success(products) => products
    case Failure(_) => []
  }

  /** `fetchFromIndividualFunctions()` after both calls have settled. */
  function Merge(news: Result<seq<SourceResult>>, products: Result<seq<SourceResult>>)
    : (r: Result<Combined>)
    ensures r.Failure? <==> ProductsOf(news) == [] && ProductsOf(products) == []
    ensures r.Failure? ==> r.error == NoDataMessage
    ensures r.Success? ==>
              var a := ProductsOf(news);
              var b := ProductsOf(products);
              |r.value.products| == |a| + |b|
              && r.value.products[..|a|] == a && r.value.products[|a|..] == b
              && r.value.categories == DashboardCategories
              && r.value.summary.totalProducts == |a| + |b|
              && r.value.summary.productsWithUpdates == WithUpdates(a) + WithUpdates(b)
              && r.value.summary.totalUpdates == TotalUpdates(a) + TotalUpdates(b)
  {
    var all := ProductsOf(news) + ProductsOf(products);
    CountersConcat(ProductsOf(news), ProductsOf(products));
    if |all| == 0 then Failure(NoDataMessage)
    else Success(Combined(all, DashboardCategories,
                          Summary(|all|, WithUpdates(all), TotalUpdates(all))))
  }

  /** The merged summary is consistent: no more results with updates than results, and
      none with updates exactly when there are no updates at all. */
  lemma MergeSummaryConsistent(news: Result<seq<SourceResult>>, products: Result<seq<SourceResult>>)
    ensures var r := Merge(news, products);
            r.Success? ==>
              r.value.summary.productsWithUpdates <= r.value.summary.totalProducts
              && (r.value.summary.productsWithUpdates == 0 <==> r.value.summary.totalUpdates == 0)
  {
    var all := ProductsOf(news) + ProductsOf(products);
    NoUpdatesIffZeroTotal(all);
  }

  /** `maxRetries` when `fetchWithRetry` is called without one. */
  const MaxRetries: nat := 2

  /** The retry loop settles on attempt `i`: every earlier attempt failed, and this one
      succeeded or was the last one allowed. */
  predicate SettlesAt<T>(attempt: nat -> Result<T>, maxRetries: nat, i: nat) {
    i <= maxRetries
    && (forall k :: 0 <= k < i ==> attempt(k).Failure?)
    && (attempt(i).Success? || i == maxRetries)
  }

  /** `fetchWithRetry(url, maxRetries)`: `attempt(i)` is the outcome of attempt `i`
      (a non-OK HTTP status or a body with `error` set is a failure). Returns the
      outcome and the number of attempts made. */
  method FetchWithRetry<T>(attempt: nat -> Result<T>, maxRetries: nat)
    returns (r: Result<T>, tries: nat)
    ensures 1 <= tries <= maxRetries + 1
    ensures forall i :: 0 <= i < tries - 1 ==> attempt(i).Failure?
    ensures r == attempt(tries - 1)
    ensures r.Failure? ==> tries == maxRetries + 1
    ensures SettlesAt(attempt, maxRetries, tries - 1)
  {
    var i := 0;
    while true
      invariant 0 <= i <= maxRetries
      invariant forall j :: 0 <= j < i ==> attempt(j).Failure?
      decreases maxRetries - i
    {
      r := attempt(i);
      if r.Success? || i == maxRetries {
        tries := i + 1;
        return;
      }
      i := i + 1;
    }
  }

  /** `fetchFromIndividualFunctions()`: both functions are called with the default
      retries; a call that fails for good contributes no products. */
  method FetchFromIndividualFunctions(newsAttempt: nat -> Result<seq<SourceResult>>,
                                      productsAttempt: nat -> Result<seq<SourceResult>>)
    returns (r: Result<Combined>)
    ensures r.Failure? ==> r.error == NoDataMessage
    ensures exists i: nat, j: nat ::
              SettlesAt(newsAttempt, MaxRetries, i) && SettlesAt(productsAttempt, MaxRetries, j)
              && r == Merge(newsAttempt(i), productsAttempt(j))
  {
    var news, n := FetchWithRetry(newsAttempt, MaxRetries);
    var products, m := FetchWithRetry(productsAttempt, MaxRetries);
    r := Merge(news, products);
    assert r == Merge(newsAttempt(n - 1), productsAttempt(m - 1));
  }

  /** The character class `category.toLowerCase().replace(/[^a-z0-9]/g, '-')` gives one
      character. */
  function SlugChar(c: char): char {
    if IsLowerAlnum(Lower(c)) then Lower(c) else '-'
  }

  /** The CSS class suffix of a category badge. */
  function CategorySlug(category: string): (r: string)
    ensures |r| == |category|
    ensures forall i :: 0 <= i < |r| ==> IsLowerAlnum(r[i]) || r[i] == '-'
  {
    seq(|category|, i requires 0 <= i < |category| => SlugChar(category[i]))
  }

  /** Letters and digits survive lower-cased at their position and everything else
      becomes a dash; a slug is its own slug, and a name's case does not change it. */
  lemma CategorySlugSpec(category: string)
    ensures forall i :: 0 <= i < |category| ==>
              (('a' <= category[i] <= 'z' || '0' <= category[i] <= '9') ==> CategorySlug(category)[i] == category[i])
              && (('A' <= category[i] <= 'Z') ==> CategorySlug(category)[i] == (category[i] as int + 32) as char)
              && (!IsLowerAlnum(Lower(category[i])) ==> CategorySlug(category)[i] == '-')
    ensures CategorySlug(CategorySlug(category)) == CategorySlug(category)
    ensures CategorySlug(LowerStr(category)) == CategorySlug(category)
  {
  }

  /** The badge classes of the dashboard's categories. */
  lemma DashboardSlugs()
    ensures CategorySlug("CRM & Sales") == "crm---sales"
    ensures CategorySlug("HR") == "hr"
  {
  }
}
