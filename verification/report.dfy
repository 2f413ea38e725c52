/** The counters the handlers and the dashboard compute over a list of per-source
    results, defined once as folds from the front, and the step by which the product
    handler accumulates them. */
module Report {
  import opened Strings
  import opened Model

  /** The number of results with at least one update. */
  function WithUpdates(rs: seq<SourceResult>): (n: nat)
    ensures n <= |rs|
    decreases |rs|
  {
    if |rs| == 0 then 0 else WithUpdates(rs[..|rs| - 1]) + (if |rs[|rs| - 1].updates| > 0 then 1 else 0)
  }

  /** The total number of updates over all results. */
  function TotalUpdates(rs: seq<SourceResult>): nat
    decreases |rs|
  {
    if |rs| == 0 then 0 else TotalUpdates(rs[..|rs| - 1]) + |rs[|rs| - 1].updates|
  }

  /** The key a result is counted under in `by_category`. Results of the product
      scraper always carry a category. */
  function CategoryKey(r: SourceResult): string {
    r.category.GetOr("")
  }

  /** The number of results counted under category `c`. */
  function CategoryCount(rs: seq<SourceResult>, c: string): nat
    decreases |rs|
  {
    if |rs| == 0 then 0
    else CategoryCount(rs[..|rs| - 1], c) + (if CategoryKey(rs[|rs| - 1]) == c then 1 else 0)
  }

  /** The number of updates of the results counted under category `c`. */
  function CategoryUpdates(rs: seq<SourceResult>, c: string): nat
    decreases |rs|
  {
    if |rs| == 0 then 0
    else CategoryUpdates(rs[..|rs| - 1], c) + (if CategoryKey(rs[|rs| - 1]) == c then |rs[|rs| - 1].updates| else 0)
  }

  datatype CategoryStats = CategoryStats(products: nat, updates: nat)

  /** The counters of the product handler's `summary`. */
  datatype Tally = Tally(withUpdates: nat, totalUpdates: nat, byCategory: map<string, CategoryStats>)

  /** The categories that occur among the results. */
  function Categories(rs: seq<SourceResult>): set<string> {
    set k | 0 <= k < |rs| :: CategoryKey(rs[k])
  }

  /** The counters agree with the reference folds over `rs`. */
  predicate Counts(t: Tally, rs: seq<SourceResult>) {
    t.withUpdates == WithUpdates(rs)
    && t.totalUpdates == TotalUpdates(rs)
    && t.byCategory.Keys == Categories(rs)
    && forall c :: c in t.byCategory ==>
         t.byCategory[c] == CategoryStats(CategoryCount(rs, c), CategoryUpdates(rs, c))
  }

  /** The statistics the product handler records after pushing one result: the
      non-empty count and the update total grow when the result has updates, and the
      result's category entry is created if missing and incremented. */
  function Step(t: Tally, r: SourceResult): Tally {
    var t' := if |r.updates| > 0
              then t.(withUpdates := t.withUpdates + 1, totalUpdates := t.totalUpdates + |r.updates|)
              else t;
    var c := CategoryKey(r);
    var prev := if c in t'.byCategory then t'.byCategory[c] else CategoryStats(0, 0);
    t'.(byCategory := t'.byCategory[c := CategoryStats(prev.products + 1, prev.updates + |r.updates|)])
  }

  /** One step keeps the counters in agreement with the folds. */
  lemma StepCounts(t: Tally, rs: seq<SourceResult>, r: SourceResult)
    requires Counts(t, rs)
    ensures Counts(Step(t, r), rs + [r])
  {
    var both := rs + [r];
    assert both[..|both| - 1] == rs;
    assert both[|both| - 1] == r;
    var c := CategoryKey(r);
    if c !in t.byCategory {
      AbsentCategory(rs, c);
    }
    CategoriesSnoc(rs, r);
  }

  lemma CategoriesSnoc(rs: seq<SourceResult>, r: SourceResult)
    ensures Categories(rs + [r]) == Categories(rs) + {CategoryKey(r)}
  {
    var both := rs + [r];
    forall c | c in Categories(both) ensures c in Categories(rs) + {CategoryKey(r)} {
      var k :| 0 <= k < |both| && CategoryKey(both[k]) == c;
      if k < |rs| { assert both[k] == rs[k]; }
    }
    forall c | c in Categories(rs) ensures c in Categories(both) {
      var k :| 0 <= k < |rs| && CategoryKey(rs[k]) == c;
      assert both[k] == rs[k];
    }
    assert both[|rs|] == r;
  }

  /** A category that no result carries has count 0 and no updates. */
  lemma {:induction false} AbsentCategory(rs: seq<SourceResult>, c: string)
    requires c !in Categories(rs)
    ensures CategoryCount(rs, c) == 0 && CategoryUpdates(rs, c) == 0
    decreases |rs|
  {
    if |rs| > 0 {
      var init := rs[..|rs| - 1];
      assert Categories(init) <= Categories(rs) by {
        forall x | x in Categories(init) ensures x in Categories(rs) {
          var k :| 0 <= k < |init| && CategoryKey(init[k]) == x;
          assert rs[k] == init[k];
        }
      }
      assert CategoryKey(rs[|rs| - 1]) in Categories(rs);
      AbsentCategory(init, c);
    }
  }

  /** No result has updates exactly when the update total is zero. */
  lemma {:induction false} NoUpdatesIffZeroTotal(rs: seq<SourceResult>)
    ensures WithUpdates(rs) == 0 <==> TotalUpdates(rs) == 0
    decreases |rs|
  {
    if |rs| > 0 {
      NoUpdatesIffZeroTotal(rs[..|rs| - 1]);
    }
  }

  /** When every result has at most `cap` updates the total is at most `cap` per
      result with updates. */
  lemma {:induction false} TotalUpdatesBound(rs: seq<SourceResult>, cap: nat)
    requires forall k :: 0 <= k < |rs| ==> |rs[k].updates| <= cap
    ensures TotalUpdates(rs) <= cap * WithUpdates(rs)
    decreases |rs|
  {
    if |rs| > 0 {
      var init := rs[..|rs| - 1];
      assert forall k :: 0 <= k < |init| ==> init[k] == rs[k];
      TotalUpdatesBound(init, cap);
    }
  }

  /** The counters over two lists put together are the sums of their counters. */
  lemma {:induction false} CountersConcat(a: seq<SourceResult>, b: seq<SourceResult>)
    ensures WithUpdates(a + b) == WithUpdates(a) + WithUpdates(b)
    ensures TotalUpdates(a + b) == TotalUpdates(a) + TotalUpdates(b)
    decreases |b|
  {
    if |b| == 0 {
      assert a + b == a;
    } else {
      var b' := b[..|b| - 1];
      CountersConcat(a, b');
      assert (a + b)[..|a + b| - 1] == a + b';
      assert (a + b)[|a + b| - 1] == b[|b| - 1];
    }
  }

  /** `[...new Set(values)]`: each value once, in order of first occurrence. */
  function Distinct(values: seq<string>, seen: set<string>): seq<string>
    decreases |values|
  {
    if |values| == 0 then []
    else if values[0] in seen then Distinct(values[1..], seen)
    else [values[0]] + Distinct(values[1..], seen + {values[0]})
  }

  /** The distinct values hold every value not already seen, once, and nothing else. */
  lemma {:induction false} DistinctSpec(values: seq<string>, seen: set<string>)
    ensures forall x :: x in Distinct(values, seen) <==> x in values && x !in seen
    ensures forall i, j :: 0 <= i < j < |Distinct(values, seen)| ==>
              Distinct(values, seen)[i] != Distinct(values, seen)[j]
    decreases |values|
  {
    if |values| > 0 {
      var v := values[0];
      if v in seen {
        DistinctSpec(values[1..], seen);
      } else {
        DistinctSpec(values[1..], seen + {v});
        var rest := Distinct(values[1..], seen + {v});
        assert Distinct(values, seen) == [v] + rest;
        assert v !in rest;
      }
      assert forall x :: x in values <==> x == v || x in values[1..] by {
        assert values == [v] + values[1..];
      }
    }
  }

  /** `x` occurs in `values` before any occurrence of `y`. */
  predicate OccursBefore(values: seq<string>, x: string, y: string) {
    exists p :: 0 <= p < |values| && values[p] == x && forall q :: 0 <= q <= p ==> values[q] != y
  }

  lemma OccursBeforeCons(values: seq<string>, x: string, y: string)
    requires |values| > 0 && values[0] != y
    requires OccursBefore(values[1..], x, y)
    ensures OccursBefore(values, x, y)
  {
  }

  /** The distinct values come in order of first occurrence: of any two, the earlier
      one occurs in the input before the later one first does. */
  lemma {:induction false} DistinctOrder(values: seq<string>, seen: set<string>)
    ensures forall i, j :: 0 <= i < j < |Distinct(values, seen)| ==>
              OccursBefore(values, Distinct(values, seen)[i], Distinct(values, seen)[j])
    decreases |values|
  {
    if |values| > 0 {
      var v := values[0];
      var r := Distinct(values, seen);
      if v in seen {
        DistinctOrder(values[1..], seen);
        DistinctSpec(values[1..], seen);
        assert r == Distinct(values[1..], seen);
        forall i, j | 0 <= i < j < |r| ensures OccursBefore(values, r[i], r[j]) {
          assert r[j] in r && r[j] !in seen;
          assert OccursBefore(values[1..], r[i], r[j]);
          OccursBeforeCons(values, r[i], r[j]);
        }
      } else {
        var rest := Distinct(values[1..], seen + {v});
        DistinctOrder(values[1..], seen + {v});
        DistinctSpec(values[1..], seen + {v});
        assert r == [v] + rest;
        forall i, j | 0 <= i < j < |r| ensures OccursBefore(values, r[i], r[j]) {
          assert r[j] == rest[j - 1] && rest[j - 1] in rest;
          if i == 0 {
            assert values[0] == r[i];
          } else {
            assert r[i] == rest[i - 1] && r[j] !in seen + {v};
            assert OccursBefore(values[1..], rest[i - 1], rest[j - 1]);
            OccursBeforeCons(values, r[i], r[j]);
          }
        }
      }
    }
  }
}
