/** `deduplicateUpdates`, identical in the three Netlify functions: keep the first item
    of each normalised title, drop items whose normalised title has at most ten
    characters, then sort newest-first with a stable sort. */
module Dedupe {
  import opened Strings
  import opened Model

  /** `title.toLowerCase().replace(/[^a-z0-9]/g, '')`. */
  function Normalize(title: string): (r: string)
    ensures |r| <= |title|
    ensures forall i :: 0 <= i < |r| ==> IsLowerAlnum(r[i])
    decreases |title|
  {
    if |title| == 0 then ""
    else
      var c := Lower(title[0]);
      (if IsLowerAlnum(c) then [c] else []) + Normalize(title[1..])
  }

  /** A title that is already lower-case letters and digits normalises to itself. */
  lemma {:induction false} NormalizeFixed(t: string)
    requires forall i :: 0 <= i < |t| ==> IsLowerAlnum(t[i])
    ensures Normalize(t) == t
    decreases |t|
  {
    if |t| > 0 {
      NormalizeFixed(t[1..]);
      assert t == [t[0]] + t[1..];
    }
  }

  /** Normalising is idempotent. */
  lemma NormalizeIdempotent(t: string)
    ensures Normalize(Normalize(t)) == Normalize(t)
  {
    NormalizeFixed(Normalize(t));
  }

  function Key(u: UpdateItem): string {
    Normalize(u.title)
  }

  /** The loop over `updates` with the set `seenTitles`. */
  function KeepFirst(items: seq<UpdateItem>, seen: set<string>): seq<UpdateItem>
    decreases |items|
  {
    if |items| == 0 then []
    else
      var k := Key(items[0]);
      if k !in seen && |k| > 10 then [items[0]] + KeepFirst(items[1..], seen + {k})
      else KeepFirst(items[1..], seen)
  }

  /** Item `i` is the first of `items` with its normalised title, and that title is long
      enough (more than ten characters) to be kept. */
  predicate FirstWithKey(items: seq<UpdateItem>, i: int)
    requires 0 <= i < |items|
  {
    |Key(items[i])| > 10 && forall j :: 0 <= j < i ==> Key(items[j]) != Key(items[i])
  }

  predicate UniqueKeys(s: seq<UpdateItem>) {
    forall a, b :: 0 <= a < b < |s| ==> Key(s[a]) != Key(s[b])
  }

  lemma {:induction false} KeepFirstKeys(items: seq<UpdateItem>, seen: set<string>)
    ensures forall a :: 0 <= a < |KeepFirst(items, seen)| ==>
              Key(KeepFirst(items, seen)[a]) !in seen && |Key(KeepFirst(items, seen)[a])| > 10
    ensures UniqueKeys(KeepFirst(items, seen))
    decreases |items|
  {
    if |items| > 0 {
      var k := Key(items[0]);
      if k !in seen && |k| > 10 {
        var rest := KeepFirst(items[1..], seen + {k});
        KeepFirstKeys(items[1..], seen + {k});
        var r := [items[0]] + rest;
        assert KeepFirst(items, seen) == r;
        forall a | 0 <= a < |r| ensures Key(r[a]) !in seen && |Key(r[a])| > 10 {
          if a > 0 { assert r[a] == rest[a - 1]; }
        }
        forall a, b | 0 <= a < b < |r| ensures Key(r[a]) != Key(r[b]) {
          assert r[b] == rest[b - 1];
          if a > 0 { assert r[a] == rest[a - 1]; }
        }
      } else {
        KeepFirstKeys(items[1..], seen);
      }
    }
  }

  /** `x` is an item of `items` whose title was not seen and is the first, long enough,
      with its normalised title. */
  predicate KeptFrom(items: seq<UpdateItem>, seen: set<string>, x: UpdateItem) {
    exists i :: 0 <= i < |items| && items[i] == x && Key(items[i]) !in seen && FirstWithKey(items, i)
  }

  /** The set of seen titles after the loop has looked at `u`. */
  function SeenAfter(u: UpdateItem, seen: set<string>): set<string> {
    if Key(u) !in seen && |Key(u)| > 10 then seen + {Key(u)} else seen
  }

  /** What the rest of the loop keeps is kept from the whole list. */
  lemma KeptFromShift(items: seq<UpdateItem>, seen: set<string>, x: UpdateItem)
    requires |items| > 0 && KeptFrom(items[1..], SeenAfter(items[0], seen), x)
    ensures KeptFrom(items, seen, x)
  {
    var seen' := SeenAfter(items[0], seen);
    var i' :| 0 <= i' < |items[1..]| && items[1..][i'] == x
              && Key(items[1..][i']) !in seen' && FirstWithKey(items[1..], i');
    assert items[i' + 1] == x;
    forall j | 0 <= j < i' + 1 ensures Key(items[j]) != Key(items[i' + 1]) {
      if j > 0 {
        assert items[j] == items[1..][j - 1];
      }
    }
    assert FirstWithKey(items, i' + 1);
  }

  /** Every kept item is the first of the input with its normalised title, and that
      title had not been seen. */
  lemma {:induction false} KeepFirstSound(items: seq<UpdateItem>, seen: set<string>)
    ensures forall a :: 0 <= a < |KeepFirst(items, seen)| ==> KeptFrom(items, seen, KeepFirst(items, seen)[a])
    decreases |items|
  {
    if |items| > 0 {
      var k := Key(items[0]);
      var seen' := SeenAfter(items[0], seen);
      var rest := KeepFirst(items[1..], seen');
      KeepFirstSound(items[1..], seen');
      forall a | 0 <= a < |rest| ensures KeptFrom(items, seen, rest[a]) {
        KeptFromShift(items, seen, rest[a]);
      }
      var r := KeepFirst(items, seen);
      if k !in seen && |k| > 10 {
        assert FirstWithKey(items, 0);
        assert KeptFrom(items, seen, items[0]);
        assert r == [items[0]] + rest;
        forall a | 0 <= a < |r| ensures KeptFrom(items, seen, r[a]) {
          if a > 0 {
            assert r[a] == rest[a - 1];
          }
        }
      } else {
        assert r == rest;
      }
    }
  }

  lemma {:induction false} KeepFirstComplete(items: seq<UpdateItem>, seen: set<string>)
    ensures forall i :: 0 <= i < |items| && Key(items[i]) !in seen && FirstWithKey(items, i) ==>
              items[i] in KeepFirst(items, seen)
    decreases |items|
  {
    if |items| > 0 {
      var k := Key(items[0]);
      var seen' := if k !in seen && |k| > 10 then seen + {k} else seen;
      KeepFirstComplete(items[1..], seen');
      forall i | 1 <= i < |items| && Key(items[i]) !in seen && FirstWithKey(items, i)
        ensures items[i] in KeepFirst(items, seen)
      {
        assert items[i] == items[1..][i - 1];
        forall j | 0 <= j < i - 1 ensures Key(items[1..][j]) != Key(items[1..][i - 1]) {
          assert items[1..][j] == items[j + 1];
        }
        assert FirstWithKey(items[1..], i - 1);
        assert Key(items[0]) != Key(items[i]);
      }
    }
  }

  lemma {:induction false} KeepFirstSubseq(items: seq<UpdateItem>, seen: set<string>)
    ensures IsSubseq(KeepFirst(items, seen), items)
    decreases |items|
  {
    if |items| > 0 {
      var k := Key(items[0]);
      if k !in seen && |k| > 10 {
        KeepFirstSubseq(items[1..], seen + {k});
        assert KeepFirst(items, seen)[1..] == KeepFirst(items[1..], seen + {k});
      } else {
        KeepFirstSubseq(items[1..], seen);
      }
    }
  }

  /** Inserts `x` after every item strictly newer than it, so before the items of its own
      date that were inserted earlier (those come later in the input). */
  function Insert(x: UpdateItem, s: seq<UpdateItem>): seq<UpdateItem>
    decreases |s|
  {
    if |s| == 0 then [x]
    else if Later(s[0].date, x.date) then [s[0]] + Insert(x, s[1..])
    else [x] + s
  }

  /** `Array.prototype.sort` with comparator `new Date(b.date) - new Date(a.date)`, which
      is stable. */
  function SortNewestFirst(s: seq<UpdateItem>): seq<UpdateItem>
    decreases |s|
  {
    if |s| == 0 then [] else Insert(s[0], SortNewestFirst(s[1..]))
  }

  predicate NewestFirst(s: seq<UpdateItem>) {
    forall i, j :: 0 <= i < j < |s| ==> !Later(s[j].date, s[i].date)
  }

  /** The items of `s` that carry date `d`, in order. */
  function WithDate(s: seq<UpdateItem>, d: Date): seq<UpdateItem>
    decreases |s|
  {
    if |s| == 0 then []
    else (if s[0].date == d then [s[0]] else []) + WithDate(s[1..], d)
  }

  lemma LaterFacts(a: Date, b: Date, c: Date)
    ensures !Later(a, a)
    ensures Later(a, b) ==> !Later(b, a)
    ensures a != b ==> Later(a, b) || Later(b, a)
    ensures !Later(b, a) && !Later(c, b) ==> !Later(c, a)
  {
  }

  /** Every element of `Insert(x, s)` is `x` or an element of `s`. */
  lemma {:induction false} InsertMultiset(x: UpdateItem, s: seq<UpdateItem>)
    ensures multiset(Insert(x, s)) == multiset(s) + multiset{x}
    ensures forall y :: y in Insert(x, s) <==> y == x || y in s
    decreases |s|
  {
    if |s| > 0 {
      InsertMultiset(x, s[1..]);
      assert s == [s[0]] + s[1..];
      if Later(s[0].date, x.date) {
        assert Insert(x, s) == [s[0]] + Insert(x, s[1..]);
      }
    }
  }

  lemma {:induction false} InsertWithDate(x: UpdateItem, s: seq<UpdateItem>, d: Date)
    ensures WithDate(Insert(x, s), d) == (if x.date == d then [x] else []) + WithDate(s, d)
    decreases |s|
  {
    if |s| > 0 {
      if Later(s[0].date, x.date) {
        var t := Insert(x, s[1..]);
        InsertWithDate(x, s[1..], d);
        assert Insert(x, s) == [s[0]] + t;
        assert ([s[0]] + t)[1..] == t;
        LaterFacts(s[0].date, x.date, x.date);
      } else {
        assert Insert(x, s) == [x] + s;
        assert ([x] + s)[1..] == s;
      }
    }
  }

  /** The tail of a newest-first list is newest first, and its head is no older than
      anything in the tail. */
  lemma SortedTail(s: seq<UpdateItem>)
    requires |s| > 0 && NewestFirst(s)
    ensures NewestFirst(s[1..])
    ensures forall z :: z in s[1..] ==> !Later(z.date, s[0].date)
  {
    forall i, j | 0 <= i < j < |s[1..]| ensures !Later(s[1..][j].date, s[1..][i].date) {
      assert s[1..][i] == s[i + 1] && s[1..][j] == s[j + 1];
    }
    forall z | z in s[1..] ensures !Later(z.date, s[0].date) {
      var m :| 0 <= m < |s[1..]| && s[1..][m] == z;
      assert s[m + 1] == z;
    }
  }

  /** An item no older than anything in a newest-first list can go in front of it. */
  lemma SortedCons(y: UpdateItem, t: seq<UpdateItem>)
    requires NewestFirst(t)
    requires forall z :: z in t ==> !Later(z.date, y.date)
    ensures NewestFirst([y] + t)
  {
    var r := [y] + t;
    forall i, j | 0 <= i < j < |r| ensures !Later(r[j].date, r[i].date) {
      assert r[j] == t[j - 1];
      if i > 0 {
        assert r[i] == t[i - 1];
      }
    }
  }

  lemma {:induction false} InsertSorted(x: UpdateItem, s: seq<UpdateItem>)
    requires NewestFirst(s)
    ensures NewestFirst(Insert(x, s))
    decreases |s|
  {
    if |s| == 0 {
      assert Insert(x, s) == [x];
    } else if Later(s[0].date, x.date) {
      var t := Insert(x, s[1..]);
      SortedTail(s);
      InsertSorted(x, s[1..]);
      InsertMultiset(x, s[1..]);
      forall z | z in t ensures !Later(z.date, s[0].date) {
        LaterFacts(s[0].date, x.date, x.date);
      }
      SortedCons(s[0], t);
    } else {
      forall z | z in s ensures !Later(z.date, x.date) {
        if z != s[0] {
          SortedTail(s);
          assert z in s[1..] by {
            var m :| 0 <= m < |s| && s[m] == z;
            assert s[1..][m - 1] == z;
          }
          LaterFacts(x.date, s[0].date, z.date);
        }
      }
      SortedCons(x, s);
    }
  }

  /** Dropping the head keeps the keys distinct. */
  lemma UniqueTail(s: seq<UpdateItem>)
    requires |s| > 0 && UniqueKeys(s)
    ensures UniqueKeys(s[1..])
    ensures forall y :: y in s[1..] ==> Key(y) != Key(s[0])
  {
    forall a, b | 0 <= a < b < |s[1..]| ensures Key(s[1..][a]) != Key(s[1..][b]) {
      assert s[1..][a] == s[a + 1] && s[1..][b] == s[b + 1];
    }
    forall y | y in s[1..] ensures Key(y) != Key(s[0]) {
      var m :| 0 <= m < |s[1..]| && s[1..][m] == y;
      assert s[m + 1] == y;
    }
  }

  /** Putting an item in front of a list with distinct keys keeps them distinct when
      its key is new. */
  lemma UniqueCons(y: UpdateItem, t: seq<UpdateItem>)
    requires UniqueKeys(t)
    requires forall z :: z in t ==> Key(z) != Key(y)
    ensures UniqueKeys([y] + t)
  {
    var r := [y] + t;
    forall i, j | 0 <= i < j < |r| ensures Key(r[i]) != Key(r[j]) {
      assert r[j] == t[j - 1];
      if i > 0 {
        assert r[i] == t[i - 1];
      }
    }
  }

  lemma {:induction false} InsertUnique(x: UpdateItem, s: seq<UpdateItem>)
    requires UniqueKeys(s)
    requires forall y :: y in s ==> Key(y) != Key(x)
    ensures UniqueKeys(Insert(x, s))
    decreases |s|
  {
    if |s| == 0 {
      assert Insert(x, s) == [x];
    } else if Later(s[0].date, x.date) {
      var t := Insert(x, s[1..]);
      UniqueTail(s);
      InsertUnique(x, s[1..]);
      InsertMultiset(x, s[1..]);
      forall z | z in t ensures Key(z) != Key(s[0]) {
        assert z in multiset(s[1..]) + multiset{x};
      }
      UniqueCons(s[0], t);
    } else {
      UniqueCons(x, s);
    }
  }

  lemma {:induction false} SortMultiset(s: seq<UpdateItem>)
    ensures multiset(SortNewestFirst(s)) == multiset(s)
    decreases |s|
  {
    if |s| > 0 {
      SortMultiset(s[1..]);
      InsertMultiset(s[0], SortNewestFirst(s[1..]));
      assert s == [s[0]] + s[1..];
    }
  }

  lemma {:induction false} SortWithDate(s: seq<UpdateItem>, d: Date)
    ensures WithDate(SortNewestFirst(s), d) == WithDate(s, d)
    decreases |s|
  {
    if |s| > 0 {
      SortWithDate(s[1..], d);
      InsertWithDate(s[0], SortNewestFirst(s[1..]), d);
      assert s == [s[0]] + s[1..];
    }
  }

  lemma {:induction false} SortIsNewestFirst(s: seq<UpdateItem>)
    ensures NewestFirst(SortNewestFirst(s))
    decreases |s|
  {
    if |s| > 0 {
      SortIsNewestFirst(s[1..]);
      InsertSorted(s[0], SortNewestFirst(s[1..]));
    }
  }

  lemma {:induction false} SortUnique(s: seq<UpdateItem>)
    requires UniqueKeys(s)
    ensures UniqueKeys(SortNewestFirst(s))
    decreases |s|
  {
    if |s| > 0 {
      var t := SortNewestFirst(s[1..]);
      UniqueTail(s);
      SortUnique(s[1..]);
      SortMultiset(s[1..]);
      forall y | y in t ensures Key(y) != Key(s[0]) {
        assert y in multiset(s[1..]);
      }
      InsertUnique(s[0], t);
    }
  }

  /** Sorting rearranges the list, keeps the order within each date, yields a
      newest-first list and keeps distinct keys distinct. */
  lemma SortFacts(s: seq<UpdateItem>)
    ensures multiset(SortNewestFirst(s)) == multiset(s)
    ensures forall d :: WithDate(SortNewestFirst(s), d) == WithDate(s, d)
    ensures NewestFirst(SortNewestFirst(s))
    ensures UniqueKeys(s) ==> UniqueKeys(SortNewestFirst(s))
  {
    SortMultiset(s);
    forall d ensures WithDate(SortNewestFirst(s), d) == WithDate(s, d) {
      SortWithDate(s, d);
    }
    SortIsNewestFirst(s);
    if UniqueKeys(s) {
      SortUnique(s);
    }
  }

  /** `deduplicateUpdates(updates)`. */
  function Deduplicate(items: seq<UpdateItem>): seq<UpdateItem> {
    SortNewestFirst(KeepFirst(items, {}))
  }

  /** What `deduplicateUpdates` promises: the result is sorted newest-first, no two items
      share a normalised title, every normalised title is longer than ten characters,
      each item is the first input item with its normalised title, every such first item
      survives, and items of equal date keep their input order. */
  lemma DeduplicateSpec(items: seq<UpdateItem>)
    ensures NewestFirst(Deduplicate(items))
    ensures UniqueKeys(Deduplicate(items))
    ensures forall a :: 0 <= a < |Deduplicate(items)| ==> |Key(Deduplicate(items)[a])| > 10
    ensures forall a :: 0 <= a < |Deduplicate(items)| ==>
              exists i :: 0 <= i < |items| && items[i] == Deduplicate(items)[a] && FirstWithKey(items, i)
    ensures forall i :: 0 <= i < |items| && FirstWithKey(items, i) ==> items[i] in Deduplicate(items)
    ensures |Deduplicate(items)| <= |items|
    ensures IsSubseq(KeepFirst(items, {}), items)
    ensures forall d :: WithDate(Deduplicate(items), d) == WithDate(KeepFirst(items, {}), d)
  {
    var kept := KeepFirst(items, {});
    var r := Deduplicate(items);
    KeepFirstKeys(items, {});
    KeepFirstSound(items, {});
    KeepFirstComplete(items, {});
    KeepFirstSubseq(items, {});
    SortFacts(kept);
    SubseqLength(kept, items);
    assert |r| == |multiset(r)| == |multiset(kept)| == |kept|;
    forall a | 0 <= a < |r|
      ensures |Key(r[a])| > 10
      ensures exists i :: 0 <= i < |items| && items[i] == r[a] && FirstWithKey(items, i)
    {
      assert r[a] in multiset(kept);
      var m :| 0 <= m < |kept| && kept[m] == r[a];
      assert KeptFrom(items, {}, kept[m]);
    }
    forall i | 0 <= i < |items| && FirstWithKey(items, i) ensures items[i] in r {
      assert items[i] in multiset(r);
    }
  }

  lemma {:induction false} SubseqLength<T>(a: seq<T>, b: seq<T>)
    requires IsSubseq(a, b)
    ensures |a| <= |b|
    decreases |b|
  {
    if |a| > 0 {
      if a[0] == b[0] && IsSubseq(a[1..], b[1..]) {
        SubseqLength(a[1..], b[1..]);
      } else {
        SubseqLength(a, b[1..]);
      }
    }
  }

  /** Every item of `r` is the first item of `items` with its normalised title. */
  predicate FirstOccurrences(r: seq<UpdateItem>, items: seq<UpdateItem>) {
    forall a :: 0 <= a < |r| ==>
      exists i :: 0 <= i < |items| && items[i] == r[a] && FirstWithKey(items, i)
  }

  /** The first `n` deduplicated items, as the Netlify functions keep them: still newest
      first, still without two items of the same normalised title, and each of them the
      first input item with its normalised title. */
  lemma DeduplicatedPrefix(items: seq<UpdateItem>, n: nat)
    ensures NewestFirst(Take(Deduplicate(items), n)) && UniqueKeys(Take(Deduplicate(items), n))
    ensures FirstOccurrences(Take(Deduplicate(items), n), items)
  {
    var d := Deduplicate(items);
    DeduplicateSpec(items);
    var r := Take(d, n);
    assert forall a :: 0 <= a < |r| ==> r[a] == d[a];
  }

  /** A list whose normalised titles are distinct, long enough and not yet seen passes
      the loop unchanged. */
  lemma {:induction false} KeepFirstKeepsAll(s: seq<UpdateItem>, seen: set<string>)
    requires UniqueKeys(s)
    requires forall a :: 0 <= a < |s| ==> Key(s[a]) !in seen && |Key(s[a])| > 10
    ensures KeepFirst(s, seen) == s
    decreases |s|
  {
    if |s| > 0 {
      var k := Key(s[0]);
      var rest := s[1..];
      forall a | 0 <= a < |rest| ensures Key(rest[a]) !in seen + {k} && |Key(rest[a])| > 10 {
        assert rest[a] == s[a + 1];
      }
      assert UniqueKeys(rest) by {
        forall a, b | 0 <= a < b < |rest| ensures Key(rest[a]) != Key(rest[b]) {
          assert rest[a] == s[a + 1] && rest[b] == s[b + 1];
        }
      }
      KeepFirstKeepsAll(rest, seen + {k});
      assert [s[0]] + rest == s;
    }
  }

  /** Sorting a list that is already newest first leaves it as it is: the sort is
      stable. */
  lemma {:induction false} SortSorted(s: seq<UpdateItem>)
    requires NewestFirst(s)
    ensures SortNewestFirst(s) == s
    decreases |s|
  {
    if |s| > 0 {
      var rest := s[1..];
      assert NewestFirst(rest) by {
        forall i, j | 0 <= i < j < |rest| ensures !Later(rest[j].date, rest[i].date) {
          assert rest[i] == s[i + 1] && rest[j] == s[j + 1];
        }
      }
      SortSorted(rest);
      if |rest| > 0 {
        assert rest[0] == s[1];
      }
      assert [s[0]] + rest == s;
    }
  }

  /** Deduplicating a deduplicated list changes nothing. */
  lemma DeduplicateIdempotent(items: seq<UpdateItem>)
    ensures Deduplicate(Deduplicate(items)) == Deduplicate(items)
  {
    var d := Deduplicate(items);
    DeduplicateSpec(items);
    KeepFirstKeepsAll(d, {});
    SortSorted(d);
  }
}
