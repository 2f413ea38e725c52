/** The extraction engine shared by the scraper variants. A structural regex template
    is abstracted as the list of its matches in document order (the captured heading
    text and the match offset); the loop, cap and first-productive-template logic around
    the templates, the context window, the ordered date patterns and the summary text
    pipeline are modelled as the code does them. */
module Extract {
  import opened Strings
  import opened Model

  /** One `pattern.exec(html)` result: capture group 1 and `match.index`. */
  datatype Match = Match(capture: string, index: int)

  /** A `/g` regex run to exhaustion over a document. */
  type Template = string -> seq<Match>

  /** An accepted match: its trimmed title and where it was found. */
  datatype Hit = Hit(title: string, index: int)

  /** The parts of a page extractor that stand for regular expressions, the host's date
      parser and the clock: the structural templates in the order the code lists them,
      the date regexes in order, `new Date(text)` followed by `toISOString`, the first
      `href` of the anchor regex in a context, and today's date. */
  datatype Oracles = Oracles(templates: seq<Template>, datePatterns: seq<DatePattern>,
                             parseDate: string -> Option<Date>,
                             firstHref: string -> Option<string>, today: Date)

  /** Length bounds plus a case-insensitive denylist, the shape of every title validator. */
  predicate PassesDenylist(title: string, minLen: nat, maxLen: nat, denylist: seq<string>) {
    minLen <= |title| <= maxLen
    && forall k :: 0 <= k < |denylist| ==> !Contains(LowerStr(title), denylist[k])
  }

  /** Denylist terms are matched regardless of case: a title containing any casing of a
      lower-case denylist term fails the check. */
  lemma DenylistIgnoresCase(title: string, minLen: nat, maxLen: nat, denylist: seq<string>,
                            part: string, k: int)
    requires 0 <= k < |denylist|
    requires Contains(title, part) && LowerStr(part) == denylist[k]
    ensures !PassesDenylist(title, minLen, maxLen, denylist)
  {
    ContainsLower(title, part);
  }

  /** Whether a match is accepted: `if (match[1])` and then the validator on the trimmed
      capture. */
  predicate Accepts(m: Match, valid: string -> bool) {
    m.capture != "" && valid(Trim(m.capture))
  }

  /** A title as the loops push it: already trimmed and accepted by the validator. */
  predicate GoodTitle(t: string, valid: string -> bool) {
    valid(t) && t == Trim(t)
  }

  /** Every accepted match, in document order, without a cap. */
  function ValidHits(ms: seq<Match>, valid: string -> bool): (r: seq<Hit>)
    ensures |r| <= |ms|
    decreases |ms|
  {
    if |ms| == 0 then []
    else if Accepts(ms[0], valid) then [Hit(Trim(ms[0].capture), ms[0].index)] + ValidHits(ms[1..], valid)
    else ValidHits(ms[1..], valid)
  }

  /** The accepted hits carry trimmed valid titles, and there are none exactly when no
      match is accepted. */
  lemma {:induction false} ValidHitsSpec(ms: seq<Match>, valid: string -> bool)
    ensures forall k :: 0 <= k < |ValidHits(ms, valid)| ==> GoodTitle(ValidHits(ms, valid)[k].title, valid)
    ensures ValidHits(ms, valid) == [] <==> forall i :: 0 <= i < |ms| ==> !Accepts(ms[i], valid)
  {
    ValidHitsTitles(ms, valid);
    assert GoodHits(ValidHits(ms, valid), valid);
    ValidHitsEmpty(ms, valid);
  }

  /** Every hit carries a title as the loops push it. */
  predicate GoodHits(hits: seq<Hit>, valid: string -> bool) {
    forall k :: 0 <= k < |hits| ==> GoodTitle(hits[k].title, valid)
  }

  lemma GoodHitsCons(h: Hit, rest: seq<Hit>, valid: string -> bool)
    requires GoodTitle(h.title, valid) && GoodHits(rest, valid)
    ensures GoodHits([h] + rest, valid)
  {
    var r := [h] + rest;
    forall k | 0 <= k < |r| ensures GoodTitle(r[k].title, valid) {
      if k > 0 {
        assert r[k] == rest[k - 1];
      }
    }
  }

  lemma {:induction false} ValidHitsTitles(ms: seq<Match>, valid: string -> bool)
    ensures GoodHits(ValidHits(ms, valid), valid)
    decreases |ms|
  {
    if |ms| > 0 {
      var rest := ValidHits(ms[1..], valid);
      ValidHitsTitles(ms[1..], valid);
      if Accepts(ms[0], valid) {
        var h := Hit(Trim(ms[0].capture), ms[0].index);
        TrimIdempotent(ms[0].capture);
        GoodHitsCons(h, rest, valid);
      }
    }
  }

  lemma {:induction false} ValidHitsEmpty(ms: seq<Match>, valid: string -> bool)
    ensures ValidHits(ms, valid) == [] <==> forall i :: 0 <= i < |ms| ==> !Accepts(ms[i], valid)
    decreases |ms|
  {
    if |ms| > 0 {
      ValidHitsEmpty(ms[1..], valid);
      assert forall i :: 1 <= i < |ms| ==> ms[i] == ms[1..][i - 1];
    }
  }

  /** The `while ((match = pattern.exec(html)) !== null && count < cap)` loop: accepted
      matches are taken in order until `cap` of them have been taken. */
  function TakeHits(ms: seq<Match>, valid: string -> bool, cap: nat): seq<Hit>
    decreases |ms|
  {
    if |ms| == 0 || cap == 0 then []
    else if Accepts(ms[0], valid) then
      [Hit(Trim(ms[0].capture), ms[0].index)] + TakeHits(ms[1..], valid, cap - 1)
    else TakeHits(ms[1..], valid, cap)
  }

  /** The capped loop yields exactly the first `cap` accepted matches. */
  lemma {:induction false} TakeHitsIsPrefix(ms: seq<Match>, valid: string -> bool, cap: nat)
    ensures TakeHits(ms, valid, cap) == Take(ValidHits(ms, valid), cap)
    decreases |ms|
  {
    if |ms| > 0 && cap > 0 {
      var rest := ms[1..];
      if Accepts(ms[0], valid) {
        var h := Hit(Trim(ms[0].capture), ms[0].index);
        TakeHitsIsPrefix(rest, valid, cap - 1);
        assert ValidHits(ms, valid) == [h] + ValidHits(rest, valid);
        assert TakeHits(ms, valid, cap) == [h] + TakeHits(rest, valid, cap - 1);
        TakeCons(h, ValidHits(rest, valid), cap);
      } else {
        TakeHitsIsPrefix(rest, valid, cap);
        assert ValidHits(ms, valid) == ValidHits(rest, valid);
      }
    }
  }

  /** Templates are tried in order and scanning stops after the first template that
      yields at least one accepted match (`if (updates.length > 0) break`). Until then
      `updates` is empty, so the count that caps a template starts from zero. */
  function FirstProductive(templates: seq<Template>, html: string, valid: string -> bool,
                           cap: nat): seq<Hit>
    decreases |templates|
  {
    if |templates| == 0 then []
    else
      var hits := TakeHits(templates[0](html), valid, cap);
      if |hits| > 0 then hits else FirstProductive(templates[1..], html, valid, cap)
  }

  /** Template `k` yields no accepted match on the document. */
  predicate Barren(templates: seq<Template>, k: int, html: string, valid: string -> bool)
    requires 0 <= k < |templates|
  {
    ValidHits(templates[k](html), valid) == []
  }

  /** `hits` are the first `cap` accepted matches of template `k`, and every template
      before `k` has none. */
  predicate ChosenTemplate(templates: seq<Template>, k: int, html: string, valid: string -> bool,
                           cap: nat, hits: seq<Hit>)
    requires 0 <= k < |templates|
  {
    hits == Take(ValidHits(templates[k](html), valid), cap)
    && forall j :: 0 <= j < k ==> Barren(templates, j, html, valid)
  }

  /** Which template the loop settles on: the hits are the first `cap` accepted matches
      of the first template that has any; nothing at all when no template has one. */
  lemma {:induction false} FirstProductiveSpec(templates: seq<Template>, html: string,
                                               valid: string -> bool, cap: nat)
    requires cap > 0
    ensures FirstProductive(templates, html, valid, cap) == [] <==>
              forall k :: 0 <= k < |templates| ==> Barren(templates, k, html, valid)
    ensures FirstProductive(templates, html, valid, cap) != [] ==>
              exists k :: 0 <= k < |templates|
                && ChosenTemplate(templates, k, html, valid, cap,
                                  FirstProductive(templates, html, valid, cap))
    decreases |templates|
  {
    if |templates| > 0 {
      var ms := templates[0](html);
      TakeHitsIsPrefix(ms, valid, cap);
      var rest := templates[1..];
      FirstProductiveSpec(rest, html, valid, cap);
      assert forall k :: 1 <= k < |templates| ==> templates[k] == rest[k - 1];
      var r := FirstProductive(templates, html, valid, cap);
      if |TakeHits(ms, valid, cap)| == 0 {
        assert Barren(templates, 0, html, valid);
        assert r == FirstProductive(rest, html, valid, cap);
        if r != [] {
          var k :| 0 <= k < |rest| && ChosenTemplate(rest, k, html, valid, cap, r);
          forall j | 1 <= j < k + 1 ensures Barren(templates, j, html, valid) {
            assert Barren(rest, j - 1, html, valid);
          }
          assert ChosenTemplate(templates, k + 1, html, valid, cap, r);
          assert !Barren(templates, k + 1, html, valid);
        } else {
          forall k | 0 <= k < |templates| ensures Barren(templates, k, html, valid) {
            if k > 0 { assert Barren(rest, k - 1, html, valid); }
          }
        }
      } else {
        assert !Barren(templates, 0, html, valid);
        assert ChosenTemplate(templates, 0, html, valid, cap, r);
      }
    }
  }

  /** The loop returns at most `cap` hits, each a trimmed title the validator accepts. */
  lemma FirstProductiveTitles(templates: seq<Template>, html: string, valid: string -> bool,
                              cap: nat)
    requires cap > 0
    ensures |FirstProductive(templates, html, valid, cap)| <= cap
    ensures forall k :: 0 <= k < |FirstProductive(templates, html, valid, cap)| ==>
              GoodTitle(FirstProductive(templates, html, valid, cap)[k].title, valid)
  {
    var r := FirstProductive(templates, html, valid, cap);
    FirstProductiveSpec(templates, html, valid, cap);
    if r != [] {
      var k :| 0 <= k < |templates| && ChosenTemplate(templates, k, html, valid, cap, r);
      var all := ValidHits(templates[k](html), valid);
      ValidHitsSpec(templates[k](html), valid);
      assert forall i :: 0 <= i < |r| ==> r[i] == all[i];
    }
  }

  /** `s.substring(a, b)`: both ends clamped to the string, swapped when reversed. */
  function JsSubstring(s: string, a: int, b: int): string {
    var a' := Min(Max(a, 0), |s|);
    var b' := Min(Max(b, 0), |s|);
    if a' <= b' then s[a'..b'] else s[b'..a']
  }

  /** `html.substring(Math.max(0, i - before), Math.min(html.length, i + after))`. */
  function Window(html: string, i: int, before: nat, after: nat): string {
    JsSubstring(html, Max(0, i - before), Min(|html|, i + after))
  }

  /** For a match inside the document the context is the slice from `before` characters
      ahead of the match to `after` characters past its start, cut at both ends. */
  lemma WindowSlice(html: string, i: int, before: nat, after: nat)
    requires 0 <= i <= |html|
    ensures Window(html, i, before, after) == html[Max(0, i - before)..Min(|html|, i + after)]
    ensures |Window(html, i, before, after)| <= before + after
  {
  }

  /** One date regex: the text of its first match in the context, if any. */
  type DatePattern = string -> Option<string>

  /** `extractDateFromContext`: the patterns are tried in order and the first one whose
      match the date parser accepts gives the date. */
  function ExtractDate(patterns: seq<DatePattern>, parse: string -> Option<Date>,
                       context: string): Option<Date>
    decreases |patterns|
  {
    if |patterns| == 0 then None
    else match patterns[0](context)
      case Some(m) =>
        (match parse(m)
         case Some(d) => Some(d)
         case None => ExtractDate(patterns[1..], parse, context))
      case None => ExtractDate(patterns[1..], parse, context)
  }

  /** Pattern `k` matches the context and its match parses to `d`. */
  predicate PatternGives(patterns: seq<DatePattern>, k: int, parse: string -> Option<Date>,
                         context: string, d: Date)
    requires 0 <= k < |patterns|
  {
    patterns[k](context).Some? && parse(patterns[k](context).value) == Some(d)
  }

  predicate PatternFails(patterns: seq<DatePattern>, k: int, parse: string -> Option<Date>,
                         context: string)
    requires 0 <= k < |patterns|
  {
    patterns[k](context).None? || parse(patterns[k](context).value).None?
  }

  /** The date comes from the first pattern, in list order, that both matches and
      parses; there is none exactly when every pattern fails. */
  lemma {:induction false} ExtractDateFirst(patterns: seq<DatePattern>,
                                            parse: string -> Option<Date>, context: string)
    ensures ExtractDate(patterns, parse, context).None? <==>
              forall k :: 0 <= k < |patterns| ==> PatternFails(patterns, k, parse, context)
    ensures ExtractDate(patterns, parse, context).Some? ==>
              exists k :: 0 <= k < |patterns|
                && PatternGives(patterns, k, parse, context, ExtractDate(patterns, parse, context).value)
                && forall j :: 0 <= j < k ==> PatternFails(patterns, j, parse, context)
    decreases |patterns|
  {
    if |patterns| > 0 {
      var rest := patterns[1..];
      ExtractDateFirst(rest, parse, context);
      assert forall k :: 1 <= k < |patterns| ==> patterns[k] == rest[k - 1];
      var r := ExtractDate(patterns, parse, context);
      if PatternFails(patterns, 0, parse, context) {
        assert r == ExtractDate(rest, parse, context);
        if r.Some? {
          var k :| 0 <= k < |rest| && PatternGives(rest, k, parse, context, r.value)
                   && forall j :: 0 <= j < k ==> PatternFails(rest, j, parse, context);
          assert PatternGives(patterns, k + 1, parse, context, r.value);
          assert !PatternFails(patterns, k + 1, parse, context);
          forall j | 0 <= j < k + 1 ensures PatternFails(patterns, j, parse, context) {
            if j > 0 { assert PatternFails(rest, j - 1, parse, context); }
          }
        } else {
          forall k | 0 <= k < |patterns| ensures PatternFails(patterns, k, parse, context) {
            if k > 0 { assert PatternFails(rest, k - 1, parse, context); }
          }
        }
      } else {
        assert PatternGives(patterns, 0, parse, context, r.value);
      }
    }
  }

  /** `s.replace(/<[^>]+>/g, ' ')`: a '<', at least one character other than '>', then
      the first '>' after it form a tag, replaced by one space. */
  function StripTags(s: string): (r: string)
    ensures |r| <= |s|
    decreases |s|
  {
    if |s| == 0 then ""
    else if s[0] == '<' && |s| >= 2 && s[1] != '>' && FindChar(s, '>', 1) < |s| then
      " " + StripTags(s[FindChar(s, '>', 1) + 1..])
    else [s[0]] + StripTags(s[1..])
  }

  /** Text without '<' has no tag to strip. */
  lemma {:induction false} StripTagsPlain(s: string)
    requires forall i :: 0 <= i < |s| ==> s[i] != '<'
    ensures StripTags(s) == s
    decreases |s|
  {
    if |s| > 0 {
      StripTagsPlain(s[1..]);
      assert s == [s[0]] + s[1..];
    }
  }

  /** `s.replace(/\s+/g, ' ')`: each run of white space becomes one space. */
  function CollapseSpaces(s: string): (r: string)
    ensures |r| <= |s|
    ensures forall i :: 0 <= i < |r| && IsSpace(r[i]) ==> r[i] == ' '
    ensures forall i :: 0 <= i < |r| - 1 ==> !(r[i] == ' ' && r[i + 1] == ' ')
    ensures |s| > 0 && !IsSpace(s[0]) ==> |r| > 0 && r[0] == s[0]
    ensures |s| > 0 && IsSpace(s[0]) ==> |r| > 0 && r[0] == ' '
    decreases |s|
  {
    if |s| == 0 then ""
    else if IsSpace(s[0]) then " " + CollapseSpaces(TrimStart(s))
    else [s[0]] + CollapseSpaces(s[1..])
  }

  /** The text with every white-space character deleted. */
  function WithoutSpaces(s: string): string
    decreases |s|
  {
    if |s| == 0 then "" else (if IsSpace(s[0]) then "" else [s[0]]) + WithoutSpaces(s[1..])
  }

  lemma {:induction false} TrimStartKeepsText(s: string)
    ensures WithoutSpaces(TrimStart(s)) == WithoutSpaces(s)
    decreases |s|
  {
    if |s| > 0 && IsSpace(s[0]) {
      TrimStartKeepsText(s[1..]);
    }
  }

  /** Collapsing touches only white space: with all white space deleted, the result
      and the input are the same text. */
  lemma {:induction false} CollapseSpacesKeepsText(s: string)
    ensures WithoutSpaces(CollapseSpaces(s)) == WithoutSpaces(s)
    decreases |s|
  {
    if |s| > 0 {
      if IsSpace(s[0]) {
        var t := TrimStart(s);
        assert t == TrimStart(s[1..]);
        TrimStartKeepsText(s[1..]);
        CollapseSpacesKeepsText(t);
        assert (" " + CollapseSpaces(t))[1..] == CollapseSpaces(t);
      } else {
        CollapseSpacesKeepsText(s[1..]);
        assert ([s[0]] + CollapseSpaces(s[1..]))[1..] == CollapseSpaces(s[1..]);
      }
    }
  }

  predicate IsTerminator(c: char) {
    c == '.' || c == '!' || c == '?'
  }

  function SkipTerminators(s: string): (r: string)
    ensures |r| <= |s|
    decreases |s|
  {
    if |s| > 0 && IsTerminator(s[0]) then SkipTerminators(s[1..]) else s
  }

  /** `s.split(/[.!?]+/)`: the pieces between maximal runs of terminators. */
  function SplitSentences(s: string): (r: seq<string>)
    ensures |r| >= 1
    ensures forall k, i :: 0 <= k < |r| && 0 <= i < |r[k]| ==> !IsTerminator(r[k][i])
    decreases |s|
  {
    if |s| == 0 then [""]
    else if IsTerminator(s[0]) then [""] + SplitSentences(SkipTerminators(s))
    else
      var rest := SplitSentences(s[1..]);
      [[s[0]] + rest[0]] + rest[1..]
  }

  function Concat(pieces: seq<string>): string
    decreases |pieces|
  {
    if |pieces| == 0 then "" else pieces[0] + Concat(pieces[1..])
  }

  /** The text with its terminators deleted. */
  function WithoutTerminators(s: string): string
    decreases |s|
  {
    if |s| == 0 then "" else (if IsTerminator(s[0]) then "" else [s[0]]) + WithoutTerminators(s[1..])
  }

  lemma {:induction false} SkipTerminatorsKeepsText(s: string)
    ensures WithoutTerminators(SkipTerminators(s)) == WithoutTerminators(s)
    decreases |s|
  {
    if |s| > 0 && IsTerminator(s[0]) {
      SkipTerminatorsKeepsText(s[1..]);
    }
  }

  /** Splitting loses only the terminators: the pieces put back together are the text
      with its terminators deleted. */
  lemma {:induction false} SplitSentencesKeepsText(s: string)
    ensures Concat(SplitSentences(s)) == WithoutTerminators(s)
    decreases |s|
  {
    if |s| > 0 {
      if IsTerminator(s[0]) {
        var t := SkipTerminators(s);
        SplitSentencesKeepsText(t);
        SkipTerminatorsKeepsText(s);
        assert ([""] + SplitSentences(t))[1..] == SplitSentences(t);
      } else {
        var rest := SplitSentences(s[1..]);
        SplitSentencesKeepsText(s[1..]);
        var r := [[s[0]] + rest[0]] + rest[1..];
        assert r[1..] == rest[1..];
        assert Concat(rest) == rest[0] + Concat(rest[1..]);
        assert Concat(r) == ([s[0]] + rest[0]) + Concat(rest[1..]);
      }
    }
  }

  /** A piece that survives `.filter(s => s.trim().length > minLen)`. */
  predicate Long(piece: string, minLen: nat) {
    |Trim(piece)| > minLen
  }

  /** The first element that satisfies `p`. */
  function FirstWhere<T>(xs: seq<T>, p: T -> bool): Option<T>
    decreases |xs|
  {
    if |xs| == 0 then None
    else if p(xs[0]) then Some(xs[0])
    else FirstWhere(xs[1..], p)
  }

  /** The element found is the first that satisfies `p`, and there is none exactly when
      no element does. */
  lemma {:induction false} FirstWhereSpec<T>(xs: seq<T>, p: T -> bool)
    ensures FirstWhere(xs, p).None? <==> forall k :: 0 <= k < |xs| ==> !p(xs[k])
    ensures FirstWhere(xs, p).Some? ==>
              exists k :: 0 <= k < |xs| && xs[k] == FirstWhere(xs, p).value && p(xs[k])
                && forall j :: 0 <= j < k ==> !p(xs[j])
    decreases |xs|
  {
    if |xs| > 0 && !p(xs[0]) {
      var rest := xs[1..];
      FirstWhereSpec(rest, p);
      var r := FirstWhere(rest, p);
      if r.Some? {
        var k :| 0 <= k < |rest| && rest[k] == r.value && p(rest[k])
                 && forall j :: 0 <= j < k ==> !p(rest[j]);
        assert xs[k + 1] == rest[k];
        forall j | 0 <= j < k + 1 ensures !p(xs[j]) {
          if j > 0 { assert xs[j] == rest[j - 1]; }
        }
      } else {
        forall j | 0 <= j < |xs| ensures !p(xs[j]) {
          if j > 0 { assert xs[j] == rest[j - 1]; }
        }
      }
    }
  }

  /** The first piece whose trimmed length exceeds `minLen` (the
      `.filter(s => s.trim().length > minLen)[0]` of the summary extractors). */
  function FirstLong(pieces: seq<string>, minLen: nat): Option<string> {
    FirstWhere(pieces, s => Long(s, minLen))
  }

  /** `filter(...)[0]` is the first surviving piece, and is absent exactly when no piece
      survives. */
  lemma FirstLongSpec(pieces: seq<string>, minLen: nat)
    ensures FirstLong(pieces, minLen).None? <==> forall k :: 0 <= k < |pieces| ==> !Long(pieces[k], minLen)
    ensures FirstLong(pieces, minLen).Some? ==>
              exists k :: 0 <= k < |pieces| && pieces[k] == FirstLong(pieces, minLen).value
                && Long(pieces[k], minLen)
                && forall j :: 0 <= j < k ==> !Long(pieces[j], minLen)
  {
    FirstWhereSpec(pieces, s => Long(s, minLen));
  }

  /** `summary.substring(0, maxLen) + '...'` when longer than `maxLen`. */
  function Truncate(s: string, maxLen: nat): (r: string)
    ensures |r| <= maxLen + 3
    ensures |s| <= maxLen ==> r == s
    ensures |s| > maxLen ==> |r| == maxLen + 3 && r[maxLen..] == "..."
    ensures forall i :: 0 <= i < |s| && i < maxLen ==> r[i] == s[i]
  {
    if |s| > maxLen then s[..maxLen] + "..." else s
  }

  /** The sentences of a context window: tags stripped, white space collapsed, trimmed,
      the first occurrence of the title removed, trimmed again, split at terminators. */
  function ContextSentences(context: string, title: string): seq<string> {
    var text := Trim(CollapseSpaces(StripTags(context)));
    SplitSentences(Trim(RemoveFirst(text, title)))
  }

  /** The summary both extractors derive from the sentences of a context, or `None` when
      they fall back: the first sentence longer than `minLen` once trimmed, trimmed and
      truncated to `maxLen` characters plus an ellipsis. */
  function SentenceSummary(sentences: seq<string>, minLen: nat, maxLen: nat): (r: Option<string>)
    ensures r.Some? && minLen <= maxLen ==> minLen < |r.value| <= maxLen + 3
  {
    FirstLongSpec(sentences, minLen);
    match FirstLong(sentences, minLen)
    case None => None
    case Some(first) =>
      // The guard `sentences[0].length > minLen` re-tests the untrimmed piece, which is
      // at least as long as its trim, so it always holds.
      assert |first| > minLen;
      Some(Truncate(Trim(first), maxLen))
  }

  /** The summary is the first sentence whose trim is longer than `minLen`, trimmed and
      truncated; there is none exactly when no sentence is that long. */
  lemma SentenceSummarySpec(sentences: seq<string>, minLen: nat, maxLen: nat)
    ensures SentenceSummary(sentences, minLen, maxLen).None? <==>
              forall k :: 0 <= k < |sentences| ==> !Long(sentences[k], minLen)
    ensures SentenceSummary(sentences, minLen, maxLen).Some? ==>
              exists k :: 0 <= k < |sentences|
                && SentenceSummary(sentences, minLen, maxLen).value == Truncate(Trim(sentences[k]), maxLen)
                && Long(sentences[k], minLen)
                && forall j :: 0 <= j < k ==> !Long(sentences[j], minLen)
  {
    FirstLongSpec(sentences, minLen);
  }
}
