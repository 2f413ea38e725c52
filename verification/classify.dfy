/** Keyword classification of update items. Every keyword pattern in the scrapers has
    the shape `\b(w1|w2|...)\b` with the `i` flag and is tested on lower-cased text; all
    keywords consist of word characters, so a pattern matches exactly when one of its
    words occurs in the text with a non-word character (or the end of the text) on each
    side. That search is modelled directly. */
module Classify {
  import opened Strings
  import opened Model

  /** `w` occurs at offset `i` of `text` between two word boundaries. */
  predicate WordAt(text: string, w: string, i: int) {
    OccursAt(text, w, i)
    && (i == 0 || !IsWordChar(text[i - 1]))
    && (i + |w| == |text| || !IsWordChar(text[i + |w|]))
  }

  /** `/\bw\b/.test(text)`. */
  predicate HasWord(text: string, w: string) {
    exists i :: 0 <= i <= |text| - |w| && WordAt(text, w, i)
  }

  /** `/\b(w1|...|wn)\b/.test(text)`: the alternation backtracks over every word at
      every offset, so it matches when any one word does. */
  predicate MatchesAny(text: string, words: seq<string>) {
    exists k :: 0 <= k < |words| && HasWord(text, words[k])
  }

  /** A word inside a longer word is not a match: `new` does not match `newsletter`. */
  lemma EmbeddedWordIsNoMatch(text: string, w: string, i: int)
    requires OccursAt(text, w, i) && i + |w| < |text| && IsWordChar(text[i + |w|])
    ensures !WordAt(text, w, i)
  {
  }

  /** A word standing alone in the text is a match. */
  lemma SeparatedWordMatches(before: string, w: string, after: string)
    requires |before| == 0 || !IsWordChar(before[|before| - 1])
    requires |after| == 0 || !IsWordChar(after[0])
    ensures HasWord(before + w + after, w)
  {
    var text := before + w + after;
    assert text[|before|..|before| + |w|] == w;
    assert WordAt(text, w, |before|);
  }

  /** One row of a pattern table: the outcome and the words of its alternation. */
  datatype Rule<T> = Rule(outcome: T, words: seq<string>)

  /** The text a classifier tests: `${title} ${summary}`.toLowerCase(). */
  function ClassifierText(title: string, summary: string): string {
    LowerStr(title + " " + summary)
  }

  /** The first rule, in table order, whose pattern matches; `default` when none does.
      This is the `for ... of Object.entries(PATTERNS)` loop with an early return. */
  function FirstMatch<T>(rules: seq<Rule<T>>, text: string, default: T): T
    decreases |rules|
  {
    if |rules| == 0 then default
    else if MatchesAny(text, rules[0].words) then rules[0].outcome
    else FirstMatch(rules[1..], text, default)
  }

  /** The first-match loop returns the outcome of the first matching rule, every earlier
      rule failing, or the default exactly when no rule matches. */
  lemma {:induction false} FirstMatchSpec<T>(rules: seq<Rule<T>>, text: string, default: T)
    ensures (forall k :: 0 <= k < |rules| ==> !MatchesAny(text, rules[k].words))
            ==> FirstMatch(rules, text, default) == default
    ensures (exists k :: 0 <= k < |rules| && MatchesAny(text, rules[k].words))
            ==> exists k :: 0 <= k < |rules| && MatchesAny(text, rules[k].words)
                  && FirstMatch(rules, text, default) == rules[k].outcome
                  && forall j :: 0 <= j < k ==> !MatchesAny(text, rules[j].words)
    decreases |rules|
  {
    if |rules| > 0 && !MatchesAny(text, rules[0].words) {
      var rest := rules[1..];
      FirstMatchSpec(rest, text, default);
      assert forall k :: 1 <= k < |rules| ==> rules[k] == rest[k - 1];
      if exists k :: 0 <= k < |rules| && MatchesAny(text, rules[k].words) {
        var k0 :| 0 <= k0 < |rules| && MatchesAny(text, rules[k0].words);
        assert MatchesAny(text, rest[k0 - 1].words);
        var k :| 0 <= k < |rest| && MatchesAny(text, rest[k].words)
                 && FirstMatch(rest, text, default) == rest[k].outcome
                 && forall j :: 0 <= j < k ==> !MatchesAny(text, rest[j].words);
        forall j | 0 <= j < k + 1 ensures !MatchesAny(text, rules[j].words) {
          if j > 0 { assert rules[j] == rest[j - 1]; }
        }
        assert MatchesAny(text, rules[k + 1].words);
      }
    }
  }

  /** The score table `scores[type] = (scores[type] || 0) + 1` built from one pass over
      the patterns: 1 for a pattern that matches, 0 (absent) for one that does not. */
  function Scores<T>(rules: seq<Rule<T>>, text: string): (r: seq<nat>)
    ensures |r| == |rules|
    ensures forall k :: 0 <= k < |r| ==> r[k] == (if MatchesAny(text, rules[k].words) then 1 else 0)
  {
    seq(|rules|, k requires 0 <= k < |rules| => if MatchesAny(text, rules[k].words) then 1 else 0)
  }

  /** `Math.max(...values, 0)`. */
  function MaxScore(scores: seq<nat>): (r: nat)
    ensures forall k :: 0 <= k < |scores| ==> scores[k] <= r
    ensures r == 0 || exists k :: 0 <= k < |scores| && scores[k] == r
    decreases |scores|
  {
    if |scores| == 0 then 0
    else
      var m := MaxScore(scores[1..]);
      assert forall k :: 1 <= k < |scores| ==> scores[k] == scores[1..][k - 1];
      Max(scores[0], m)
  }

  /** `Object.keys(scores).find(type => scores[type] === maxScore)`: keys are in table
      order and only matching rules have a key. */
  function FindScore<T>(rules: seq<Rule<T>>, scores: seq<nat>, best: nat, default: T): T
    requires |scores| == |rules|
    decreases |rules|
  {
    if |rules| == 0 then default
    else if scores[0] > 0 && scores[0] == best then rules[0].outcome
    else FindScore(rules[1..], scores[1..], best, default)
  }

  /** `classifyUpdateType` as the code computes it: score every pattern, take the maximum
      score, `default` when it is 0, otherwise the first type holding it. */
  function ClassifyByScore<T>(rules: seq<Rule<T>>, text: string, default: T): T {
    var scores := Scores(rules, text);
    var best := MaxScore(scores);
    if best == 0 then default else FindScore(rules, scores, best, default)
  }

  /** With every score 0 or 1, looking up the first key of score 1 picks the first
      rule that matches. */
  lemma {:induction false} FindScoreFirst<T>(rules: seq<Rule<T>>, text: string, default: T)
    ensures FindScore(rules, Scores(rules, text), 1, default) == FirstMatch(rules, text, default)
    decreases |rules|
  {
    if |rules| > 0 {
      var s := Scores(rules, text);
      assert s[1..] == Scores(rules[1..], text);
      FindScoreFirst(rules[1..], text, default);
    }
  }

  /** Every score is 0 or 1, so the maximum is 1 as soon as one pattern matches and the
      score-based choice is the first match: the scoring adds nothing to the loop. */
  lemma ScoreIsFirstMatch<T>(rules: seq<Rule<T>>, text: string, default: T)
    ensures ClassifyByScore(rules, text, default) == FirstMatch(rules, text, default)
  {
    var scores := Scores(rules, text);
    var best := MaxScore(scores);
    assert best <= 1 by {
      if best != 0 {
        var k :| 0 <= k < |scores| && scores[k] == best;
      }
    }
    FindScoreFirst(rules, text, default);
    if best == 0 {
      FirstMatchSpec(rules, text, default);
      assert forall k :: 0 <= k < |rules| ==> !MatchesAny(text, rules[k].words) by {
        forall k | 0 <= k < |rules| ensures !MatchesAny(text, rules[k].words) {
          assert scores[k] <= best;
        }
      }
    }
  }

  /** `UPDATE_TYPE_PATTERNS` of the product scraper. */
  const ProductTypeRules: seq<Rule<UpdateType>> := [
    Rule(NewFeatures, ["new", "introducing", "launch", "feature", "added", "released"]),
    Rule(Improvements, ["enhanced", "improved", "better", "optimized", "upgrade", "updated"]),
    Rule(BugFixes, ["fixed", "resolved", "bug", "issue", "corrected", "patch"]),
    Rule(Security, ["security", "vulnerability", "secure", "authentication"]),
    // `API` under the `i` flag, tested on lower-cased text.
    Rule(ApiChanges, ["api", "integration", "endpoint", "webhook", "developer"])
  ]

  /** `PRIORITY_PATTERNS` of the product scraper. */
  const ProductPriorityRules: seq<Rule<Priority>> := [
    Rule(Critical, ["critical", "urgent", "security", "vulnerability"]),
    Rule(Major, ["major", "significant", "release", "version", "launch"])
  ]

  /** `UPDATE_TYPE_PATTERNS` of the news scraper. */
  const NewsTypeRules: seq<Rule<UpdateType>> := [
    Rule(NewFeatures, ["new", "introducing", "launch", "feature", "announcing"]),
    Rule(Improvements, ["enhanced", "improved", "better", "optimized", "upgrade"]),
    Rule(BugFixes, ["fixed", "resolved", "bug", "issue", "patch"]),
    Rule(Security, ["security", "vulnerability", "secure"]),
    Rule(PressRelease, ["press", "release", "announcement", "partnership", "acquisition"])
  ]

  /** The two patterns `classifyNewsPriority` tests in turn, both answering `Major`. */
  const NewsMajorWords: seq<string> := ["breaking", "urgent", "important", "major", "significant"]
  const NewsDealWords: seq<string> := ["acquisition", "partnership", "funding", "launch", "release"]

  /** `classifyUpdateType(title, summary)` of the product scraper. */
  function ClassifyUpdateType(title: string, summary: string): UpdateType {
    ClassifyByScore(ProductTypeRules, ClassifierText(title, summary), General)
  }

  /** The product type is the first table row whose words occur in the text, and
      `General` exactly when none does. */
  lemma ClassifyUpdateTypeSpec(title: string, summary: string)
    ensures var text := ClassifierText(title, summary);
            ClassifyUpdateType(title, summary) == General <==>
              forall k :: 0 <= k < |ProductTypeRules| ==> !MatchesAny(text, ProductTypeRules[k].words)
    ensures var text := ClassifierText(title, summary);
            ClassifyUpdateType(title, summary) != General ==>
              exists k :: 0 <= k < |ProductTypeRules|
                && ClassifyUpdateType(title, summary) == ProductTypeRules[k].outcome
                && MatchesAny(text, ProductTypeRules[k].words)
                && forall j :: 0 <= j < k ==> !MatchesAny(text, ProductTypeRules[j].words)
  {
    var text := ClassifierText(title, summary);
    ScoreIsFirstMatch(ProductTypeRules, text, General);
    FirstMatchSpec(ProductTypeRules, text, General);
  }

  /** `classifyPriority(title, summary)` of the product scraper. */
  function ClassifyPriority(title: string, summary: string): Priority {
    FirstMatch(ProductPriorityRules, ClassifierText(title, summary), Normal)
  }

  /** Critical when a critical word occurs; otherwise Major when a major word occurs;
      otherwise Normal. */
  lemma ClassifyPrioritySpec(title: string, summary: string)
    ensures var text := ClassifierText(title, summary);
            (ClassifyPriority(title, summary) == Critical <==>
               MatchesAny(text, ProductPriorityRules[0].words))
            && (ClassifyPriority(title, summary) == Major <==>
               !MatchesAny(text, ProductPriorityRules[0].words)
               && MatchesAny(text, ProductPriorityRules[1].words))
  {
    var text := ClassifierText(title, summary);
    assert ProductPriorityRules[1..][1..] == [];
  }

  /** A word of the Security row also makes the item Critical, whatever else it says. */
  lemma SecurityWordIsCritical(title: string, summary: string)
    requires HasWord(ClassifierText(title, summary), "security")
    ensures ClassifyPriority(title, summary) == Critical
  {
    assert ProductPriorityRules[0].words[2] == "security";
  }

  /** `classifyNewsType(title, summary)`. */
  function ClassifyNewsType(title: string, summary: string): UpdateType {
    FirstMatch(NewsTypeRules, ClassifierText(title, summary), News)
  }

  /** The news type is the first matching row of the news table, `News` when none
      matches; it is never `General` or `API Changes`. */
  lemma ClassifyNewsTypeSpec(title: string, summary: string)
    ensures ClassifyNewsType(title, summary) != General
    ensures ClassifyNewsType(title, summary) != ApiChanges
    ensures var text := ClassifierText(title, summary);
            ClassifyNewsType(title, summary) == News <==>
              forall k :: 0 <= k < |NewsTypeRules| ==> !MatchesAny(text, NewsTypeRules[k].words)
    ensures var text := ClassifierText(title, summary);
            ClassifyNewsType(title, summary) != News ==>
              exists k :: 0 <= k < |NewsTypeRules|
                && ClassifyNewsType(title, summary) == NewsTypeRules[k].outcome
                && MatchesAny(text, NewsTypeRules[k].words)
                && forall j :: 0 <= j < k ==> !MatchesAny(text, NewsTypeRules[j].words)
  {
    var text := ClassifierText(title, summary);
    FirstMatchSpec(NewsTypeRules, text, News);
  }

  /** `classifyNewsPriority(title)`: only the title is read. */
  function ClassifyNewsPriority(title: string): Priority {
    var text := LowerStr(title);
    if MatchesAny(text, NewsMajorWords) then Major
    else if MatchesAny(text, NewsDealWords) then Major
    else Normal
  }

  /** News items are never Critical; they are Major exactly when the title holds one of
      the ten words of either pattern. */
  lemma ClassifyNewsPrioritySpec(title: string)
    ensures ClassifyNewsPriority(title) != Critical
    ensures ClassifyNewsPriority(title) == Major <==>
              MatchesAny(LowerStr(title), NewsMajorWords + NewsDealWords)
  {
    var text := LowerStr(title);
    var all := NewsMajorWords + NewsDealWords;
    if MatchesAny(text, all) {
      var k :| 0 <= k < |all| && HasWord(text, all[k]);
      if k >= |NewsMajorWords| {
        assert all[k] == NewsDealWords[k - |NewsMajorWords|];
      }
    } else {
      forall k | 0 <= k < |NewsMajorWords| ensures !HasWord(text, NewsMajorWords[k]) {
        assert all[k] == NewsMajorWords[k];
      }
      forall k | 0 <= k < |NewsDealWords| ensures !HasWord(text, NewsDealWords[k]) {
        assert all[k + |NewsMajorWords|] == NewsDealWords[k];
      }
    }
  }

  /** Lower-casing is idempotent. */
  lemma LowerStrIdempotent(s: string)
    ensures LowerStr(LowerStr(s)) == LowerStr(s)
  {
  }

  /** Lower-casing distributes over concatenation. */
  lemma LowerStrConcat(a: string, b: string)
    ensures LowerStr(a + b) == LowerStr(a) + LowerStr(b)
  {
  }

  /** Classification ignores the case of its inputs: lower-casing title and summary
      first changes nothing. */
  lemma ClassifyIgnoresCase(title: string, summary: string)
    ensures ClassifierText(LowerStr(title), LowerStr(summary)) == ClassifierText(title, summary)
    ensures ClassifyUpdateType(LowerStr(title), LowerStr(summary)) == ClassifyUpdateType(title, summary)
    ensures ClassifyPriority(LowerStr(title), LowerStr(summary)) == ClassifyPriority(title, summary)
    ensures ClassifyNewsType(LowerStr(title), LowerStr(summary)) == ClassifyNewsType(title, summary)
  {
    LowerStrConcat(title, " " + summary);
    LowerStrConcat(" ", summary);
    LowerStrConcat(LowerStr(title), " " + LowerStr(summary));
    LowerStrConcat(" ", LowerStr(summary));
    LowerStrIdempotent(title);
    LowerStrIdempotent(summary);
    assert LowerStr(" ") == " ";
    assert title + " " + summary == title + (" " + summary);
    assert LowerStr(title) + " " + LowerStr(summary) == LowerStr(title) + (" " + LowerStr(summary));
  }
}
