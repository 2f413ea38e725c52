/** The two robots.txt decisions: the line-oriented reader of the debugging scraper and
    the substring test of the Vercel scraper. Both fail open: when the file cannot be
    fetched, nothing is blocked. */
module Robots {
  import opened Strings
  import opened Model

  /** What the reader recognises in one line, after `line.trim().toLowerCase()`. */
  datatype Directive = UserAgent(agent: string) | Disallow(path: string) | Ignored

  /** A `user-agent:` line yields the trimmed rest of the line as the agent; a
      `disallow:` line yields the trimmed rest as the path; anything else is ignored. */
  function ParseLine(line: string): Directive {
    var t := LowerStr(Trim(line));
    if StartsWith(t, "user-agent:") then UserAgent(Trim(t[11..]))
    else if StartsWith(t, "disallow:") then Disallow(Trim(t[9..]))
    else Ignored
  }

  /** A Disallow value that blocks the whole site in the reader's eyes: `/`, or empty. */
  predicate BlocksAll(path: string) {
    path == "/" || path == ""
  }

  /** The reader's state after one line: a `user-agent:` line opens the `*` section when
      it names exactly `*` and closes it otherwise; other lines leave it alone. */
  function Next(d: Directive, inSection: bool): bool {
    if d.UserAgent? then d.agent == "*" else inSection
  }

  /** The `for (const line of lines)` loop: true as soon as a blocking Disallow line is
      read inside the `*` section. */
  function Scan(lines: seq<string>, inSection: bool): bool
    decreases |lines|
  {
    if |lines| == 0 then false
    else
      var d := ParseLine(lines[0]);
      if !d.UserAgent? && inSection && d.Disallow? && BlocksAll(d.path) then true
      else Scan(lines[1..], Next(d, inSection))
  }

  /** `isBlockedByRobots(baseUrl)` given the answer to `GET {baseUrl}/robots.txt`. */
  function IsBlockedByRobots(robots: Result<string>): bool {
    match robots
    case Failure(_) => false
    case Success(text) => Scan(SplitOn(text, '\n'), false)
  }

  /** Whether the reader is inside the `*` section when it reaches line `k`: decided by
      the most recent `user-agent:` line before `k`, or `init` when there is none. */
  function InStarSection(lines: seq<string>, k: nat, init: bool): bool
    requires k <= |lines|
  {
    if k == 0 then init
    else
      var d := ParseLine(lines[k - 1]);
      if d.UserAgent? then d.agent == "*" else InStarSection(lines, k - 1, init)
  }

  /** Line `k` is a Disallow of `/` or of nothing. */
  predicate BlockingLine(lines: seq<string>, k: int)
    requires 0 <= k < |lines|
  {
    ParseLine(lines[k]).Disallow? && BlocksAll(ParseLine(lines[k]).path)
  }

  lemma {:induction false} InStarSectionShift(lines: seq<string>, k: nat, init: bool)
    requires 0 < |lines| && k < |lines|
    ensures InStarSection(lines, k + 1, init)
            == InStarSection(lines[1..], k, Next(ParseLine(lines[0]), init))
  {
    if k > 0 {
      InStarSectionShift(lines, k - 1, init);
      assert lines[k] == lines[1..][k - 1];
    }
  }

  /** Some blocking Disallow line appears while the most recent `user-agent:` line
      before it names `*` (or, before any such line, while `init` holds). */
  predicate BlockedLines(lines: seq<string>, init: bool) {
    exists k :: 0 <= k < |lines| && BlockingLine(lines, k) && InStarSection(lines, k, init)
  }

  /** The line reader blocks exactly when some blocking Disallow line appears while the
      most recent `user-agent:` line before it names `*`. */
  lemma {:induction false} ScanSpec(lines: seq<string>, init: bool)
    ensures Scan(lines, init) <==> BlockedLines(lines, init)
    decreases |lines|
  {
    if |lines| > 0 {
      var d := ParseLine(lines[0]);
      var rest := lines[1..];
      var s := Next(d, init);
      ScanSpec(rest, s);
      if !d.UserAgent? && init && d.Disallow? && BlocksAll(d.path) {
        assert BlockingLine(lines, 0) && InStarSection(lines, 0, init);
      } else {
        forall k | 0 <= k < |rest|
          ensures (BlockingLine(rest, k) && InStarSection(rest, k, s))
                  == (BlockingLine(lines, k + 1) && InStarSection(lines, k + 1, init))
        {
          InStarSectionShift(lines, k, init);
          assert rest[k] == lines[k + 1];
        }
        if Scan(lines, init) {
          var k :| 0 <= k < |rest| && BlockingLine(rest, k) && InStarSection(rest, k, s);
          assert BlockingLine(lines, k + 1) && InStarSection(lines, k + 1, init);
        }
        if exists k :: 0 <= k < |lines| && BlockingLine(lines, k) && InStarSection(lines, k, init) {
          var k :| 0 <= k < |lines| && BlockingLine(lines, k) && InStarSection(lines, k, init);
          assert k != 0;
          assert BlockingLine(rest, k - 1) && InStarSection(rest, k - 1, s);
        }
      }
    }
  }

  /** The decision for a fetched file, in terms of its lines; a failed fetch blocks
      nothing. */
  lemma IsBlockedByRobotsSpec(robots: Result<string>)
    ensures robots.Failure? ==> !IsBlockedByRobots(robots)
    ensures robots.Success? ==>
              (IsBlockedByRobots(robots) <==> BlockedLines(SplitOn(robots.value, '\n'), false))
  {
    if robots.Success? {
      ScanSpec(SplitOn(robots.value, '\n'), false);
    }
  }

  /** Whether some line names `*` as its agent. */
  predicate NamesStar(lines: seq<string>) {
    exists j :: 0 <= j < |lines| && StarLine(lines, j)
  }

  /** Line `j` is `user-agent: *`. */
  predicate StarLine(lines: seq<string>, j: int)
    requires 0 <= j < |lines|
  {
    ParseLine(lines[j]) == UserAgent("*")
  }

  lemma {:induction false} StarSectionNeedsStar(lines: seq<string>, k: nat)
    requires k <= |lines|
    requires InStarSection(lines, k, false)
    ensures NamesStar(lines)
  {
    if k > 0 {
      var d := ParseLine(lines[k - 1]);
      if d.UserAgent? {
        assert StarLine(lines, k - 1);
      } else {
        StarSectionNeedsStar(lines, k - 1);
      }
    }
  }

  /** Only the `*` section counts: a file in which no `user-agent:` line names `*` never
      blocks, whatever its Disallow lines say. */
  lemma OnlyStarSectionBlocks(text: string)
    requires !NamesStar(SplitOn(text, '\n'))
    ensures !IsBlockedByRobots(Success(text))
  {
    var lines := SplitOn(text, '\n');
    ScanSpec(lines, false);
    if Scan(lines, false) {
      var k :| 0 <= k < |lines| && BlockingLine(lines, k) && InStarSection(lines, k, false);
      StarSectionNeedsStar(lines, k);
    }
  }

  /** A `user-agent:` line naming another agent ends the `*` section: a blocking
      Disallow after it, with no `user-agent:` line between, does not count. */
  lemma OtherAgentEndsSection(lines: seq<string>, j: nat, k: nat, init: bool)
    requires j < k <= |lines|
    requires ParseLine(lines[j]).UserAgent? && ParseLine(lines[j]).agent != "*"
    requires forall m :: j < m < k ==> !ParseLine(lines[m]).UserAgent?
    ensures !InStarSection(lines, k, init)
    decreases k - j
  {
    if k - 1 > j {
      OtherAgentEndsSection(lines, j, k - 1, init);
    }
  }

  /** A `*` agent line followed directly by an empty `Disallow:` blocks the site: the
      reader treats an empty value like `/`, although section 2.2.2 of RFC 9309 reads an
      empty Disallow as no restriction. */
  lemma EmptyDisallowBlocks(lines: seq<string>)
    requires |lines| >= 2
    requires ParseLine(lines[0]) == UserAgent("*") && ParseLine(lines[1]) == Disallow("")
    ensures Scan(lines, false)
  {
    assert lines[1..][0] == lines[1];
  }

  /** The Vercel variant's test: the lower-cased file contains `disallow: /` anywhere,
      whichever agent it is under and whatever follows the slash. */
  function ApiIsBlocked(robots: Result<string>): bool {
    match robots
    case Failure(_) => false
    case Success(text) => Contains(LowerStr(text), "disallow: /")
  }

  /** Any file containing, in any case, a `Disallow: /` followed by more text is
      blocked by the substring test: `Disallow: /private` blocks the whole site. */
  lemma ApiBlocksAnyDisallowPrefix(text: string, directive: string, rest: string)
    requires LowerStr(directive) == "disallow: /"
    requires Contains(text, directive + rest)
    ensures ApiIsBlocked(Success(text))
  {
    ContainsLower(text, directive + rest);
    var lowered := LowerStr(directive + rest);
    assert lowered[..|directive|] == LowerStr(directive);
    assert OccursAt(lowered, "disallow: /", 0);
    ContainsTransitive(LowerStr(text), lowered, "disallow: /");
  }

  /** A failed fetch blocks nothing in either variant. */
  lemma BothFailOpen(error: string)
    ensures !IsBlockedByRobots(Failure(error)) && !ApiIsBlocked(Failure(error))
  {
  }

  lemma {:induction false} SplitTwo(a: string, b: string, sep: char)
    requires forall i :: 0 <= i < |a| ==> a[i] != sep
    requires forall i :: 0 <= i < |b| ==> b[i] != sep
    ensures SplitOn(a + [sep] + b, sep) == [a, b]
    decreases |a|
  {
    if |a| == 0 {
      SplitOneLine(b, sep);
      assert [sep] + b == a + [sep] + b;
      assert ([sep] + b)[1..] == b;
    } else {
      SplitTwo(a[1..], b, sep);
      assert (a + [sep] + b)[1..] == a[1..] + [sep] + b;
      assert [a[0]] + a[1..] == a;
    }
  }

  lemma {:induction false} SplitOneLine(s: string, sep: char)
    requires forall i :: 0 <= i < |s| ==> s[i] != sep
    ensures SplitOn(s, sep) == [s]
    decreases |s|
  {
    if |s| > 0 {
      SplitOneLine(s[1..], sep);
      assert [s[0]] + s[1..] == s;
    }
  }

  /** A value after one leading space trims to itself without the space. */
  lemma TrimOneSpace(v: string)
    requires |v| > 0 && !IsSpace(v[0]) && !IsSpace(v[|v| - 1])
    ensures Trim([' '] + v) == v
  {
    var s := [' '] + v;
    assert s[1..] == v;
    assert TrimStart(v) == v;
    assert TrimStart(s) == v;
    assert TrimEnd(v) == v;
  }

  lemma LowerAgentLine()
    ensures LowerStr("User-agent: *") == "user-agent: *"
  {
  }

  lemma LowerDisallowLine()
    ensures LowerStr("Disallow: /") == "disallow: /"
  {
  }

  /** A line reading `user-agent:` and a value, once trimmed and lower-cased, names
      the trimmed value as its agent. */
  lemma AgentLine(line: string, rest: string)
    requires LowerStr(Trim(line)) == "user-agent:" + rest
    ensures ParseLine(line) == UserAgent(Trim(rest))
  {
    var t := LowerStr(Trim(line));
    assert t[..11] == "user-agent:";
    assert t[11..] == rest;
  }

  /** A line reading `disallow:` and a value, once trimmed and lower-cased, disallows
      the trimmed value. */
  lemma DisallowLine(line: string, rest: string)
    requires LowerStr(Trim(line)) == "disallow:" + rest
    ensures ParseLine(line) == Disallow(Trim(rest))
  {
    var t := LowerStr(Trim(line));
    assert t[..9] == "disallow:";
    assert t[0] == 'd';
    assert !StartsWith(t, "user-agent:") by {
      if |t| >= 11 { assert t[..11][0] != "user-agent:"[0]; }
    }
    assert t[9..] == rest;
  }

  lemma StarAgentLine()
    ensures ParseLine("User-agent: *") == UserAgent("*")
  {
    TrimNoSpace("User-agent: *");
    LowerAgentLine();
    assert "user-agent: *" == "user-agent:" + " *";
    AgentLine("User-agent: *", " *");
    TrimOneSpace("*");
  }

  lemma RootDisallowLine()
    ensures ParseLine("Disallow: /") == Disallow("/")
  {
    TrimNoSpace("Disallow: /");
    LowerDisallowLine();
    assert "disallow: /" == "disallow:" + " /";
    DisallowLine("Disallow: /", " /");
    TrimOneSpace("/");
  }

  /** `User-agent: *` then `Disallow: /` blocks the site. */
  lemma WildcardRootBlocks()
    ensures IsBlockedByRobots(Success("User-agent: *\nDisallow: /"))
  {
    var a, b := "User-agent: *", "Disallow: /";
    assert "User-agent: *\nDisallow: /" == a + ['\n'] + b;
    SplitTwo(a, b, '\n');
    StarAgentLine();
    RootDisallowLine();
    var lines := [a, b];
    assert lines[1..] == [b];
  }
}
