/** String primitives shared by every scraper variant: the JavaScript notions of
    whitespace, ASCII lower-casing, prefix and substring tests, `trim`, first-occurrence
    search and `split` on a single separator character. Strings are `seq<char>`. */
module Strings {

  /** The characters JavaScript's `String.prototype.trim` and the regex class `\s`
      treat as white space (WhiteSpace and LineTerminator of ECMA-262). */
  predicate IsSpace(c: char) {
    c in {'\t', '\n', '\U{0B}', '\U{0C}', '\r', ' ', '\U{A0}', '\U{1680}', '\U{2028}',
          '\U{2029}', '\U{202F}', '\U{205F}', '\U{3000}', '\U{FEFF}'}
    || ('\U{2000}' <= c <= '\U{200A}')
  }

  /** The regex class `[a-z0-9]`. */
  predicate IsLowerAlnum(c: char) {
    ('a' <= c <= 'z') || ('0' <= c <= '9')
  }

  /** The regex class `\w`, i.e. `[A-Za-z0-9_]`. */
  predicate IsWordChar(c: char) {
    ('a' <= c <= 'z') || ('A' <= c <= 'Z') || ('0' <= c <= '9') || c == '_'
  }

  /** `toLowerCase` on one character, for the ASCII range. */
  function Lower(c: char): (r: char)
    ensures 'A' <= c <= 'Z' ==> 'a' <= r <= 'z'
    ensures !('A' <= c <= 'Z') ==> r == c
  {
    if 'A' <= c <= 'Z' then (c as int + 32) as char else c
  }

  function LowerStr(s: string): (r: string)
    ensures |r| == |s|
  {
    seq(|s|, i requires 0 <= i < |s| => Lower(s[i]))
  }

  predicate StartsWith(s: string, prefix: string) {
    |prefix| <= |s| && s[..|prefix|] == prefix
  }

  /** `s.includes(sub)`. */
  predicate Contains(s: string, sub: string) {
    exists i :: 0 <= i <= |s| - |sub| && OccursAt(s, sub, i)
  }

  /** Whether `pat` occurs in `s` at offset `i`. */
  predicate OccursAt(s: string, pat: string, i: int) {
    0 <= i <= |s| - |pat| && s[i..i + |pat|] == pat
  }

  /** A substring of a substring is a substring of the whole. */
  lemma ContainsTransitive(big: string, mid: string, small: string)
    requires Contains(big, mid) && Contains(mid, small)
    ensures Contains(big, small)
  {
    var i :| 0 <= i <= |big| - |mid| && OccursAt(big, mid, i);
    var j :| 0 <= j <= |mid| - |small| && OccursAt(mid, small, j);
    forall k | 0 <= k < |small|
      ensures big[i + j + k] == small[k]
    {
      assert big[i + j + k] == big[i..i + |mid|][j + k] == mid[j + k];
      assert mid[j + k] == mid[j..j + |small|][k];
    }
    assert big[i + j..i + j + |small|] == small;
    assert OccursAt(big, small, i + j);
  }

  /** Lower-casing commutes with taking a slice. */
  lemma LowerStrSlice(s: string, i: int, j: int)
    requires 0 <= i <= j <= |s|
    ensures LowerStr(s)[i..j] == LowerStr(s[i..j])
  {
  }

  /** A substring of the text is, lower-cased, a substring of the lower-cased text. */
  lemma ContainsLower(s: string, sub: string)
    requires Contains(s, sub)
    ensures Contains(LowerStr(s), LowerStr(sub))
  {
    var i :| 0 <= i <= |s| - |sub| && OccursAt(s, sub, i);
    LowerStrSlice(s, i, i + |sub|);
    assert OccursAt(LowerStr(s), LowerStr(sub), i);
  }

  /** Drops leading white space. */
  function TrimStart(s: string): (r: string)
    ensures |r| <= |s| && r == s[|s| - |r|..]
    ensures |r| == 0 || !IsSpace(r[0])
    ensures forall i :: 0 <= i < |s| - |r| ==> IsSpace(s[i])
  {
    if |s| > 0 && IsSpace(s[0]) then TrimStart(s[1..]) else s
  }

  /** Drops trailing white space. */
  function TrimEnd(s: string): (r: string)
    ensures |r| <= |s| && r == s[..|r|]
    ensures |r| == 0 || !IsSpace(r[|r| - 1])
    ensures forall i :: |r| <= i < |s| ==> IsSpace(s[i])
  {
    if |s| > 0 && IsSpace(s[|s| - 1]) then TrimEnd(s[..|s| - 1]) else s
  }

  /** `s.trim()`: drops white space at both ends. */
  function Trim(s: string): (r: string)
    ensures |r| <= |s|
    ensures |r| == 0 || (!IsSpace(r[0]) && !IsSpace(r[|r| - 1]))
  {
    TrimEnd(TrimStart(s))
  }

  /** The trim is the slice of `s` between its leading and its trailing white space. */
  lemma TrimSlice(s: string)
    ensures exists a :: OccursAt(s, Trim(s), a) && (forall i :: 0 <= i < a ==> IsSpace(s[i]))
                      && (forall i :: a + |Trim(s)| <= i < |s| ==> IsSpace(s[i]))
  {
    var t := TrimStart(s);
    var r := TrimEnd(t);
    var a := |s| - |t|;
    assert r == s[a..a + |r|];
    assert OccursAt(s, r, a);
    assert forall i :: a + |r| <= i < |s| ==> s[i] == t[i - a];
    assert forall i :: 0 <= i < a ==> IsSpace(s[i]);
    assert Trim(s) == r;
  }

  /** Trimming twice is trimming once. */
  lemma TrimIdempotent(s: string)
    ensures Trim(Trim(s)) == Trim(s)
  {
    var r := Trim(s);
    assert TrimStart(r) == r;
    assert TrimEnd(r) == r;
  }

  /** A string without white space at either end is its own trim. */
  lemma TrimNoSpace(s: string)
    requires |s| == 0 || (!IsSpace(s[0]) && !IsSpace(s[|s| - 1]))
    ensures Trim(s) == s
  {
    assert TrimStart(s) == s;
    assert TrimEnd(s) == s;
  }

  /** `s.indexOf(pat, from)`: the first offset at or after `from` where `pat` occurs. */
  function IndexOfFrom(s: string, pat: string, from: nat): (r: Option<nat>)
    ensures r.Some? ==> from <= r.value && OccursAt(s, pat, r.value)
    ensures r.Some? ==> forall j :: from <= j < r.value ==> !OccursAt(s, pat, j)
    ensures r.None? ==> forall j :: from <= j ==> !OccursAt(s, pat, j)
    decreases |s| - from
  {
    if from + |pat| > |s| then None
    else if s[from..from + |pat|] == pat then Some(from)
    else IndexOfFrom(s, pat, from + 1)
  }

  /** `indexOf` finds an occurrence exactly when `includes` holds. */
  lemma IndexOfIffContains(s: string, pat: string)
    ensures IndexOfFrom(s, pat, 0).Some? <==> Contains(s, pat)
  {
    if Contains(s, pat) {
      var i :| OccursAt(s, pat, i);
    }
  }

  /** `s.replace(pat, '')` with a string pattern: removes the first occurrence only. */
  function RemoveFirst(s: string, pat: string): (r: string)
    ensures Contains(s, pat) ==> |r| == |s| - |pat|
    ensures !Contains(s, pat) ==> r == s
  {
    IndexOfIffContains(s, pat);
    match IndexOfFrom(s, pat, 0)
    case None => s
    case Some(i) => s[..i] + s[i + |pat|..]
  }

  /** The first index at or after `i` holding `c`, or `|s|` when there is none. */
  function FindChar(s: string, c: char, i: nat): (r: nat)
    requires i <= |s|
    ensures i <= r <= |s|
    ensures forall k :: i <= k < r ==> s[k] != c
    ensures r == |s| || s[r] == c
    decreases |s| - i
  {
    if i == |s| || s[i] == c then i else FindChar(s, c, i + 1)
  }

  /** `FindChar` is determined by its contract. */
  lemma {:induction false} FindCharAt(s: string, c: char, i: nat, e: nat)
    requires i <= e <= |s|
    requires forall k :: i <= k < e ==> s[k] != c
    requires e == |s| || s[e] == c
    ensures FindChar(s, c, i) == e
    decreases e - i
  {
    if i < e {
      FindCharAt(s, c, i + 1, e);
    }
  }

  /** `s.split(sep)` for a one-character separator. */
  function SplitOn(s: string, sep: char): (r: seq<string>)
    ensures |r| >= 1
    ensures forall k, i :: 0 <= k < |r| && 0 <= i < |r[k]| ==> r[k][i] != sep
    decreases |s|
  {
    if |s| == 0 then [""]
    else
      var rest := SplitOn(s[1..], sep);
      if s[0] == sep then [""] + rest
      else [[s[0]] + rest[0]] + rest[1..]
  }

  /** `pieces.join(sep)`. */
  function Join(pieces: seq<string>, sep: char): string
    decreases |pieces|
  {
    if |pieces| == 0 then ""
    else if |pieces| == 1 then pieces[0]
    else pieces[0] + [sep] + Join(pieces[1..], sep)
  }

  /** Splitting on a character and joining with it gives back the text. */
  lemma {:induction false} SplitJoin(s: string, sep: char)
    ensures Join(SplitOn(s, sep), sep) == s
    decreases |s|
  {
    if |s| > 0 {
      var rest := SplitOn(s[1..], sep);
      SplitJoin(s[1..], sep);
      if s[0] == sep {
        assert SplitOn(s, sep) == [""] + rest;
        assert ([""] + rest)[1..] == rest;
      } else {
        var r := [[s[0]] + rest[0]] + rest[1..];
        assert SplitOn(s, sep) == r;
        if |rest| == 1 {
          assert Join(r, sep) == [s[0]] + rest[0];
          assert s == [s[0]] + s[1..];
        } else {
          assert r[1..] == rest[1..];
          assert Join(rest, sep) == rest[0] + [sep] + Join(rest[1..], sep);
          assert s == [s[0]] + s[1..];
        }
      }
    }
  }

  datatype Option<+T> = None | Some(value: T) {
    function GetOr(default: T): T {
      match this
      case Some(v) => v
      case None => default
    }
  }
}
