/** The parts of Python's `str` that the Dockerfile fixers rely on, with
    Python's own semantics: `str.isspace()` (which is also the class `\s`
    of a `str` regular expression), `strip`, `splitlines`, `'\n'.join`,
    `startswith`, the `in` operator, `count` and `int()` of a digit string.
    Case conversion is restricted to ASCII letters. */
module PyText {
  import opened SeqUtil

  /** Python whitespace: `str.isspace()` and the regex class `\s`. */
  predicate IsSpace(c: char) {
    c == ' ' || ('\t' <= c <= '\r') || ('\U{1c}' <= c <= '\U{1f}') ||
    c == '\U{85}' || c == '\U{a0}' || c == '\U{1680}' || ('\U{2000}' <= c <= '\U{200a}') ||
    c == '\U{2028}' || c == '\U{2029}' || c == '\U{202f}' || c == '\U{205f}' || c == '\U{3000}'
  }

  /** The line boundaries of `str.splitlines()`; "\r\n" counts as one. */
  predicate IsLineBreak(c: char)
    ensures IsLineBreak(c) ==> IsSpace(c)
  {
    c == '\n' || c == '\r' || c == '\U{0b}' || c == '\U{0c}' ||
    ('\U{1c}' <= c <= '\U{1e}') || c == '\U{85}' || c == '\U{2028}' || c == '\U{2029}'
  }

  /** `\d`, restricted to ASCII digits. */
  predicate IsDigit(c: char) { '0' <= c <= '9' }

  /** Every character of s is an ASCII digit. */
  predicate AllDigits(s: string) {
    forall k :: 0 <= k < |s| ==> IsDigit(s[k])
  }

  /** `\w`, restricted to ASCII letters, digits and the underscore. */
  predicate IsWordChar(c: char) {
    ('a' <= c <= 'z') || ('A' <= c <= 'Z') || IsDigit(c) || c == '_'
  }

  predicate NoLineBreak(s: string) {
    forall k :: 0 <= k < |s| ==> !IsLineBreak(s[k])
  }

  predicate StartsWith(s: string, prefix: string) {
    |prefix| <= |s| && s[..|prefix|] == prefix
  }

  /** Python's `sub in s`. */
  predicate Contains(s: string, sub: string)
    decreases |s|
  {
    StartsWith(s, sub) || (s != [] && Contains(s[1..], sub))
  }

  /** `s.lstrip()`: the suffix left after dropping leading whitespace. */
  function LStrip(s: string): (r: string)
    ensures |r| <= |s| && r == s[|s| - |r|..]
    ensures r == [] || !IsSpace(r[0])
    ensures forall k :: 0 <= k < |s| - |r| ==> IsSpace(s[k])
  {
    if s != [] && IsSpace(s[0]) then LStrip(s[1..]) else s
  }

  /** `s.rstrip()`: the prefix left after dropping trailing whitespace. */
  function RStrip(s: string): (r: string)
    ensures |r| <= |s| && r == s[..|r|]
    ensures r == [] || !IsSpace(r[|r| - 1])
    ensures forall k :: |r| <= k < |s| ==> IsSpace(s[k])
  {
    if s != [] && IsSpace(s[|s| - 1]) then RStrip(s[..|s| - 1]) else s
  }

  /** `s.strip()`: a slice of s with no whitespace at either end, which is
      empty exactly when s is all whitespace. */
  function Strip(s: string): (r: string)
    ensures |s| - |LStrip(s)| + |r| <= |s|
    ensures r == s[|s| - |LStrip(s)|..|s| - |LStrip(s)| + |r|]
    ensures r != [] ==> !IsSpace(r[0]) && !IsSpace(r[|r| - 1])
    ensures r == [] <==> forall k :: 0 <= k < |s| ==> IsSpace(s[k])
  {
    var l := LStrip(s);
    var r := RStrip(l);
    StripParts(s, l, r);
    r
  }

  /** l is s without leading whitespace and r is l without trailing
      whitespace. */
  lemma StripParts(s: string, l: string, r: string)
    requires |l| <= |s| && l == s[|s| - |l|..] && forall k :: 0 <= k < |s| - |l| ==> IsSpace(s[k])
    requires |r| <= |l| && r == l[..|r|] && (r == [] || !IsSpace(r[|r| - 1]))
    requires forall k :: |r| <= k < |l| ==> IsSpace(l[k])
    ensures |s| - |l| + |r| <= |s| && r == s[|s| - |l|..|s| - |l| + |r|]
    ensures r == [] <==> forall k :: 0 <= k < |s| ==> IsSpace(s[k])
  {
    var d := |s| - |l|;
    forall k | 0 <= k < |r| ensures r[k] == s[d + k] {
      assert r[k] == l[k];
    }
    assert r == s[d..d + |r|];
    if r == [] {
      forall k | 0 <= k < |s| ensures IsSpace(s[k]) {
        if k >= d { assert s[k] == l[k - d]; }
      }
    } else {
      assert r[|r| - 1] == s[d + |r| - 1];
    }
  }

  /** A string that strip() leaves unchanged. */
  predicate IsStripped(s: string) {
    s == [] || (!IsSpace(s[0]) && !IsSpace(s[|s| - 1]))
  }

  lemma StripStripped(s: string)
    requires IsStripped(s)
    ensures Strip(s) == s
  {
  }

  function LowerChar(c: char): char {
    if 'A' <= c <= 'Z' then (c as int + 32) as char else c
  }

  function UpperChar(c: char): char {
    if 'a' <= c <= 'z' then (c as int - 32) as char else c
  }

  /** `s.lower()` on ASCII letters. */
  function Lower(s: string): (r: string)
    ensures |r| == |s| && forall k :: 0 <= k < |s| ==> r[k] == LowerChar(s[k])
  {
    Map(s, LowerChar)
  }

  /** SQL/JPQL `UPPER(s)` on ASCII letters. */
  function Upper(s: string): (r: string)
    ensures |r| == |s| && forall k :: 0 <= k < |s| ==> r[k] == UpperChar(s[k])
  {
    Map(s, UpperChar)
  }

  /** `s.count(c)` for a single character. */
  function CountChar(s: string, c: char): (n: nat)
    ensures n <= |s|
  {
    if s == [] then 0 else (if s[0] == c then 1 else 0) + CountChar(s[1..], c)
  }

  /** The first line boundary at or after i, or |s|. */
  function LineEnd(s: string, i: nat): (j: nat)
    requires i <= |s|
    ensures i <= j <= |s| && (j < |s| ==> IsLineBreak(s[j]))
    ensures forall k :: i <= k < j ==> !IsLineBreak(s[k])
    decreases |s| - i
  {
    if i == |s| || IsLineBreak(s[i]) then i else LineEnd(s, i + 1)
  }

  /** `s.splitlines()`: the text between line boundaries, a "\r\n" pair
      being one boundary; a boundary at the very end opens no extra line, so
      "" gives [] and "a\n" gives ["a"]. No line holds a boundary. */
  function SplitLines(s: string): (ls: seq<string>)
    ensures forall i :: 0 <= i < |ls| ==> NoLineBreak(ls[i])
    decreases |s|
  {
    if s == [] then []
    else
      var j := LineEnd(s, 0);
      var next := if j == |s| then |s|
                  else if s[j] == '\r' && j + 1 < |s| && s[j + 1] == '\n' then j + 2
                  else j + 1;
      [s[..j]] + SplitLines(s[next..])
  }

  /** `'\n'.join(ls)`. */
  function JoinLines(ls: seq<string>): string {
    if ls == [] then "" else if |ls| == 1 then ls[0] else ls[0] + "\n" + JoinLines(ls[1..])
  }

  /** ls without a final empty line: what splitlines() gives back after
      '\n'.join, since a trailing "\n" opens no line. */
  function DropTrailingEmpty(ls: seq<string>): seq<string> {
    if ls != [] && ls[|ls| - 1] == "" then ls[..|ls| - 1] else ls
  }

  lemma LineEndAt(s: string, j: nat)
    requires j <= |s| && (j < |s| ==> IsLineBreak(s[j]))
    requires forall k :: 0 <= k < j ==> !IsLineBreak(s[k])
    ensures LineEnd(s, 0) == j
  {
  }

  lemma DropTrailingEmptyCons(ls: seq<string>)
    requires |ls| > 1
    ensures DropTrailingEmpty(ls) == [ls[0]] + DropTrailingEmpty(ls[1..])
  {
    if ls[|ls| - 1] == "" {
      assert ls[1..][..|ls| - 2] == ls[1..|ls| - 1];
      assert ls[..|ls| - 1] == [ls[0]] + ls[1..|ls| - 1];
    } else {
      assert ls == [ls[0]] + ls[1..];
    }
  }

  /** A non-empty text without line breaks is one line. */
  lemma OneLine(l: string)
    requires l != [] && NoLineBreak(l)
    ensures SplitLines(l) == [l]
  {
    LineEndAt(l, |l|);
    assert l[..|l|] == l && l[|l|..] == [];
  }

  /** A line without breaks followed by "\n" is the first line of the
      split, and the rest is split on its own. */
  lemma SplitLinesCons(l: string, rest: string)
    requires NoLineBreak(l)
    ensures SplitLines(l + "\n" + rest) == [l] + SplitLines(rest)
  {
    var s := l + "\n" + rest;
    forall k | 0 <= k < |l| ensures !IsLineBreak(s[k]) {
      assert s[k] == l[k];
    }
    LineEndAt(s, |l|);
    assert s[..|l|] == l;
    assert s[|l| + 1..] == rest;
  }

  /** Splitting what '\n'.join produced gives the lines back, when none of
      them holds a boundary (up to a final empty line). */
  lemma {:induction false} SplitJoin(ls: seq<string>)
    requires forall i :: 0 <= i < |ls| ==> NoLineBreak(ls[i])
    ensures SplitLines(JoinLines(ls)) == DropTrailingEmpty(ls)
  {
    if ls == [] {
    } else if |ls| == 1 {
      assert JoinLines(ls) == ls[0];
      if ls[0] != [] {
        OneLine(ls[0]);
      }
    } else {
      var rest := ls[1..];
      assert JoinLines(ls) == ls[0] + "\n" + JoinLines(rest);
      SplitLinesCons(ls[0], JoinLines(rest));
      SplitJoin(rest);
      DropTrailingEmptyCons(ls);
    }
  }

  /** The value of a non-empty ASCII digit string, as Python's `int()`
      reads it (leading zeros allowed). */
  function DecimalValue(digits: string): (n: nat)
    requires AllDigits(digits)
  {
    if digits == [] then 0
    else
      assert IsDigit(digits[|digits| - 1]);
      DecimalValue(digits[..|digits| - 1]) * 10 + (digits[|digits| - 1] as int - '0' as int)
  }

  /** `str(n)` for a natural number. */
  function NatToString(n: nat): (s: string)
    ensures s != [] && AllDigits(s)
  {
    var d := ['0' + (n % 10) as char];
    if n < 10 then d else NatToString(n / 10) + d
  }
}
