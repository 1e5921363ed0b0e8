/** String operations shared by the text routines: Python's whitespace, `str.strip`, `str.join`, substring tests
    and lower case. */
module Text {

  /** A table of whitespace characters: it holds the blank and the newline and no visible
      ASCII character. */
  type Whitespace = ws: set<char> |
    ' ' in ws && '\n' in ws && forall c :: c in ws ==> c < '!' || '~' < c
    witness {' ', '\n'}

  /** The characters `str.isspace` accepts, which are also the ones `\s` matches. */
  const PYTHON_WHITESPACE: Whitespace := set c: char |
    || '\U{0009}' <= c <= '\U{000D}'
    || '\U{001C}' <= c <= '\U{0020}'
    || c == '\U{0085}'
    || c == '\U{00A0}'
    || c == '\U{1680}'
    || '\U{2000}' <= c <= '\U{200A}'
    || '\U{2028}' <= c <= '\U{2029}'
    || c == '\U{202F}'
    || c == '\U{205F}'
    || c == '\U{3000}'

  predicate IsBlank(ws: Whitespace, s: string) {
    forall i :: 0 <= i < |s| ==> s[i] in ws
  }

  /** How many leading characters `strip` removes. */
  function Lead(ws: Whitespace, s: string): (k: nat)
    ensures k <= |s|
    ensures forall i :: 0 <= i < k ==> s[i] in ws
    ensures k < |s| ==> s[k] !in ws
  {
    if s != "" && s[0] in ws then 1 + Lead(ws, s[1..]) else 0
  }

  /** How many trailing characters `strip` removes. */
  function Trail(ws: Whitespace, s: string): (k: nat)
    ensures k <= |s|
    ensures forall i :: |s| - k <= i < |s| ==> s[i] in ws
    ensures k < |s| ==> s[|s| - k - 1] !in ws
  {
    if s != "" && s[|s| - 1] in ws then 1 + Trail(ws, s[..|s| - 1]) else 0
  }

  function LStrip(ws: Whitespace, s: string): string {
    s[Lead(ws, s)..]
  }

  function RStrip(ws: Whitespace, s: string): string {
    s[..|s| - Trail(ws, s)]
  }

  function Strip(ws: Whitespace, s: string): string {
    RStrip(ws, LStrip(ws, s))
  }

  predicate Trimmed(ws: Whitespace, s: string) {
    s != "" ==> s[0] !in ws && s[|s| - 1] !in ws
  }

  /** `strip` returns a trimmed string, empty exactly for blank input. */
  lemma StripTrims(ws: Whitespace, s: string)
    ensures Trimmed(ws, Strip(ws, s))
    ensures Strip(ws, s) == "" <==> IsBlank(ws, s)
  {
    var t := LStrip(ws, s);
    if IsBlank(ws, s) {
      assert t == "";
    } else {
      var i :| 0 <= i < |s| && s[i] !in ws;
      assert t != "" && t[0] == s[Lead(ws, s)];
      assert Strip(ws, s)[0] == t[0];
    }
  }

  lemma StripOfTrimmed(ws: Whitespace, s: string)
    requires Trimmed(ws, s)
    ensures Strip(ws, s) == s
  {
  }

  /** Whitespace around a trimmed text is stripped. */
  lemma StripOfPadded(ws: Whitespace, before: string, s: string, behind: string)
    requires IsBlank(ws, before) && IsBlank(ws, behind) && s != "" && Trimmed(ws, s)
    ensures Strip(ws, before + s + behind) == s
  {
    var t := before + s + behind;
    assert t[|before|] == s[0];
    assert Lead(ws, t) == |before| by {
      assert forall i :: 0 <= i < |before| ==> t[i] == before[i];
    }
    var u := s + behind;
    assert LStrip(ws, t) == u;
    assert u[|s| - 1] == s[|s| - 1];
    assert Trail(ws, u) == |behind| by {
      assert forall i :: 0 <= i < |behind| ==> u[|s| + i] == behind[i];
    }
  }

  /** The Python expression `sep.join(parts)`. */
  function Join(parts: seq<string>, sep: string): string {
    if |parts| == 0 then ""
    else if |parts| == 1 then parts[0]
    else parts[0] + sep + Join(parts[1..], sep)
  }

  lemma JoinNonempty(parts: seq<string>, sep: string)
    requires |parts| > 0 && parts[0] != ""
    ensures Join(parts, sep) != "" && Join(parts, sep)[0] == parts[0][0]
  {
  }

  lemma {:induction false} JoinLast(parts: seq<string>, sep: string)
    requires |parts| > 0 && parts[|parts| - 1] != ""
    ensures Join(parts, sep) != ""
    ensures Join(parts, sep)[|Join(parts, sep)| - 1] == parts[|parts| - 1][|parts[|parts| - 1]| - 1]
  {
    if |parts| > 1 {
      JoinLast(parts[1..], sep);
    }
  }

  /** Growing the last part by a suffix grows the joined text by that suffix. */
  lemma {:induction false} JoinGrowLast(parts: seq<string>, sep: string, suffix: string)
    requires |parts| > 0
    ensures Join(parts[..|parts| - 1] + [parts[|parts| - 1] + suffix], sep) == Join(parts, sep) + suffix
  {
    if |parts| == 1 {
      assert parts[..0] + [parts[0] + suffix] == [parts[0] + suffix];
    } else {
      var rest := parts[1..];
      JoinGrowLast(rest, sep, suffix);
      var grown := parts[..|parts| - 1] + [parts[|parts| - 1] + suffix];
      assert grown[0] == parts[0];
      assert grown[1..] == rest[..|rest| - 1] + [rest[|rest| - 1] + suffix];
      assert Join(grown, sep) == parts[0] + sep + (Join(rest, sep) + suffix);
      assert Join(grown, sep) == (parts[0] + sep + Join(rest, sep)) + suffix;
    }
  }

  predicate MatchesAt(s: string, i: nat, pattern: string) {
    i + |pattern| <= |s| && s[i..i + |pattern|] == pattern
  }

  /** The Python expression `pattern in s`. */
  ghost predicate Contains(s: string, pattern: string) {
    exists i: nat :: MatchesAt(s, i, pattern)
  }

  /** One text contains another exactly when it is that text with something, or nothing, around it. */
  lemma ContainsExactlyWhen(s: string, pattern: string)
    ensures Contains(s, pattern) <==> exists a: string, b: string :: s == a + pattern + b
  {
    if Contains(s, pattern) {
      var i: nat :| MatchesAt(s, i, pattern);
      assert s == s[..i] + pattern + s[i + |pattern|..];
    }
    if a: string, b: string :| s == a + pattern + b {
      assert MatchesAt(s, |a|, pattern);
    }
  }

  lemma ContainsInLonger(s: string, suffix: string, pattern: string)
    requires Contains(s, pattern)
    ensures Contains(s + suffix, pattern)
  {
    var i: nat :| MatchesAt(s, i, pattern);
    assert (s + suffix)[i..i + |pattern|] == s[i..i + |pattern|];
    assert MatchesAt(s + suffix, i, pattern);
  }

  /** Lower-casing one character at a time, for any table of lower-case forms. */
  function Lower(lower: char -> string, s: string): string {
    if s == "" then "" else Lower(lower, s[..|s| - 1]) + lower(s[|s| - 1])
  }

  lemma LowerAppend(lower: char -> string, s: string, c: char)
    ensures Lower(lower, s + [c]) == Lower(lower, s) + lower(c)
  {
    assert (s + [c])[..|s|] == s;
  }
}
