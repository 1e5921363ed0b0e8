/** The reply length limiter of the response composer. */
module SentenceLimit {
  import opened Text

  predicate IsStop(c: char) {
    c == '.' || c == '!' || c == '?'
  }

  /** A match of `(?<=[.!?])\s+` begins at position i. */
  predicate BreakAt(ws: Whitespace, t: string, i: int) {
    0 < i < |t| && IsStop(t[i - 1]) && t[i] in ws
  }

  ghost predicate Unbroken(ws: Whitespace, t: string) {
    forall i :: !BreakAt(ws, t, i)
  }

  /** The first match position at or after `from`, or the length of the text. */
  function FirstBreak(ws: Whitespace, t: string, from: nat): (i: nat)
    requires from <= |t|
    ensures from <= i <= |t|
    ensures i < |t| ==> BreakAt(ws, t, i)
    ensures forall j :: from <= j < i ==> !BreakAt(ws, t, j)
    decreases |t| - from
  {
    if from == |t| || BreakAt(ws, t, from) then from else FirstBreak(ws, t, from + 1)
  }

  /** What splitting on the pattern yields: the text between maximal whitespace runs that
      follow a stop character. */
  function Split(ws: Whitespace, t: string): (parts: seq<string>)
    ensures |parts| > 0
    decreases |t|
  {
    var i := FirstBreak(ws, t, 0);
    if i == |t| then [t]
    else [t[..i]] + Split(ws, LStrip(ws, t[i..]))
  }

  function StripAll(ws: Whitespace, parts: seq<string>): seq<string> {
    if parts == [] then []
    else (if Strip(ws, parts[0]) == "" then [] else [Strip(ws, parts[0])]) + StripAll(ws, parts[1..])
  }

  /** The stripped non-blank pieces of a text. */
  function Sentences(ws: Whitespace, t: string): seq<string> {
    StripAll(ws, Split(ws, t))
  }

  const SAFETY_KEYWORDS: seq<string> := ["pin", "otp", "mật khẩu", "password", "thẻ", "bảo mật"]

  ghost predicate IsSafetyReminder(lower: char -> string, sentence: string) {
    exists k :: 0 <= k < |SAFETY_KEYWORDS| && Contains(Lower(lower, sentence), SAFETY_KEYWORDS[k])
  }

  /** How many sentences a text may keep. */
  ghost function Allowance(ws: Whitespace, lower: char -> string, t: string, max: nat): nat {
    var ss := Sentences(ws, t);
    if |ss| > max && IsSafetyReminder(lower, ss[max]) then max + 1 else max
  }

  /** The limiter. `min_sentences` has no effect in the source. */
  ghost function Limit(ws: Whitespace, lower: char -> string, t: string, max: nat): string {
    if IsBlank(ws, t) then t
    else
      var ss := Sentences(ws, t);
      if |ss| <= max then t
      else
        var r := Join(ss[..Allowance(ws, lower, t, max)], " ");
        if r != "" && !IsStop(r[|r| - 1]) then r + "." else r
  }

  /** What makes a list of sentences survive joining and splitting again. */
  ghost predicate Tidy(ws: Whitespace, ss: seq<string>) {
    && (forall i :: 0 <= i < |ss| ==> ss[i] != "" && Trimmed(ws, ss[i]) && Unbroken(ws, ss[i]))
    && (forall i :: 0 <= i < |ss| - 1 ==> IsStop(ss[i][|ss[i]| - 1]))
  }

  lemma StripAllSingle(ws: Whitespace, p: string)
    ensures StripAll(ws, [p]) == if Strip(ws, p) == "" then [] else [Strip(ws, p)]
  {
    assert [p][1..] == [];
  }

  lemma UnbrokenPart(ws: Whitespace, t: string, lo: nat, hi: nat)
    requires lo <= hi <= |t|
    requires forall j :: lo <= j < hi ==> !BreakAt(ws, t, j)
    ensures Unbroken(ws, t[lo..hi])
  {
    forall i ensures !BreakAt(ws, t[lo..hi], i) {
      if 0 < i < hi - lo {
        assert !BreakAt(ws, t, lo + i);
      }
    }
  }

  /** What splitting guarantees about its parts before they are stripped. */
  ghost predicate Cut(ws: Whitespace, parts: seq<string>) {
    && (forall i :: 0 <= i < |parts| ==> Unbroken(ws, parts[i]))
    && (forall i :: 0 <= i < |parts| - 1 ==> parts[i] != "" && IsStop(parts[i][|parts[i]| - 1]))
  }

  lemma CutCons(ws: Whitespace, p: string, parts: seq<string>)
    requires p != "" && Unbroken(ws, p) && IsStop(p[|p| - 1]) && Cut(ws, parts)
    ensures Cut(ws, [p] + parts)
  {
  }

  lemma {:induction false} SplitCuts(ws: Whitespace, t: string)
    ensures Cut(ws, Split(ws, t))
    decreases |t|
  {
    var i := FirstBreak(ws, t, 0);
    UnbrokenPart(ws, t, 0, i);
    if i == |t| {
      assert t[0..i] == t;
    } else {
      var rest := LStrip(ws, t[i..]);
      SplitCuts(ws, rest);
      assert t[0..i] == t[..i];
      CutCons(ws, t[..i], Split(ws, rest));
    }
  }

  lemma {:induction false} StripAllTidies(ws: Whitespace, parts: seq<string>)
    requires Cut(ws, parts)
    ensures Tidy(ws, StripAll(ws, parts))
  {
    if parts != [] {
      var p := parts[0];
      StripAllTidies(ws, parts[1..]);
      StripTrims(ws, p);
      StripIsPart(ws, p);
      if |parts| > 1 {
        StripKeepsStop(ws, p);
      } else {
        assert parts[1..] == [];
      }
    }
  }

  lemma StripKeepsStop(ws: Whitespace, p: string)
    requires p != "" && IsStop(p[|p| - 1])
    ensures Strip(ws, p) != "" && Strip(ws, p)[|Strip(ws, p)| - 1] == p[|p| - 1]
  {
    assert p[|p| - 1] !in ws;
    assert LStrip(ws, p)[|LStrip(ws, p)| - 1] == p[|p| - 1];
  }

  lemma SentencesAreTidy(ws: Whitespace, t: string)
    ensures Tidy(ws, Sentences(ws, t))
  {
    SplitCuts(ws, t);
    StripAllTidies(ws, Split(ws, t));
  }

  lemma StripIsPart(ws: Whitespace, p: string)
    requires Unbroken(ws, p)
    ensures Unbroken(ws, Strip(ws, p))
  {
    var l := LStrip(ws, p);
    var hi := Lead(ws, p) + (|l| - Trail(ws, l));
    assert Strip(ws, p) == p[Lead(ws, p)..hi];
    UnbrokenPart(ws, p, Lead(ws, p), hi);
  }

  /** The characters of a text that are not whitespace. */
  function Solid(ws: Whitespace, t: string): string {
    if t == "" then "" else (if t[0] in ws then "" else [t[0]]) + Solid(ws, t[1..])
  }

  lemma SolidCons(ws: Whitespace, c: char, s: string)
    ensures Solid(ws, [c] + s) == (if c in ws then "" else [c]) + Solid(ws, s)
  {
    assert ([c] + s)[1..] == s;
  }

  lemma {:induction false} SolidConcat(ws: Whitespace, a: string, b: string)
    ensures Solid(ws, a + b) == Solid(ws, a) + Solid(ws, b)
  {
    if a == "" {
      assert a + b == b;
    } else {
      var head := if a[0] in ws then "" else [a[0]];
      SolidConcat(ws, a[1..], b);
      SolidCons(ws, a[0], a[1..] + b);
      SolidCons(ws, a[0], a[1..]);
      assert a == [a[0]] + a[1..];
      assert a + b == [a[0]] + (a[1..] + b);
      assert head + (Solid(ws, a[1..]) + Solid(ws, b)) == (head + Solid(ws, a[1..])) + Solid(ws, b);
    }
  }

  lemma {:induction false} SolidOfLStrip(ws: Whitespace, u: string)
    ensures Solid(ws, LStrip(ws, u)) == Solid(ws, u)
  {
    if u != "" && u[0] in ws {
      SolidOfLStrip(ws, u[1..]);
      assert LStrip(ws, u) == LStrip(ws, u[1..]);
    }
  }

  lemma {:induction false} SolidOfRStrip(ws: Whitespace, u: string)
    ensures Solid(ws, RStrip(ws, u)) == Solid(ws, u)
  {
    if u != "" && u[|u| - 1] in ws {
      var v := u[..|u| - 1];
      SolidOfRStrip(ws, v);
      assert RStrip(ws, u) == RStrip(ws, v);
      SolidConcat(ws, v, [u[|u| - 1]]);
      assert u == v + [u[|u| - 1]];
      assert [u[|u| - 1]][1..] == "";
    } else {
      assert RStrip(ws, u) == u;
    }
  }

  function SolidOfAll(ws: Whitespace, parts: seq<string>): string {
    if parts == [] then "" else Solid(ws, parts[0]) + SolidOfAll(ws, parts[1..])
  }

  lemma SolidSplitAt(ws: Whitespace, t: string, i: nat)
    requires i <= |t|
    ensures Solid(ws, t) == Solid(ws, t[..i]) + Solid(ws, LStrip(ws, t[i..]))
  {
    SolidOfLStrip(ws, t[i..]);
    SolidConcat(ws, t[..i], t[i..]);
    assert t == t[..i] + t[i..];
  }

  lemma {:induction false} SolidOfSplit(ws: Whitespace, t: string)
    ensures SolidOfAll(ws, Split(ws, t)) == Solid(ws, t)
    decreases |t|
  {
    var i := FirstBreak(ws, t, 0);
    if i < |t| {
      var rest := LStrip(ws, t[i..]);
      SolidOfSplit(ws, rest);
      assert SolidOfAll(ws, Split(ws, t)) == Solid(ws, t[..i]) + Solid(ws, rest) by {
        SolidOfAllCons(ws, t[..i], Split(ws, rest));
      }
      SolidSplitAt(ws, t, i);
    } else {
      SolidOfAllCons(ws, t, []);
    }
  }

  lemma SolidOfAllCons(ws: Whitespace, p: string, parts: seq<string>)
    ensures SolidOfAll(ws, [p] + parts) == Solid(ws, p) + SolidOfAll(ws, parts)
  {
    assert ([p] + parts)[1..] == parts;
  }

  lemma {:induction false} SolidOfStripAll(ws: Whitespace, parts: seq<string>)
    ensures SolidOfAll(ws, StripAll(ws, parts)) == SolidOfAll(ws, parts)
  {
    if parts != [] {
      var p := parts[0];
      SolidOfStripAll(ws, parts[1..]);
      SolidOfLStrip(ws, p);
      SolidOfRStrip(ws, LStrip(ws, p));
      if Strip(ws, p) == "" {
        assert StripAll(ws, parts) == StripAll(ws, parts[1..]);
      } else {
        SolidOfAllCons(ws, Strip(ws, p), StripAll(ws, parts[1..]));
      }
    }
  }

  /** Cutting into sentences loses nothing but whitespace. */
  lemma SentencesLoseOnlySpaces(ws: Whitespace, t: string)
    ensures SolidOfAll(ws, Sentences(ws, t)) == Solid(ws, t)
  {
    SolidOfSplit(ws, t);
    SolidOfStripAll(ws, Split(ws, t));
  }

  /** A finished sentence followed by one space is cut off right there. */
  lemma SplitAfterSentence(ws: Whitespace, s: string, tail: string)
    requires s != "" && Unbroken(ws, s) && IsStop(s[|s| - 1])
    requires tail != "" && tail[0] !in ws
    ensures Split(ws, s + " " + tail) == [s] + Split(ws, tail)
  {
    var t := s + " " + tail;
    var n := |s|;
    assert BreakAt(ws, t, n);
    forall j | 0 <= j < n ensures !BreakAt(ws, t, j) {
      assert !BreakAt(ws, s, j);
    }
    assert FirstBreak(ws, t, 0) == n;
    assert t[n..][1..] == tail;
    assert Lead(ws, t[n..]) == 1 + Lead(ws, tail);
    assert t[..n] == s && t[n + 1..] == tail;
  }

  /** Splitting undoes joining with one space. */
  lemma {:induction false} SplitUndoesJoin(ws: Whitespace, ss: seq<string>)
    requires Tidy(ws, ss) && |ss| > 0
    ensures Split(ws, Join(ss, " ")) == ss
  {
    if |ss| == 1 {
      assert Unbroken(ws, ss[0]);
      assert ss == [ss[0]];
    } else {
      JoinNonempty(ss[1..], " ");
      SplitUndoesJoin(ws, ss[1..]);
      SplitAfterSentence(ws, ss[0], Join(ss[1..], " "));
    }
  }

  lemma {:induction false} StripAllOfTidy(ws: Whitespace, ss: seq<string>)
    requires Tidy(ws, ss)
    ensures StripAll(ws, ss) == ss
  {
    if ss != [] {
      StripOfTrimmed(ws, ss[0]);
      StripAllOfTidy(ws, ss[1..]);
    }
  }

  /** Reading back the joined sentences yields the same sentences. */
  lemma SentencesOfJoin(ws: Whitespace, ss: seq<string>)
    requires Tidy(ws, ss)
    ensures Sentences(ws, Join(ss, " ")) == ss
  {
    if |ss| == 0 {
      assert Split(ws, "") == [""];
      StripAllSingle(ws, "");
    } else {
      SplitUndoesJoin(ws, ss);
      StripAllOfTidy(ws, ss);
    }
  }

  /** The kept sentences: a prefix whose last one is closed by a stop character. */
  function Closed(ss: seq<string>): seq<string>
    requires forall i :: 0 <= i < |ss| ==> ss[i] != ""
  {
    if ss == [] || IsStop(ss[|ss| - 1][|ss[|ss| - 1]| - 1]) then ss
    else ss[..|ss| - 1] + [ss[|ss| - 1] + "."]
  }

  lemma TidySnoc(ws: Whitespace, init: seq<string>, l: string)
    requires Tidy(ws, init)
    requires forall i :: 0 <= i < |init| ==> IsStop(init[i][|init[i]| - 1])
    requires l != "" && Trimmed(ws, l) && Unbroken(ws, l)
    ensures Tidy(ws, init + [l])
  {
  }

  lemma TidyPrefix(ws: Whitespace, ss: seq<string>, n: nat)
    requires Tidy(ws, ss) && n <= |ss|
    ensures Tidy(ws, ss[..n])
  {
  }

  lemma ClosedIsTidy(ws: Whitespace, ss: seq<string>)
    requires Tidy(ws, ss)
    ensures Tidy(ws, Closed(ss))
  {
    if ss != [] && !IsStop(ss[|ss| - 1][|ss[|ss| - 1]| - 1]) {
      var l := ss[|ss| - 1] + ".";
      UnbrokenClosed(ws, ss[|ss| - 1]);
      assert l[0] == ss[|ss| - 1][0] && l[|l| - 1] == '.';
      TidySnoc(ws, ss[..|ss| - 1], l);
    }
  }

  lemma UnbrokenClosed(ws: Whitespace, l: string)
    requires Unbroken(ws, l)
    ensures Unbroken(ws, l + ".")
  {
    forall i ensures !BreakAt(ws, l + ".", i) {
      assert !BreakAt(ws, l, i);
    }
  }

  /** A closing full stop does not hide a safety keyword. */
  lemma SafetySurvivesClosing(lower: char -> string, s: string)
    requires IsSafetyReminder(lower, s)
    ensures IsSafetyReminder(lower, s + ".")
  {
    var k :| 0 <= k < |SAFETY_KEYWORDS| && Contains(Lower(lower, s), SAFETY_KEYWORDS[k]);
    LowerAppend(lower, s, '.');
    ContainsInLonger(Lower(lower, s), lower('.'), SAFETY_KEYWORDS[k]);
  }

  /** Joining closed sentences is joining the sentences and then closing the text. */
  lemma JoinClosed(ss: seq<string>)
    requires forall i :: 0 <= i < |ss| ==> ss[i] != ""
    ensures var r := Join(ss, " ");
            Join(Closed(ss), " ") == if r != "" && !IsStop(r[|r| - 1]) then r + "." else r
  {
    if ss != [] {
      JoinLast(ss, " ");
      JoinGrowLast(ss, " ", ".");
    }
  }

  lemma ClosedEnds(ss: seq<string>)
    requires ss != [] && forall i :: 0 <= i < |ss| ==> ss[i] != ""
    ensures var r := Join(Closed(ss), " ");
            r != "" && IsStop(r[|r| - 1])
  {
    JoinLast(Closed(ss), " ");
  }

  lemma BlankHasNoSentence(ws: Whitespace, t: string)
    requires IsBlank(ws, t)
    ensures Sentences(ws, t) == []
  {
    assert Split(ws, t) == [t];
    StripTrims(ws, t);
    StripAllSingle(ws, t);
  }

  lemma BlankIsNotLonger(ws: Whitespace, t: string, max: nat)
    requires |Sentences(ws, t)| > max
    ensures !IsBlank(ws, t)
  {
    if IsBlank(ws, t) {
      BlankHasNoSentence(ws, t);
    }
  }

  lemma LimitJoins(ws: Whitespace, lower: char -> string, t: string, max: nat)
    requires |Sentences(ws, t)| > max
    ensures
      var r := Join(Sentences(ws, t)[..Allowance(ws, lower, t, max)], " ");
      Limit(ws, lower, t, max) == if r != "" && !IsStop(r[|r| - 1]) then r + "." else r
  {
    BlankIsNotLonger(ws, t, max);
  }

  lemma SomeSentencesAreTidy(ws: Whitespace, t: string, n: nat)
    requires n <= |Sentences(ws, t)|
    ensures Tidy(ws, Sentences(ws, t)[..n])
  {
    SentencesAreTidy(ws, t);
    TidyPrefix(ws, Sentences(ws, t), n);
  }

  lemma LimitOfLonger(ws: Whitespace, lower: char -> string, t: string, max: nat)
    requires |Sentences(ws, t)| > max
    ensures
      var kept := Sentences(ws, t)[..Allowance(ws, lower, t, max)];
      Tidy(ws, kept) && Limit(ws, lower, t, max) == Join(Closed(kept), " ")
  {
    var n := Allowance(ws, lower, t, max);
    SomeSentencesAreTidy(ws, t, n);
    JoinClosed(Sentences(ws, t)[..n]);
    LimitJoins(ws, lower, t, max);
  }

  /** Exactly what the limiter keeps: a text within the limit is returned untouched; a longer
      one loses everything after its allowance and gains at most one closing full stop. */
  lemma LimitKeepsPrefix(ws: Whitespace, lower: char -> string, t: string, max: nat)
    ensures |Sentences(ws, t)| <= max ==> Limit(ws, lower, t, max) == t
    ensures |Sentences(ws, t)| > max ==>
              var kept := Sentences(ws, t)[..Allowance(ws, lower, t, max)];
              && Tidy(ws, kept)
              && Sentences(ws, Limit(ws, lower, t, max)) == Closed(kept)
              && Limit(ws, lower, t, max) == Join(Closed(kept), " ")
  {
    var ss := Sentences(ws, t);
    if |ss| > max {
      var kept := ss[..Allowance(ws, lower, t, max)];
      LimitOfLonger(ws, lower, t, max);
      ClosedIsTidy(ws, kept);
      SentencesOfJoin(ws, Closed(kept));
    }
  }

  /** The sentence names one of the six safety topics. */
  ghost predicate NamesSafety(lower: char -> string, sentence: string) {
    var l := Lower(lower, sentence);
    || Contains(l, "pin") || Contains(l, "otp") || Contains(l, "mật khẩu") || Contains(l, "password")
    || Contains(l, "thẻ") || Contains(l, "bảo mật")
  }

  lemma ReminderNamesSafety(lower: char -> string, sentence: string)
    ensures IsSafetyReminder(lower, sentence) <==> NamesSafety(lower, sentence)
  {
    var l := Lower(lower, sentence);
    assert SAFETY_KEYWORDS[0] == "pin" && SAFETY_KEYWORDS[1] == "otp" && SAFETY_KEYWORDS[2] == "mật khẩu";
    assert SAFETY_KEYWORDS[3] == "password" && SAFETY_KEYWORDS[4] == "thẻ" && SAFETY_KEYWORDS[5] == "bảo mật";
    if NamesSafety(lower, sentence) {
      var k := if Contains(l, "pin") then 0 else if Contains(l, "otp") then 1 else if Contains(l, "mật khẩu") then 2
               else if Contains(l, "password") then 3 else if Contains(l, "thẻ") then 4 else 5;
      assert Contains(l, SAFETY_KEYWORDS[k]);
    }
  }

  lemma AllowanceNamesSafety(ws: Whitespace, lower: char -> string, t: string, max: nat)
    requires |Sentences(ws, t)| > max
    ensures Allowance(ws, lower, t, max) == if NamesSafety(lower, Sentences(ws, t)[max]) then max + 1 else max
  {
    ReminderNamesSafety(lower, Sentences(ws, t)[max]);
  }

  lemma LongerKeepsAllowance(ws: Whitespace, lower: char -> string, t: string, max: nat)
    requires |Sentences(ws, t)| > max
    ensures
      var kept := Sentences(ws, t)[..Allowance(ws, lower, t, max)];
      && Tidy(ws, kept) && Sentences(ws, Limit(ws, lower, t, max)) == Closed(kept)
      && Limit(ws, lower, t, max) == Join(Closed(kept), " ")
  {
    LimitKeepsPrefix(ws, lower, t, max);
  }

  /** The first sentences as they are, but for a full stop after the last one when it lacks its own. */
  ghost predicate IsStartOf(kept: seq<string>, ss: seq<string>) {
    && |kept| <= |ss|
    && (forall i :: 0 <= i < |kept| - 1 ==> kept[i] == ss[i])
    && (kept != [] ==>
          var last := ss[|kept| - 1];
          && last != ""
          && kept[|kept| - 1] == if last[|last| - 1] in {'.', '!', '?'} then last else last + ".")
  }

  lemma ClosedIsStart(ss: seq<string>, n: nat)
    requires n <= |ss| && forall i :: 0 <= i < n ==> ss[..n][i] != ""
    ensures |Closed(ss[..n])| == n && IsStartOf(Closed(ss[..n]), ss)
  {
    assert n > 0 ==> ss[..n][n - 1] == ss[n - 1];
  }

  /** A text that is too long keeps exactly its first `max` sentences, and the next one exactly when that one names a
      safety topic. */
  lemma LimitKeepsExactly(ws: Whitespace, lower: char -> string, t: string, max: nat)
    requires |Sentences(ws, t)| > max
    ensures
      var ss, r := Sentences(ws, t), Limit(ws, lower, t, max);
      var kept := Sentences(ws, r);
      && |kept| == (if NamesSafety(lower, ss[max]) then max + 1 else max)
      && IsStartOf(kept, ss)
      && r == Join(kept, " ")
  {
    AllowanceNamesSafety(ws, lower, t, max);
    LongerKeepsAllowance(ws, lower, t, max);
    ClosedIsStart(Sentences(ws, t), Allowance(ws, lower, t, max));
  }

  /** So the result has all the sentences of a text within the limit, and of a longer one exactly `max`, or one more
      exactly when that one names a safety topic, which it still names then. */
  lemma LimitBounds(ws: Whitespace, lower: char -> string, t: string, max: nat)
    ensures
      var ss, kept := Sentences(ws, t), Sentences(ws, Limit(ws, lower, t, max));
      && |kept| == (if |ss| <= max then |ss| else if NamesSafety(lower, ss[max]) then max + 1 else max)
      && (|kept| <= max || (|kept| == max + 1 && IsSafetyReminder(lower, kept[max])))
  {
    if |Sentences(ws, t)| > max {
      LimitKeepsExactly(ws, lower, t, max);
      ReminderSurvives(lower, Sentences(ws, t)[max]);
    } else {
      LimitKeepsPrefix(ws, lower, t, max);
    }
  }

  lemma ReminderSurvives(lower: char -> string, s: string)
    ensures NamesSafety(lower, s) ==> IsSafetyReminder(lower, s) && IsSafetyReminder(lower, s + ".")
  {
    ReminderNamesSafety(lower, s);
    if NamesSafety(lower, s) {
      SafetySurvivesClosing(lower, s);
    }
  }

  /** A safety reminder that closes a longer reply survives exactly when it is the first sentence beyond
      the limit. */
  lemma ClosingReminderKeptExactlyWhen(ws: Whitespace, lower: char -> string, t: string, max: nat)
    requires |Sentences(ws, t)| > max && IsSafetyReminder(lower, Sentences(ws, t)[|Sentences(ws, t)| - 1])
    ensures |Sentences(ws, Limit(ws, lower, t, max))| == |Sentences(ws, t)| <==> |Sentences(ws, t)| == max + 1
  {
    LimitKeepsPrefix(ws, lower, t, max);
  }

  /** A reply made of closed sentences that fit the allowance is left alone. */
  lemma LimitFixesClosed(ws: Whitespace, lower: char -> string, r: string, ks: seq<string>, max: nat)
    requires Tidy(ws, ks) && Sentences(ws, r) == Closed(ks) && r == Join(Closed(ks), " ")
    requires |ks| <= max || (|ks| == max + 1 && IsSafetyReminder(lower, Closed(ks)[max]))
    ensures Limit(ws, lower, r, max) == r
  {
    if |ks| == max + 1 {
      assert Sentences(ws, r)[..max + 1] == Closed(ks);
      ClosedEnds(ks);
    }
  }

  /** Limiting an already limited reply changes nothing. */
  lemma LimitIdempotent(ws: Whitespace, lower: char -> string, t: string, max: nat)
    ensures Limit(ws, lower, Limit(ws, lower, t, max), max) == Limit(ws, lower, t, max)
  {
    var ss := Sentences(ws, t);
    LimitKeepsPrefix(ws, lower, t, max);
    if |ss| > max {
      var kept := ss[..Allowance(ws, lower, t, max)];
      assert |kept| <= max || (|kept| == max + 1 && IsSafetyReminder(lower, Closed(kept)[max])) by {
        if |kept| == max + 1 {
          SafetySurvivesClosing(lower, ss[max]);
        }
      }
      LimitFixesClosed(ws, lower, Limit(ws, lower, t, max), kept, max);
    }
  }
}
