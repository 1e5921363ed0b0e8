/** The statement splitter of the migration script. */
module SqlSplitter {
  import opened Text

  /** Lines with one more character in front of them. */
  function Prepend(c: char, ls: seq<string>): (r: seq<string>)
    requires ls != []
    ensures r != []
  {
    if c == '\n' then [""] + ls else [[c] + ls[0]] + ls[1..]
  }

  /** The Python expression `s.split("\n")`. */
  function Lines(s: string): (ls: seq<string>)
    ensures ls != []
  {
    if s == "" then [""] else Prepend(s[0], Lines(s[1..]))
  }

  predicate IsComment(ws: Whitespace, l: string) {
    var t := Strip(ws, l);
    |t| >= 2 && t[0] == '-' && t[1] == '-'
  }

  /** Lines the loop does not skip. */
  predicate Kept(ws: Whitespace, l: string) {
    !IsComment(ws, l) && Strip(ws, l) != ""
  }

  predicate EndsStatement(ws: Whitespace, l: string) {
    var t := Strip(ws, l);
    t != "" && t[|t| - 1] == ';'
  }

  function KeptLines(ws: Whitespace, ls: seq<string>): seq<string> {
    if ls == [] then []
    else if Kept(ws, ls[0]) then [ls[0]] + KeptLines(ws, ls[1..]) else KeptLines(ws, ls[1..])
  }

  datatype Grouping = Grouping(groups: seq<seq<string>>, tail: seq<string>)

  /** A grouping with one more line in front, which may end a statement. */
  function WithFirst(l: string, ends: bool, c: Grouping): Grouping {
    if ends then Grouping([[l]] + c.groups, c.tail)
    else if c.groups == [] then Grouping([], [l] + c.tail)
    else Grouping([[l] + c.groups[0]] + c.groups[1..], c.tail)
  }

  /** Lines cut after every one that ends a statement; the tail never ended. */
  function Cut(ws: Whitespace, ls: seq<string>): Grouping {
    if ls == [] then Grouping([], []) else WithFirst(ls[0], EndsStatement(ws, ls[0]), Cut(ws, ls[1..]))
  }

  function Statement(ws: Whitespace, g: seq<string>): string {
    Strip(ws, Join(g, "\n"))
  }

  /** What one finished group sends to the database: nothing for a lone semicolon. */
  function Sent(ws: Whitespace, g: seq<string>): seq<string> {
    var s := Statement(ws, g);
    if s != "" && s != ";" then [s] else []
  }

  function Emitted(ws: Whitespace, groups: seq<seq<string>>): seq<string> {
    Flat(seq(|groups|, i requires 0 <= i < |groups| => Sent(ws, groups[i])))
  }

  /** The statements the script would send to the database. */
  function Statements(ws: Whitespace, sql: string): seq<string> {
    Emitted(ws, Cut(ws, KeptLines(ws, Lines(sql))).groups)
  }

  function Flat(groups: seq<seq<string>>): seq<string> {
    if groups == [] then [] else groups[0] + Flat(groups[1..])
  }

  /** A grouping with one more line at the end. */
  function WithLast(c: Grouping, l: string, ends: bool): Grouping {
    if ends then Grouping(c.groups + [c.tail + [l]], []) else Grouping(c.groups, c.tail + [l])
  }

  lemma WithFirstSnoc(first: string, ends: bool, l: string, ends': bool, c: Grouping)
    ensures WithFirst(first, ends, WithLast(c, l, ends')) == WithLast(WithFirst(first, ends, c), l, ends')
  {
    var d := WithLast(c, l, ends');
    assert [first] + (c.tail + [l]) == ([first] + c.tail) + [l];
    if c.groups != [] {
      assert d.groups[1..] == c.groups[1..] + d.groups[|c.groups|..];
    }
  }

  lemma {:induction false} CutSnoc(ws: Whitespace, ls: seq<string>, l: string)
    ensures Cut(ws, ls + [l]) == WithLast(Cut(ws, ls), l, EndsStatement(ws, l))
  {
    if ls == [] {
      assert ls + [l] == [l];
      assert [l][1..] == [];
      assert Cut(ws, []) == Grouping([], []);
    } else {
      CutSnoc(ws, ls[1..], l);
      assert (ls + [l])[1..] == ls[1..] + [l];
      assert (ls + [l])[0] == ls[0];
      WithFirstSnoc(ls[0], EndsStatement(ws, ls[0]), l, EndsStatement(ws, l), Cut(ws, ls[1..]));
    }
  }

  lemma {:induction false} KeptLinesSnoc(ws: Whitespace, ls: seq<string>, l: string)
    ensures KeptLines(ws, ls + [l]) == KeptLines(ws, ls) + if Kept(ws, l) then [l] else []
  {
    if ls == [] {
      assert ls + [l] == [l];
      assert [l][1..] == [];
    } else {
      KeptLinesSnoc(ws, ls[1..], l);
      assert (ls + [l])[1..] == ls[1..] + [l];
    }
  }

  lemma {:induction false} FlatSnoc(a: seq<seq<string>>, g: seq<string>)
    ensures Flat(a + [g]) == Flat(a) + g
  {
    if a == [] {
      assert a + [g] == [g];
      assert [g][1..] == [];
    } else {
      FlatSnoc(a[1..], g);
      assert (a + [g])[1..] == a[1..] + [g];
      assert a[0] + (Flat(a[1..]) + g) == (a[0] + Flat(a[1..])) + g;
    }
  }

  lemma EmittedSnoc(ws: Whitespace, groups: seq<seq<string>>, g: seq<string>)
    ensures Emitted(ws, groups + [g]) == Emitted(ws, groups) + Sent(ws, g)
  {
    var more := groups + [g];
    var a := seq(|groups|, i requires 0 <= i < |groups| => Sent(ws, groups[i]));
    assert seq(|more|, i requires 0 <= i < |more| => Sent(ws, more[i])) == a + [Sent(ws, g)];
    FlatSnoc(a, Sent(ws, g));
  }

  /** What reading one more line changes. */
  lemma ReadLine(ws: Whitespace, ls: seq<string>, l: string)
    ensures var c := Cut(ws, KeptLines(ws, ls));
            var d := Cut(ws, KeptLines(ws, ls + [l]));
            if !Kept(ws, l) then d == c
            else if EndsStatement(ws, l) then
              d.tail == [] && Emitted(ws, d.groups) == Emitted(ws, c.groups) + Sent(ws, c.tail + [l])
            else d == Grouping(c.groups, c.tail + [l])
  {
    var c := Cut(ws, KeptLines(ws, ls));
    KeptLinesSnoc(ws, ls, l);
    if Kept(ws, l) {
      CutSnoc(ws, KeptLines(ws, ls), l);
      EmittedSnoc(ws, c.groups, c.tail + [l]);
    } else {
      assert KeptLines(ws, ls) + [] == KeptLines(ws, ls);
    }
  }

  /** The splitting loop. */
  method SplitStatements(ws: Whitespace, sql: string) returns (statements: seq<string>)
    ensures statements == Statements(ws, sql)
  {
    statements := [];
    var current: seq<string> := [];
    var lines := Lines(sql);
    ghost var read := Grouping([], []);
    for n := 0 to |lines|
      invariant read == Cut(ws, KeptLines(ws, lines[..n]))
      invariant statements == Emitted(ws, read.groups) && current == read.tail
    {
      var line := lines[n];
      ReadLine(ws, lines[..n], line);
      assert lines[..n + 1] == lines[..n] + [line];
      read := Cut(ws, KeptLines(ws, lines[..n] + [line]));
      var stripped := Strip(ws, line);
      if IsComment(ws, line) || stripped == "" {
        continue;
      }
      current := current + [line];
      if EndsStatement(ws, line) {
        var stmt := Strip(ws, Join(current, "\n"));
        if stmt != "" && stmt != ";" {
          statements := statements + [stmt];
        }
        current := [];
      }
    }
    assert lines[..|lines|] == lines;
  }

  /** A group of lines as the splitter forms them: only its last line ends a statement. */
  ghost predicate Group(ws: Whitespace, g: seq<string>) {
    && g != []
    && EndsStatement(ws, g[|g| - 1])
    && forall i :: 0 <= i < |g| - 1 ==> !EndsStatement(ws, g[i])
  }

  ghost predicate WellCut(ws: Whitespace, c: Grouping) {
    && (forall i :: 0 <= i < |c.groups| ==> Group(ws, c.groups[i]))
    && (forall i :: 0 <= i < |c.tail| ==> !EndsStatement(ws, c.tail[i]))
  }

  lemma {:induction false} CutIsWell(ws: Whitespace, ls: seq<string>)
    ensures WellCut(ws, Cut(ws, ls))
  {
    if ls != [] {
      CutIsWell(ws, ls[1..]);
      var l, c := ls[0], Cut(ws, ls[1..]);
      if EndsStatement(ws, l) {
        assert Group(ws, [l]);
      } else if c.groups != [] {
        assert Group(ws, [l] + c.groups[0]);
      }
    }
  }

  /** Nothing is lost before the filter: groups and tail are the lines in order. */
  lemma {:induction false} CutConserves(ws: Whitespace, ls: seq<string>)
    ensures Flat(Cut(ws, ls).groups) + Cut(ws, ls).tail == ls
  {
    if ls != [] {
      CutConserves(ws, ls[1..]);
      var c := Cut(ws, ls[1..]);
      assert ls == [ls[0]] + ls[1..];
      WithFirstConserves(ls[0], EndsStatement(ws, ls[0]), c);
    }
  }

  lemma WithFirstConserves(l: string, ends: bool, c: Grouping)
    ensures
      var d := WithFirst(l, ends, c);
      Flat(d.groups) + d.tail == [l] + (Flat(c.groups) + c.tail)
  {
    if ends {
      FlatCons([l], c.groups);
      Regroup([l], Flat(c.groups), c.tail);
    } else if c.groups != [] {
      var rest := Flat(c.groups[1..]);
      FlatCons([l] + c.groups[0], c.groups[1..]);
      Regroup([l], c.groups[0], rest);
      Regroup([l], c.groups[0] + rest, c.tail);
    }
  }

  lemma Regroup(a: seq<string>, b: seq<string>, c: seq<string>)
    ensures (a + b) + c == a + (b + c)
  {
  }

  lemma FlatCons(g: seq<string>, groups: seq<seq<string>>)
    ensures Flat([g] + groups) == g + Flat(groups)
  {
    assert ([g] + groups)[1..] == groups;
  }

  lemma CutCons(ws: Whitespace, l: string, rest: seq<string>)
    ensures Cut(ws, [l] + rest) == WithFirst(l, EndsStatement(ws, l), Cut(ws, rest))
  {
    assert ([l] + rest)[1..] == rest;
  }

  lemma {:induction false} CutConcatGroup(ws: Whitespace, g: seq<string>, rest: seq<string>)
    requires Group(ws, g)
    ensures Cut(ws, g + rest) == Grouping([g] + Cut(ws, rest).groups, Cut(ws, rest).tail)
  {
    CutCons(ws, g[0], g[1..] + rest);
    assert g + rest == [g[0]] + (g[1..] + rest) && [g[0]] + g[1..] == g;
    if |g| > 1 {
      CutConcatGroup(ws, g[1..], rest);
      LongerGroup(g[0], g[1..], Cut(ws, rest));
    } else {
      assert g[1..] + rest == rest;
    }
  }

  lemma LongerGroup(l: string, g: seq<string>, c: Grouping)
    ensures WithFirst(l, false, Grouping([g] + c.groups, c.tail)) == Grouping([[l] + g] + c.groups, c.tail)
  {
    assert ([g] + c.groups)[1..] == c.groups;
  }

  /** There is only one way to cut lines into groups. */
  lemma {:induction false} CutUnique(ws: Whitespace, c: Grouping)
    requires WellCut(ws, c)
    ensures Cut(ws, Flat(c.groups) + c.tail) == c
    decreases |c.groups|
  {
    if c.groups == [] {
      TailNeverCut(ws, c.tail);
      assert Flat(c.groups) + c.tail == c.tail;
    } else {
      CutUnique(ws, Grouping(c.groups[1..], c.tail));
      CutConcatGroup(ws, c.groups[0], Flat(c.groups[1..]) + c.tail);
      assert Flat(c.groups) + c.tail == c.groups[0] + (Flat(c.groups[1..]) + c.tail);
    }
  }

  lemma {:induction false} TailNeverCut(ws: Whitespace, tail: seq<string>)
    requires forall i :: 0 <= i < |tail| ==> !EndsStatement(ws, tail[i])
    ensures Cut(ws, tail) == Grouping([], tail)
  {
    if tail != [] {
      TailNeverCut(ws, tail[1..]);
    }
  }

  /** An unfinished last statement is dropped without a word: every kept line belongs to a group
      exactly when there is none or the last one ends a statement. */
  lemma TailDroppedExactlyWhen(ws: Whitespace, ls: seq<string>)
    ensures Cut(ws, ls).tail == [] <==> ls == [] || EndsStatement(ws, ls[|ls| - 1])
  {
    if ls != [] {
      CutSnoc(ws, ls[..|ls| - 1], ls[|ls| - 1]);
      assert ls[..|ls| - 1] + [ls[|ls| - 1]] == ls;
    }
  }

  ghost predicate HasNewline(l: string) {
    exists i :: 0 <= i < |l| && l[i] == '\n'
  }

  /** The lines of a text never hold a newline, and the kept ones are not blank. */
  ghost predicate SourceLine(ws: Whitespace, l: string) {
    !HasNewline(l) && Kept(ws, l)
  }

  ghost predicate SourceLines(ws: Whitespace, ls: seq<string>) {
    forall i :: 0 <= i < |ls| ==> SourceLine(ws, ls[i])
  }

  lemma {:induction false} LinesHaveNoNewline(s: string)
    ensures forall i :: 0 <= i < |Lines(s)| ==> !HasNewline(Lines(s)[i])
  {
    if s != "" {
      LinesHaveNoNewline(s[1..]);
    }
  }

  lemma {:induction false} KeptLinesAreSource(ws: Whitespace, ls: seq<string>)
    requires forall i :: 0 <= i < |ls| ==> !HasNewline(ls[i])
    ensures SourceLines(ws, KeptLines(ws, ls))
  {
    if ls != [] {
      KeptLinesAreSource(ws, ls[1..]);
    }
  }

  lemma {:induction false} KeptLinesOfSource(ws: Whitespace, ls: seq<string>)
    requires SourceLines(ws, ls)
    ensures KeptLines(ws, ls) == ls
  {
    if ls != [] {
      KeptLinesOfSource(ws, ls[1..]);
    }
  }

  lemma {:induction false} LinesOfOne(l: string)
    requires !HasNewline(l)
    ensures Lines(l) == [l]
  {
    if l != "" {
      forall i | 0 <= i < |l[1..]| ensures l[1..][i] != '\n' {
        assert l[1..][i] == l[i + 1];
      }
      assert l[0] != '\n';
      LinesOfOne(l[1..]);
      assert [l[0]] + l[1..] == l;
    }
  }

  lemma PrependConcat(c: char, x: seq<string>, y: seq<string>)
    requires x != []
    ensures Prepend(c, x + y) == Prepend(c, x) + y
  {
  }

  lemma {:induction false} LinesConcat(a: string, b: string)
    ensures Lines(a + "\n" + b) == Lines(a) + Lines(b)
  {
    var t := a + "\n" + b;
    if a == "" {
      assert t == ['\n'] + b;
      assert t[1..] == b;
    } else {
      LinesConcat(a[1..], b);
      assert t[1..] == a[1..] + "\n" + b;
      PrependConcat(a[0], Lines(a[1..]), Lines(b));
    }
  }

  function LinesOfAll(parts: seq<string>): seq<string> {
    if parts == [] then [] else Lines(parts[0]) + LinesOfAll(parts[1..])
  }

  lemma {:induction false} LinesOfJoin(parts: seq<string>)
    requires parts != []
    ensures Lines(Join(parts, "\n")) == LinesOfAll(parts)
  {
    if |parts| > 1 {
      LinesOfJoin(parts[1..]);
      LinesConcat(parts[0], Join(parts[1..], "\n"));
    } else {
      assert LinesOfAll(parts[1..]) == [];
    }
  }

  lemma {:induction false} LinesOfAllSingle(ls: seq<string>)
    requires forall i :: 0 <= i < |ls| ==> !HasNewline(ls[i])
    ensures LinesOfAll(ls) == ls
  {
    if ls != [] {
      LinesOfOne(ls[0]);
      LinesOfAllSingle(ls[1..]);
    }
  }

  lemma {:induction false} LStripConcat(ws: Whitespace, a: string, x: string)
    requires !IsBlank(ws, a)
    ensures LStrip(ws, a + x) == LStrip(ws, a) + x
  {
    assert (a + x)[0] == a[0];
    if a[0] in ws {
      assert a == [a[0]] + a[1..];
      LStripConcat(ws, a[1..], x);
      assert (a + x)[1..] == a[1..] + x;
      assert LStrip(ws, a + x) == LStrip(ws, a[1..] + x);
    }
  }

  lemma {:induction false} RStripConcat(ws: Whitespace, x: string, b: string)
    requires !IsBlank(ws, b)
    ensures RStrip(ws, x + b) == x + RStrip(ws, b)
  {
    var last := |b| - 1;
    assert (x + b)[|x + b| - 1] == b[last];
    if b[last] in ws {
      assert b == b[..last] + [b[last]];
      RStripConcat(ws, x, b[..last]);
      assert (x + b)[..|x + b| - 1] == x + b[..last];
      assert RStrip(ws, x + b) == RStrip(ws, x + b[..last]);
    } else {
      assert RStrip(ws, x + b) == x + b;
    }
  }

  lemma {:induction false} RStripOfRStrip(ws: Whitespace, l: string)
    ensures RStrip(ws, RStrip(ws, l)) == RStrip(ws, l)
  {
    assert Trail(ws, RStrip(ws, l)) == 0;
  }

  lemma {:induction false} RStripBlankTail(ws: Whitespace, x: string, w: string)
    requires x != "" && x[|x| - 1] !in ws && IsBlank(ws, w)
    ensures RStrip(ws, x + w) == x
  {
    if w == "" {
      assert x + w == x;
    } else {
      var v := w[..|w| - 1];
      RStripBlankTail(ws, x, v);
      assert (x + w)[..|x + w| - 1] == x + v;
      assert RStrip(ws, x + w) == RStrip(ws, x + v);
    }
  }

  /** Stripping both sides may start with either side. */
  lemma StripCommutes(ws: Whitespace, l: string)
    ensures Strip(ws, l) == LStrip(ws, RStrip(ws, l))
  {
    StripTrims(ws, l);
    var r := RStrip(ws, l);
    var w := l[|r|..];
    assert l == r + w;
    if IsBlank(ws, r) {
      assert LStrip(ws, r) == "";
    } else {
      LStripConcat(ws, r, w);
      RStripBlankTail(ws, LStrip(ws, r), w);
    }
  }

  /** Stripping one side first does not change the fully stripped line. */
  lemma StripAfterHalf(ws: Whitespace, l: string)
    ensures Strip(ws, LStrip(ws, l)) == Strip(ws, l)
    ensures Strip(ws, RStrip(ws, l)) == Strip(ws, l)
    ensures Strip(ws, Strip(ws, l)) == Strip(ws, l)
  {
    StripTrims(ws, l);
    StripOfTrimmed(ws, Strip(ws, l));
    assert Lead(ws, LStrip(ws, l)) == 0;
    StripCommutes(ws, l);
    StripCommutes(ws, RStrip(ws, l));
    RStripOfRStrip(ws, l);
  }

  /** A group without the leading whitespace of its first line. */
  function NeatStart(ws: Whitespace, g: seq<string>): seq<string>
    requires g != []
  {
    [LStrip(ws, g[0])] + g[1..]
  }

  /** A group without the trailing whitespace of its last line. */
  function NeatEnd(ws: Whitespace, g: seq<string>): seq<string>
    requires g != []
  {
    g[..|g| - 1] + [RStrip(ws, g[|g| - 1])]
  }

  function Neat(ws: Whitespace, g: seq<string>): seq<string>
    requires g != []
  {
    NeatEnd(ws, NeatStart(ws, g))
  }

  lemma LStripJoin(ws: Whitespace, g: seq<string>)
    requires g != [] && !IsBlank(ws, g[0])
    ensures LStrip(ws, Join(g, "\n")) == Join(NeatStart(ws, g), "\n")
  {
    if |g| > 1 {
      var h := NeatStart(ws, g);
      var t := Join(g[1..], "\n");
      var x := "\n" + t;
      LStripConcat(ws, g[0], x);
      assert Join(g, "\n") == g[0] + "\n" + t == g[0] + x;
      assert h[1..] == g[1..];
      assert Join(h, "\n") == h[0] + "\n" + t == h[0] + x;
    }
  }

  lemma {:induction false} RStripJoin(ws: Whitespace, g: seq<string>)
    requires g != [] && !IsBlank(ws, g[|g| - 1])
    ensures RStrip(ws, Join(g, "\n")) == Join(NeatEnd(ws, g), "\n")
  {
    var h := NeatEnd(ws, g);
    if |g| > 1 {
      RStripJoin(ws, g[1..]);
      assert h[1..] == NeatEnd(ws, g[1..]);
      var x := g[0] + "\n";
      var t := Join(g[1..], "\n");
      JoinNotBlank(ws, g[1..]);
      RStripConcat(ws, x, t);
      assert Join(g, "\n") == x + t;
      assert Join(h, "\n") == x + Join(h[1..], "\n");
    }
  }

  lemma {:induction false} JoinNotBlank(ws: Whitespace, g: seq<string>)
    requires g != [] && !IsBlank(ws, g[|g| - 1])
    ensures !IsBlank(ws, Join(g, "\n"))
  {
    if |g| > 1 {
      JoinNotBlank(ws, g[1..]);
      var x := g[0] + "\n";
      var t := Join(g[1..], "\n");
      var i :| 0 <= i < |t| && t[i] !in ws;
      assert Join(g, "\n") == x + t;
      assert (x + t)[|x| + i] == t[i];
    }
  }

  lemma KeptIsNotBlank(ws: Whitespace, l: string)
    requires Kept(ws, l)
    ensures !IsBlank(ws, l) && !IsBlank(ws, LStrip(ws, l))
  {
    StripTrims(ws, l);
    StripAfterHalf(ws, l);
    StripTrims(ws, LStrip(ws, l));
  }

  /** The text of a group is its neat lines joined. */
  lemma StatementIsNeat(ws: Whitespace, g: seq<string>)
    requires g != [] && SourceLines(ws, g)
    ensures Statement(ws, g) == Join(Neat(ws, g), "\n")
  {
    KeptIsNotBlank(ws, g[0]);
    KeptIsNotBlank(ws, g[|g| - 1]);
    LStripJoin(ws, g);
    var h := NeatStart(ws, g);
    assert |g| > 1 ==> h[|h| - 1] == g[|g| - 1];
    RStripJoin(ws, h);
  }

  lemma HalfStripHasNoNewline(ws: Whitespace, l: string)
    requires !HasNewline(l)
    ensures !HasNewline(LStrip(ws, l)) && !HasNewline(RStrip(ws, l))
  {
  }

  lemma HalfStripKeepsLine(ws: Whitespace, l: string)
    requires SourceLine(ws, l)
    ensures SourceLine(ws, LStrip(ws, l)) && EndsStatement(ws, LStrip(ws, l)) == EndsStatement(ws, l)
    ensures SourceLine(ws, RStrip(ws, l)) && EndsStatement(ws, RStrip(ws, l)) == EndsStatement(ws, l)
  {
    HalfStripHasNoNewline(ws, l);
    StripAfterHalf(ws, l);
  }

  lemma GroupWithLine(ws: Whitespace, g: seq<string>, k: nat, l: string)
    requires SourceLines(ws, g) && Group(ws, g) && k < |g|
    requires SourceLine(ws, l) && EndsStatement(ws, l) == EndsStatement(ws, g[k])
    ensures SourceLines(ws, g[k := l]) && Group(ws, g[k := l])
  {
  }

  lemma NeatStartKeepsGroup(ws: Whitespace, g: seq<string>)
    requires SourceLines(ws, g) && Group(ws, g)
    ensures SourceLines(ws, NeatStart(ws, g)) && Group(ws, NeatStart(ws, g))
  {
    HalfStripKeepsLine(ws, g[0]);
    GroupWithLine(ws, g, 0, LStrip(ws, g[0]));
    assert NeatStart(ws, g) == g[0 := LStrip(ws, g[0])];
  }

  lemma NeatEndKeepsGroup(ws: Whitespace, g: seq<string>)
    requires SourceLines(ws, g) && Group(ws, g)
    ensures SourceLines(ws, NeatEnd(ws, g)) && Group(ws, NeatEnd(ws, g))
  {
    var k := |g| - 1;
    HalfStripKeepsLine(ws, g[k]);
    GroupWithLine(ws, g, k, RStrip(ws, g[k]));
    assert NeatEnd(ws, g) == g[k := RStrip(ws, g[k])];
  }

  /** Neatening a group keeps it a group of kept lines. */
  lemma NeatKeepsGroup(ws: Whitespace, g: seq<string>)
    requires SourceLines(ws, g) && Group(ws, g)
    ensures SourceLines(ws, Neat(ws, g)) && Group(ws, Neat(ws, g))
  {
    NeatStartKeepsGroup(ws, g);
    NeatEndKeepsGroup(ws, NeatStart(ws, g));
  }

  /** The text of a neat group is the text of the group. */
  lemma StatementOfNeat(ws: Whitespace, g: seq<string>)
    requires SourceLines(ws, g) && Group(ws, g)
    ensures Statement(ws, Neat(ws, g)) == Statement(ws, g)
    ensures Lines(Statement(ws, g)) == Neat(ws, g)
  {
    var n := Neat(ws, g);
    NeatKeepsGroup(ws, g);
    StatementIsNeat(ws, g);
    StripAfterHalf(ws, Join(g, "\n"));
    LinesOfJoin(n);
    LinesOfAllSingle(n);
  }

  lemma LoneLineSent(ws: Whitespace, g: seq<string>)
    requires SourceLines(ws, g) && Group(ws, g) && |g| == 1
    ensures Sent(ws, g) == [] <==> Strip(ws, g[0]) == ";"
  {
    StatementIsNeat(ws, g);
    StripTrims(ws, g[0]);
    assert Kept(ws, g[0]);
    assert g == [g[0]];
  }

  lemma LongerGroupSent(ws: Whitespace, g: seq<string>)
    requires SourceLines(ws, g) && Group(ws, g) && |g| > 1
    ensures Sent(ws, g) != []
  {
    NeatKeepsGroup(ws, g);
    StatementIsNeat(ws, g);
    var n := Neat(ws, g);
    assert n[0] != "" by {
      assert Kept(ws, n[0]);
      KeptIsNotBlank(ws, n[0]);
    }
    assert Join(n, "\n") == n[0] + "\n" + Join(n[1..], "\n");
    assert |Statement(ws, g)| > 1;
  }

  /** Only a lone semicolon is dropped by the filter. */
  lemma SentExactlyWhen(ws: Whitespace, g: seq<string>)
    requires SourceLines(ws, g) && Group(ws, g)
    ensures Sent(ws, g) == [] <==> |g| == 1 && Strip(ws, g[0]) == ";"
  {
    if |g| == 1 {
      LoneLineSent(ws, g);
    } else {
      LongerGroupSent(ws, g);
    }
  }

  /** The neat groups that reach the database. */
  function NeatSent(ws: Whitespace, groups: seq<seq<string>>): seq<seq<string>> {
    if groups == [] then []
    else if groups[0] == [] || Sent(ws, groups[0]) == [] then NeatSent(ws, groups[1..])
    else [Neat(ws, groups[0])] + NeatSent(ws, groups[1..])
  }

  lemma EmittedCons(ws: Whitespace, g: seq<string>, groups: seq<seq<string>>)
    ensures Emitted(ws, [g] + groups) == Sent(ws, g) + Emitted(ws, groups)
  {
    var more := [g] + groups;
    var a := seq(|groups|, i requires 0 <= i < |groups| => Sent(ws, groups[i]));
    assert seq(|more|, i requires 0 <= i < |more| => Sent(ws, more[i])) == [Sent(ws, g)] + a;
    FlatCons(Sent(ws, g), a);
  }

  ghost predicate SourceGroups(ws: Whitespace, groups: seq<seq<string>>) {
    forall i :: 0 <= i < |groups| ==> Group(ws, groups[i]) && SourceLines(ws, groups[i])
  }

  /** What neatening does to one group that is sent. */
  lemma NeatGroupSent(ws: Whitespace, g: seq<string>)
    requires Group(ws, g) && SourceLines(ws, g) && Sent(ws, g) != []
    ensures Sent(ws, Neat(ws, g)) == Sent(ws, g) == [Statement(ws, g)]
    ensures Lines(Statement(ws, g)) == Neat(ws, g)
    ensures Group(ws, Neat(ws, g)) && SourceLines(ws, Neat(ws, g))
  {
    StatementOfNeat(ws, g);
    NeatKeepsGroup(ws, g);
  }

  /** The neat sent groups send what the groups send, and are its lines. */
  ghost predicate Agrees(ws: Whitespace, neat: seq<seq<string>>, groups: seq<seq<string>>) {
    && SourceGroups(ws, neat)
    && Emitted(ws, neat) == Emitted(ws, groups)
    && LinesOfAll(Emitted(ws, groups)) == Flat(neat)
  }

  lemma AgreesDrop(ws: Whitespace, neat: seq<seq<string>>, g: seq<string>, rest: seq<seq<string>>)
    requires Agrees(ws, neat, rest) && Sent(ws, g) == []
    ensures Agrees(ws, neat, [g] + rest)
  {
    EmittedCons(ws, g, rest);
    assert Emitted(ws, [g] + rest) == Emitted(ws, rest);
  }

  lemma AgreesKeep(ws: Whitespace, neat: seq<seq<string>>, g: seq<string>, rest: seq<seq<string>>)
    requires Agrees(ws, neat, rest) && Sent(ws, g) != []
    requires Group(ws, g) && SourceLines(ws, g)
    ensures Agrees(ws, [Neat(ws, g)] + neat, [g] + rest)
  {
    NeatGroupSent(ws, g);
    EmittedCons(ws, g, rest);
    EmittedCons(ws, Neat(ws, g), neat);
    FlatCons(Neat(ws, g), neat);
    LinesOfAllCons(Statement(ws, g), Emitted(ws, rest));
  }

  lemma {:induction false} NeatSentAgrees(ws: Whitespace, groups: seq<seq<string>>)
    requires SourceGroups(ws, groups)
    ensures Agrees(ws, NeatSent(ws, groups), groups)
  {
    if groups != [] {
      var g, rest := groups[0], groups[1..];
      NeatSentAgrees(ws, rest);
      assert groups == [g] + rest;
      if Sent(ws, g) == [] {
        AgreesDrop(ws, NeatSent(ws, rest), g, rest);
      } else {
        AgreesKeep(ws, NeatSent(ws, rest), g, rest);
      }
    } else {
      NothingAgrees(ws);
    }
  }

  lemma NothingAgrees(ws: Whitespace)
    ensures Agrees(ws, [], [])
  {
  }

  lemma LinesOfAllCons(s: string, rest: seq<string>)
    ensures LinesOfAll([s] + rest) == Lines(s) + LinesOfAll(rest)
  {
    assert ([s] + rest)[1..] == rest;
  }

  lemma {:induction false} GroupsAreSource(ws: Whitespace, groups: seq<seq<string>>, tail: seq<string>)
    requires SourceLines(ws, Flat(groups) + tail)
    ensures forall i :: 0 <= i < |groups| ==> SourceLines(ws, groups[i])
  {
    if groups != [] {
      var all := Flat(groups) + tail;
      var rest := Flat(groups[1..]) + tail;
      assert all == groups[0] + rest;
      forall i | 0 <= i < |groups[0]| ensures SourceLine(ws, groups[0][i]) {
        assert all[i] == groups[0][i];
      }
      forall i | 0 <= i < |rest| ensures SourceLine(ws, rest[i]) {
        assert all[|groups[0]| + i] == rest[i];
      }
      GroupsAreSource(ws, groups[1..], tail);
    }
  }

  lemma {:induction false} FlatIsSource(ws: Whitespace, groups: seq<seq<string>>)
    requires SourceGroups(ws, groups)
    ensures SourceLines(ws, Flat(groups))
  {
    if groups != [] {
      FlatIsSource(ws, groups[1..]);
    }
  }

  /** What becomes of every line of a script: the kept lines, in order, are the groups followed by
      the unfinished tail; each group is sent whole, except a lone semicolon. */
  lemma SplitterLosesNothing(ws: Whitespace, sql: string)
    ensures var kept := KeptLines(ws, Lines(sql));
            var c := Cut(ws, kept);
            && Flat(c.groups) + c.tail == kept
            && SourceGroups(ws, c.groups)
            && Statements(ws, sql) == Emitted(ws, c.groups)
            && (forall i :: 0 <= i < |c.groups| ==>
                  (Sent(ws, c.groups[i]) == [] <==> |c.groups[i]| == 1 && Strip(ws, c.groups[i][0]) == ";"))
            && (c.tail == [] <==> kept == [] || EndsStatement(ws, kept[|kept| - 1]))
  {
    var kept := KeptLines(ws, Lines(sql));
    var c := Cut(ws, kept);
    LinesHaveNoNewline(sql);
    KeptLinesAreSource(ws, Lines(sql));
    CutConserves(ws, kept);
    CutIsWell(ws, kept);
    GroupsAreSource(ws, c.groups, c.tail);
    forall i | 0 <= i < |c.groups|
      ensures Sent(ws, c.groups[i]) == [] <==> |c.groups[i]| == 1 && Strip(ws, c.groups[i][0]) == ";"
    {
      SentExactlyWhen(ws, c.groups[i]);
    }
    TailDroppedExactlyWhen(ws, kept);
  }

  // ---- What is sent, in plain terms ----

  /** The line says something, and not in a comment. */
  predicate Says(ws: Whitespace, l: string) {
    Strip(ws, l) != "" && !("--" <= Strip(ws, l))
  }

  /** The line ends with a semicolon, but for whitespace. */
  predicate Closes(ws: Whitespace, l: string) {
    var t := Strip(ws, l);
    |t| > 0 && t[|t| - 1] == ';'
  }

  lemma KeptSays(ws: Whitespace, l: string)
    ensures Kept(ws, l) <==> Says(ws, l)
  {
    var t := Strip(ws, l);
    if |t| >= 2 {
      assert t[..2] == [t[0], t[1]];
    }
  }

  /** Every line that is neither blank nor a comment is kept as often as it occurs, and no other. */
  lemma {:induction false} KeptLinesExactlyWhen(ws: Whitespace, ls: seq<string>, l: string)
    ensures multiset(KeptLines(ws, ls))[l] == if Says(ws, l) then multiset(ls)[l] else 0
  {
    if ls != [] {
      KeptLinesExactlyWhen(ws, ls[1..], l);
      KeptSays(ws, ls[0]);
      assert ls == [ls[0]] + ls[1..];
    }
  }

  lemma {:induction false} EmittedFromGroup(ws: Whitespace, groups: seq<seq<string>>, k: nat)
    requires k < |Emitted(ws, groups)|
    ensures exists j :: 0 <= j < |groups| && Sent(ws, groups[j]) == [Emitted(ws, groups)[k]]
  {
    if groups != [] {
      var g, rest := groups[0], groups[1..];
      assert groups == [g] + rest;
      EmittedCons(ws, g, rest);
      var n := |Sent(ws, g)|;
      if k < n {
        assert Sent(ws, groups[0]) == [Emitted(ws, groups)[k]];
      } else {
        EmittedFromGroup(ws, rest, k - n);
        var j :| 0 <= j < |rest| && Sent(ws, rest[j]) == [Emitted(ws, rest)[k - n]];
        assert groups[j + 1] == rest[j];
      }
    }
  }

  /** Every statement sent is more than a semicolon, has no blank line and no comment line, and has a semicolon at the
      end of its last line and of no other. */
  lemma StatementLines(ws: Whitespace, sql: string, k: nat, i: nat)
    requires k < |Statements(ws, sql)| && i < |Lines(Statements(ws, sql)[k])|
    ensures
      var statement := Statements(ws, sql)[k];
      var lines := Lines(statement);
      && statement != ";" && Says(ws, lines[i])
      && (Closes(ws, lines[i]) <==> i == |lines| - 1)
  {
    SplitterLosesNothing(ws, sql);
    var c := Cut(ws, KeptLines(ws, Lines(sql)));
    EmittedFromGroup(ws, c.groups, k);
    var j :| 0 <= j < |c.groups| && Sent(ws, c.groups[j]) == [Emitted(ws, c.groups)[k]];
    NeatGroupSent(ws, c.groups[j]);
    var neat := Neat(ws, c.groups[j]);
    assert Kept(ws, neat[i]) && (EndsStatement(ws, neat[i]) <==> i == |neat| - 1);
    KeptSays(ws, neat[i]);
  }

  /** Something is left unsent at the end exactly when the last line that says something has no semicolon there. */
  lemma UnfinishedExactlyWhen(ws: Whitespace, sql: string)
    ensures
      var kept := KeptLines(ws, Lines(sql));
      Cut(ws, kept).tail != [] <==> kept != [] && !Closes(ws, kept[|kept| - 1])
  {
    TailDroppedExactlyWhen(ws, KeptLines(ws, Lines(sql)));
  }

  /** Splitting the statements joined by newlines gives the same statements. */
  lemma SplitAgain(ws: Whitespace, sql: string)
    ensures Statements(ws, Join(Statements(ws, sql), "\n")) == Statements(ws, sql)
  {
    SplitterLosesNothing(ws, sql);
    var c := Cut(ws, KeptLines(ws, Lines(sql)));
    var stmts := Statements(ws, sql);
    var neat := NeatSent(ws, c.groups);
    NeatSentAgrees(ws, c.groups);
    FlatIsSource(ws, neat);
    KeptLinesOfSource(ws, Flat(neat));
    CutUnique(ws, Grouping(neat, []));
    assert Flat(neat) + [] == Flat(neat);
    if stmts == [] {
      BlankHasNoStatement(ws);
    } else {
      LinesOfJoin(stmts);
    }
  }

  lemma BlankHasNoStatement(ws: Whitespace)
    ensures Statements(ws, "") == []
  {
    assert !Kept(ws, "");
    assert [""][1..] == [];
    assert KeptLines(ws, Lines("")) == [];
  }
}
