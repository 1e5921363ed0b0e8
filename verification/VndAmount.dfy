/** Writing an amount of dong for the customer and reading a claimed amount back. */
module VndAmount {
  import opened Options
  import opened Text

  /** What a claim may hold: nothing, a number, or text. */
  datatype Claimed = Absent | Number(n: int) | Words(s: string)

  /** The Python expression `s.replace(pattern, sub)`. */
  function Replace(s: string, pattern: string, sub: string): string
    requires pattern != ""
    decreases |s|
  {
    if |s| < |pattern| then s
    else if s[..|pattern|] == pattern then sub + Replace(s[|pattern|..], pattern, sub)
    else [s[0]] + Replace(s[1..], pattern, sub)
  }

  predicate IsDigit(c: char) {
    '0' <= c <= '9'
  }

  predicate AllDigits(s: string) {
    forall i :: 0 <= i < |s| ==> IsDigit(s[i])
  }

  /** The Python expression `int(s)` for decimal digits. */
  function Value(s: string): nat
    requires AllDigits(s)
  {
    if s == "" then 0 else 10 * Value(s[..|s| - 1]) + (s[|s| - 1] as int - '0' as int)
  }

  function Digit(d: nat): char
    requires d < 10
  {
    '0' + d as char
  }

  /** Decimal digits of a number. */
  function Digits(n: nat): string {
    if n < 10 then [Digit(n)] else Digits(n / 10) + [Digit(n % 10)]
  }

  function Pad3(n: nat): string
    requires n < 1000
  {
    [Digit(n / 100), Digit(n / 10 % 10), Digit(n % 10)]
  }

  /** The Python format `{:,}`: groups of three digits from the right. */
  function Commas(n: int): string
    decreases n < 0, if n < 0 then -n else n
  {
    if n < 0 then "-" + Commas(-n)
    else if n < 1000 then Digits(n)
    else Commas(n / 1000) + "," + Pad3(n % 1000)
  }

  /** The reply form of an amount, such as 500.000đ. */
  function Format(n: int): string {
    Replace(Commas(n) + "đ", ",", ".")
  }

  /** The text an amount claim is reduced to before it is read as a number. */
  function Cleaned(ws: Whitespace, s: string): string {
    var a := Replace(Strip(ws, s), ".", "");
    var b := Replace(a, ",", "");
    var c := Replace(b, "đ", "");
    var d := Replace(c, "vnd", "");
    var e := Replace(d, "k", "000");
    Replace(e, "K", "000")
  }

  /** Reads a claimed amount; `viaFloat` stands for the floating-point branch. */
  function Normalize(ws: Whitespace, viaFloat: string -> Option<int>, claim: Claimed): Option<int> {
    match claim
    case Absent => None
    case Number(n) => Some(n)
    case Words(s) =>
      var cleaned := Cleaned(ws, s);
      if cleaned != "" && AllDigits(cleaned) then Some(Value(cleaned)) else viaFloat(cleaned)
  }

  /** The characters of s that differ from c. */
  function Without(s: string, c: char): string {
    if s == "" then "" else (if s[0] == c then "" else [s[0]]) + Without(s[1..], c)
  }

  /** The digits of s, in order. */
  function DigitsOf(s: string): (r: string)
    ensures AllDigits(r)
  {
    if s == "" then "" else (if IsDigit(s[0]) then [s[0]] else "") + DigitsOf(s[1..])
  }

  lemma {:induction false} ReplaceChar(s: string, c: char)
    ensures Replace(s, [c], "") == Without(s, c)
  {
    if s != "" {
      ReplaceChar(s[1..], c);
      assert s[..1] == [s[0]];
    }
  }

  lemma {:induction false} ReplaceMissing(s: string, pattern: string, sub: string)
    requires pattern != "" && pattern[0] !in s
    ensures Replace(s, pattern, sub) == s
  {
    if |s| >= |pattern| {
      ReplaceMissing(s[1..], pattern, sub);
      assert s[..|pattern|][0] == s[0];
    }
  }

  /** A claim written with digits and the marks the cleaning removes. */
  ghost predicate Written(s: string) {
    forall i :: 0 <= i < |s| ==> IsDigit(s[i]) || s[i] == '.' || s[i] == ',' || s[i] == 'đ'
  }

  lemma WithoutCons(x: char, s: string, c: char)
    ensures Without([x] + s, c) == (if x == c then "" else [x]) + Without(s, c)
  {
    assert ([x] + s)[1..] == s;
  }

  lemma {:induction false} WithoutMarks(s: string)
    requires Written(s)
    ensures Without(Without(Without(s, '.'), ','), 'đ') == DigitsOf(s)
  {
    if s != "" {
      WithoutMarks(s[1..]);
      var a := Without(s[1..], '.');
      WithoutCons(s[0], a, ',');
      WithoutCons(s[0], Without(a, ','), 'đ');
      assert "" + a == a && "" + Without(a, ',') == Without(a, ',');
    }
  }

  lemma {:induction false} WithoutAppend(s: string, t: string, c: char)
    ensures Without(s + t, c) == Without(s, c) + Without(t, c)
  {
    if s == "" {
      assert s + t == t;
    } else {
      WithoutAppend(s[1..], t, c);
      WithoutCons(s[0], s[1..], c);
      WithoutCons(s[0], s[1..] + t, c);
      assert s == [s[0]] + s[1..] && s + t == [s[0]] + (s[1..] + t);
    }
  }

  lemma {:induction false} ReplaceLast(s: string, c: char, sub: string)
    requires c !in s
    ensures Replace(s + [c], [c], sub) == s + sub
  {
    var t := s + [c];
    if s == "" {
      assert t == [c] && t[..1] == [c] && t[1..] == "";
    } else {
      ReplaceLast(s[1..], c, sub);
      assert t[1..] == s[1..] + [c];
      assert t[..1] == [s[0]];
    }
  }

  lemma DigitsOfWritten(s: string)
    requires Written(s)
    ensures DigitsOf(s) == Without(Without(Without(s, '.'), ','), 'đ')
    ensures 'v' !in DigitsOf(s) && 'k' !in DigitsOf(s) && 'K' !in DigitsOf(s)
  {
    WithoutMarks(s);
  }

  lemma WrittenIsTrimmed(ws: Whitespace, s: string)
    requires 'đ' !in ws && Written(s)
    ensures Strip(ws, s) == s && Strip(ws, s + "k") == s + "k"
  {
    assert Trimmed(ws, s);
    assert Trimmed(ws, s + "k");
  }

  /** Cleaning keeps exactly the digits of a written amount. */
  lemma CleanedWritten(ws: Whitespace, s: string)
    requires 'đ' !in ws && Written(s)
    ensures Cleaned(ws, s) == DigitsOf(s)
  {
    WrittenIsTrimmed(ws, s);
    ReplaceChar(s, '.');
    ReplaceChar(Without(s, '.'), ',');
    ReplaceChar(Without(Without(s, '.'), ','), 'đ');
    DigitsOfWritten(s);
    ReplaceMissing(DigitsOf(s), "vnd", "");
    ReplaceMissing(DigitsOf(s), "k", "000");
    ReplaceMissing(DigitsOf(s), "K", "000");
  }

  /** A unit without any of the marks. */
  predicate IsUnit(unit: string) {
    && unit != "" && Without(unit, '.') == Without(unit, ',') == Without(unit, 'đ') == unit
    && '!' <= unit[|unit| - 1] <= '~'
  }

  /** The replacements of the units. */
  function Expanded(s: string): string {
    Replace(Replace(Replace(s, "vnd", ""), "k", "000"), "K", "000")
  }

  /** A unit stays behind the digits until the later replacements. */
  lemma CleanedUnit(ws: Whitespace, s: string, unit: string)
    requires 'đ' !in ws && Written(s) && IsUnit(unit) && '!' <= unit[0] <= '~'
    ensures Cleaned(ws, s + unit) == Expanded(DigitsOf(s) + unit)
  {
    var t := s + unit;
    assert Trimmed(ws, t) by {
      assert t[|t| - 1] == unit[|unit| - 1];
      assert t[0] == if s == "" then unit[0] else s[0];
    }
    StripOfTrimmed(ws, t);
    ReplaceChar(t, '.');
    WithoutAppend(s, unit, '.');
    var a := Without(s, '.');
    ReplaceChar(a + unit, ',');
    WithoutAppend(a, unit, ',');
    var b := Without(a, ',');
    ReplaceChar(b + unit, 'đ');
    WithoutAppend(b, unit, 'đ');
    DigitsOfWritten(s);
  }

  lemma ExpandedSmallK(d: string)
    requires 'v' !in d && 'k' !in d && 'K' !in d
    ensures Expanded(d + "k") == d + "000"
  {
    ReplaceMissing(d + "k", "vnd", "");
    ReplaceLast(d, 'k', "000");
    ReplaceMissing(d + "000", "K", "000");
  }

  lemma ExpandedCapitalK(d: string)
    requires 'v' !in d && 'k' !in d && 'K' !in d
    ensures Expanded(d + "K") == d + "000"
  {
    ReplaceMissing(d + "K", "vnd", "");
    ReplaceMissing(d + "K", "k", "000");
    ReplaceLast(d, 'K', "000");
  }

  lemma ExpandedDong(d: string)
    requires 'v' !in d && 'k' !in d && 'K' !in d
    ensures Expanded(d + "vnd") == d
  {
    ReplaceEnd(d, "vnd");
    ReplaceMissing(d, "k", "000");
    ReplaceMissing(d, "K", "000");
  }

  lemma OneLetterUnit(c: char)
    requires '!' <= c <= '~' && c !in {'.', ',', 'đ'}
    ensures IsUnit([c])
  {
    assert [c][1..] == "";
  }

  /** A final k adds three zeros, whatever marks precede it. */
  lemma CleanedThousands(ws: Whitespace, s: string)
    requires 'đ' !in ws && Written(s)
    ensures Cleaned(ws, s + "k") == DigitsOf(s) + "000"
  {
    OneLetterUnit('k');
    CleanedUnit(ws, s, "k");
    DigitsOfWritten(s);
    ExpandedSmallK(DigitsOf(s));
  }

  lemma CleanedCapital(ws: Whitespace, s: string)
    requires 'đ' !in ws && Written(s)
    ensures Cleaned(ws, s + "K") == DigitsOf(s) + "000"
  {
    OneLetterUnit('K');
    CleanedUnit(ws, s, "K");
    DigitsOfWritten(s);
    ExpandedCapitalK(DigitsOf(s));
  }

  lemma DongIsUnit()
    ensures IsUnit("vnd")
  {
    assert "vnd"[1..] == "nd" && "nd"[1..] == "d" && "d"[1..] == "";
  }

  lemma CleanedDong(ws: Whitespace, s: string)
    requires 'đ' !in ws && Written(s)
    ensures Cleaned(ws, s + "vnd") == DigitsOf(s)
  {
    DongIsUnit();
    CleanedUnit(ws, s, "vnd");
    DigitsOfWritten(s);
    ExpandedDong(DigitsOf(s));
  }

  lemma {:induction false} ReplaceEnd(s: string, pattern: string)
    requires pattern != "" && pattern[0] !in s
    ensures Replace(s + pattern, pattern, "") == s
  {
    var t := s + pattern;
    if s == "" {
      assert t == pattern && t[..|pattern|] == pattern && t[|pattern|..] == "";
    } else {
      ReplaceEnd(s[1..], pattern);
      assert t[..|pattern|][0] == s[0];
      assert t[1..] == s[1..] + pattern;
    }
  }

  lemma ValueAppend(s: string, d: nat)
    requires AllDigits(s) && d < 10
    ensures AllDigits(s + [Digit(d)]) && Value(s + [Digit(d)]) == 10 * Value(s) + d
  {
    assert (s + [Digit(d)])[..|s|] == s;
  }

  lemma ValueThousand(s: string)
    requires AllDigits(s)
    ensures AllDigits(s + "000") && Value(s + "000") == 1000 * Value(s)
  {
    ValueAppend(s, 0);
    ValueAppend(s + "0", 0);
    ValueAppend(s + "0" + "0", 0);
    assert s + "000" == s + "0" + "0" + "0";
  }

  /** Reading the digits of a number gives the number. */
  lemma {:induction false} ValueOfDigits(n: nat)
    ensures AllDigits(Digits(n)) && Digits(n) != "" && Value(Digits(n)) == n
  {
    if n < 10 {
      ValueAppend("", n);
      assert "" + [Digit(n)] == [Digit(n)];
    } else {
      ValueOfDigits(n / 10);
      ValueAppend(Digits(n / 10), n % 10);
    }
  }

  /** The digits of q thousands and r are the digits of q followed by r in three places. */
  lemma DigitsSplit(q: nat, r: nat)
    requires q > 0 && r < 1000
    ensures Digits(1000 * q + r) == Digits(q) + Pad3(r)
  {
    var n := 1000 * q + r;
    assert n / 10 == 100 * q + r / 10 && n % 10 == r % 10;
    assert n / 10 / 10 == 10 * q + r / 100 && n / 10 % 10 == r / 10 % 10;
    assert n / 10 / 10 / 10 == q && n / 10 / 10 % 10 == r / 100;
    assert Digits(n) == Digits(n / 10) + [Digit(r % 10)];
    assert Digits(n / 10) == Digits(n / 10 / 10) + [Digit(r / 10 % 10)];
    assert Digits(n / 10 / 10) == Digits(q) + [Digit(r / 100)];
  }

  lemma {:induction false} DigitsOfAppend(s: string, t: string)
    ensures DigitsOf(s + t) == DigitsOf(s) + DigitsOf(t)
  {
    if s == "" {
      assert s + t == t;
    } else {
      DigitsOfAppend(s[1..], t);
      assert (s + t)[1..] == s[1..] + t;
      var h := if IsDigit(s[0]) then [s[0]] else "";
      assert DigitsOf(s + t) == h + (DigitsOf(s[1..]) + DigitsOf(t));
    }
  }

  lemma {:induction false} DigitsOfDigits(s: string)
    requires AllDigits(s)
    ensures DigitsOf(s) == s
  {
    if s != "" {
      DigitsOfDigits(s[1..]);
    }
  }

  lemma DigitsOfComma()
    ensures DigitsOf(",") == DigitsOf(".") == DigitsOf("đ") == ""
  {
    assert ","[1..] == "" && "."[1..] == "" && "đ"[1..] == "";
  }

  /** A mark between two written parts is not seen in their digits. */
  lemma DigitsAround(a: string, mark: string, b: string)
    requires mark == "," || mark == "."
    requires Written(a) && Written(b)
    ensures Written(a + mark + b) && DigitsOf(a + mark + b) == DigitsOf(a) + DigitsOf(b)
  {
    DigitsOfComma();
    DigitsOfAppend(a, mark);
    DigitsOfAppend(a + mark, b);
    assert DigitsOf(a + mark) == DigitsOf(a);
  }

  /** The grouped form is written with digits and commas only, and its digits are the number's. */
  lemma {:induction false} CommasAreWritten(n: nat)
    ensures Written(Commas(n)) && DigitsOf(Commas(n)) == Digits(n)
  {
    if n < 1000 {
      ValueOfDigits(n);
      DigitsOfDigits(Digits(n));
    } else {
      var q, r := n / 1000, n % 1000;
      CommasAreWritten(q);
      DigitsSplit(q, r);
      DigitsOfDigits(Pad3(r));
      DigitsAround(Commas(q), ",", Pad3(r));
    }
  }

  lemma {:induction false} DotsForCommas(s: string)
    requires Written(s)
    ensures Written(Replace(s, ",", ".")) && DigitsOf(Replace(s, ",", ".")) == DigitsOf(s)
  {
    if s != "" {
      DotsForCommas(s[1..]);
      assert s[..1] == [s[0]];
      var r := Replace(s[1..], ",", ".");
      assert Replace(s, ",", ".") == [if s[0] == ',' then '.' else s[0]] + r;
    }
  }

  /** The reply form of a non-negative amount is a written amount with the same digits. */
  lemma FormatIsWritten(n: nat)
    ensures Written(Format(n)) && DigitsOf(Format(n)) == Digits(n)
  {
    CommasAreWritten(n);
    DigitsOfAppend(Commas(n), "đ");
    DigitsOfComma();
    DotsForCommas(Commas(n) + "đ");
  }

  /** Any amount written with digits, dots, commas and đ is read as the number its digits spell,
      and a thousand times that when a k follows. */
  lemma ReadsItsDigits(ws: Whitespace, viaFloat: string -> Option<int>, s: string)
    requires 'đ' !in ws && Written(s)
    ensures DigitsOf(s) != "" ==> Normalize(ws, viaFloat, Words(s)) == Some(Value(DigitsOf(s)))
    ensures Normalize(ws, viaFloat, Words(s + "k")) == Some(1000 * Value(DigitsOf(s)))
  {
    CleanedWritten(ws, s);
    CleanedThousands(ws, s);
    ValueThousand(DigitsOf(s));
  }

  /** The currency's letters after a written amount change nothing, and a capital K means thousands as well. */
  lemma ReadsUnits(ws: Whitespace, viaFloat: string -> Option<int>, s: string)
    requires 'đ' !in ws && Written(s)
    ensures DigitsOf(s) != "" ==> Normalize(ws, viaFloat, Words(s + "vnd")) == Some(Value(DigitsOf(s)))
    ensures Normalize(ws, viaFloat, Words(s + "K")) == Some(1000 * Value(DigitsOf(s)))
  {
    CleanedDong(ws, s);
    CleanedCapital(ws, s);
    ValueThousand(DigitsOf(s));
  }

  /** Reading back a written amount gives the amount. */
  lemma FormatThenNormalize(ws: Whitespace, viaFloat: string -> Option<int>, n: nat)
    requires 'đ' !in ws
    ensures Normalize(ws, viaFloat, Words(Format(n))) == Some(n)
  {
    FormatIsWritten(n);
    ValueOfDigits(n);
    ReadsItsDigits(ws, viaFloat, Format(n));
  }

  /** Digits followed by k are read as thousands. */
  lemma ThousandsNormalize(ws: Whitespace, viaFloat: string -> Option<int>, n: nat)
    requires 'đ' !in ws
    ensures Normalize(ws, viaFloat, Words(Digits(n) + "k")) == Some(1000 * n)
  {
    ValueOfDigits(n);
    DigitsOfDigits(Digits(n));
    ReadsItsDigits(ws, viaFloat, Digits(n));
  }

  /** Whitespace around a claimed text plays no part. */
  lemma PaddingIgnored(ws: Whitespace, viaFloat: string -> Option<int>, before: string, s: string, behind: string)
    requires IsBlank(ws, before) && IsBlank(ws, behind) && s != "" && Trimmed(ws, s)
    ensures Normalize(ws, viaFloat, Words(before + s + behind)) == Normalize(ws, viaFloat, Words(s))
  {
    StripOfPadded(ws, before, s, behind);
    StripOfTrimmed(ws, s);
  }

  /** A claimed number is itself whatever its sign, nothing claimed is no amount, and only a text that is not all digits
      once cleaned is read as a floating-point number. */
  lemma OthersReadAs(ws: Whitespace, viaFloat: string -> Option<int>, n: int, s: string)
    ensures Normalize(ws, viaFloat, Number(n)) == Some(n) && Normalize(ws, viaFloat, Absent) == None
    ensures (exists i :: 0 <= i < |Cleaned(ws, s)| && !('0' <= Cleaned(ws, s)[i] <= '9')) ==>
              Normalize(ws, viaFloat, Words(s)) == viaFloat(Cleaned(ws, s))
  {
  }

  /** A negative amount is shown with a minus before the amount without it. */
  lemma FormatNegative(n: int)
    requires n > 0
    ensures Format(-n) == "-" + Format(n)
  {
    var s := Commas(n) + "đ";
    assert Commas(-n) + "đ" == "-" + s;
    assert ("-" + s)[..1] == "-" && ("-" + s)[1..] == s;
  }

  /** No two amounts are shown to the customer in the same way. */
  lemma FormatInjective(ws: Whitespace, a: nat, b: nat)
    requires 'đ' !in ws && Format(a) == Format(b)
    ensures a == b
  {
    FormatThenNormalize(ws, s => None, a);
    FormatThenNormalize(ws, s => None, b);
  }

  /** A decimal point is no different from a grouping mark: 1.5k is read as fifteen thousand. */
  lemma DecimalPointIgnored(ws: Whitespace, viaFloat: string -> Option<int>, whole: string, fraction: string)
    requires 'đ' !in ws && AllDigits(whole) && AllDigits(fraction)
    ensures Normalize(ws, viaFloat, Words(whole + "." + fraction + "k")) == Some(1000 * Value(whole + fraction))
  {
    DigitsOfDigits(whole);
    DigitsOfDigits(fraction);
    DigitsAround(whole, ".", fraction);
    ReadsItsDigits(ws, viaFloat, whole + "." + fraction);
  }

  /** n with k zeros appended. */
  function Shifted(n: nat, k: nat): (r: nat)
    ensures r >= n
  {
    if k == 0 then n else 10 * Shifted(n, k - 1)
  }

  lemma {:induction false} ShiftedIsSameExactlyWhen(n: nat, k: nat)
    ensures Shifted(n, k) == n <==> k == 0 || n == 0
  {
    if k > 0 {
      ShiftedIsSameExactlyWhen(n, k - 1);
    }
  }

  /** So the reading is the decimal amount, which it is when shifting it by the length of the fraction gives the
      thousands of all the digits, exactly when the fraction is empty or every digit is zero. */
  lemma DecimalReadExactlyWhen(ws: Whitespace, viaFloat: string -> Option<int>, whole: string, fraction: string)
    requires 'đ' !in ws && AllDigits(whole) && AllDigits(fraction)
    ensures
      var read := Normalize(ws, viaFloat, Words(whole + "." + fraction + "k"));
      && read.Some? && read.value >= 0
      && (Shifted(read.value, |fraction|) == 1000 * Value(whole + fraction) <==>
            fraction == "" || Value(whole + fraction) == 0)
  {
    DecimalPointIgnored(ws, viaFloat, whole, fraction);
    ShiftedIsSameExactlyWhen(1000 * Value(whole + fraction), |fraction|);
  }
}
