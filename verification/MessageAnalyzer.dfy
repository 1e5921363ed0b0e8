/** The deterministic message analysis that stands in for the language model. */
module MessageAnalyzer {
  import opened CaseTransition
  import opened Options
  import opened Text
  import opened VndAmount

  // ---- Amounts ----

  datatype Suffix = NoSuffix | Thousand | Million | Dong

  /** What an amount pattern captured: the number as written, and the unit after it. */
  datatype AmountMatch = AmountMatch(number: string, suffix: Suffix)

  /** The colloquial amounts: one to ten hundred-thousands, some millions, and half a million. */
  type Hundreds = n: nat | 1 <= n <= 10 witness 1
  type Millions = n: nat | n in {1, 2, 3, 5, 10} witness 1
  datatype Slang = HalfMillion | HundredThousands(h: Hundreds) | WholeMillions(m: Millions)

  const LEAST_AMOUNT := 1_000
  const GREATEST_AMOUNT := 1_000_000_000

  predicate InRange(v: nat) {
    LEAST_AMOUNT <= v <= GREATEST_AMOUNT
  }

  function SlangValue(s: Slang): nat {
    match s
    case HalfMillion => 500_000
    case HundredThousands(h) => h * 100_000
    case WholeMillions(m) => m * 1_000_000
  }

  function Unmarked(number: string): string {
    Replace(Replace(number, ".", ""), ",", "")
  }

  predicate ReadsAsInt(number: string) {
    Unmarked(number) != "" && AllDigits(Unmarked(number))
  }

  /** The amount a match stands for, absent when its digits are not a number. */
  function MatchValue(m: AmountMatch): Option<nat> {
    if !ReadsAsInt(m.number) then None
    else
      var v := Value(Unmarked(m.number));
      match m.suffix
      case Thousand => Some(v * 1_000)
      case Million => Some(v * 1_000_000)
      case _ => Some(v)
  }

  predicate Accepted(m: Option<AmountMatch>) {
    m.Some? && MatchValue(m.value).Some? && InRange(MatchValue(m.value).value)
  }

  /** The amount of a message: a colloquial one if there is any, and otherwise that of the first
      pattern whose match is in range, written out in digits. */
  method ExtractAmount(slang: Option<(Slang, string)>, matches: seq<Option<AmountMatch>>)
    returns (amount: Option<nat>, text: Option<string>)
    ensures amount.Some? <==> text.Some?
    ensures amount.Some? ==> InRange(amount.value)
    ensures slang.Some? ==> amount == Some(SlangValue(slang.value.0)) && text == Some(slang.value.1)
    ensures slang.Some? ==>
      match slang.value.0
      case HalfMillion => amount == Some(500000)
      case HundredThousands(h) => amount == Some(100000 * h)
      case WholeMillions(m) => amount == Some(1000000 * m)
    ensures slang.None? ==>
      (amount.None? <==> forall j :: 0 <= j < |matches| ==> !Accepted(matches[j]))
    ensures slang.None? && amount.Some? ==>
      exists i :: 0 <= i < |matches| && Accepted(matches[i]) && MatchValue(matches[i].value) == amount
        && (forall j :: 0 <= j < i ==> !Accepted(matches[j]))
    ensures slang.None? && amount.Some? ==> AllDigits(text.value) && Value(text.value) == amount.value
  {
    amount, text := None, None;
    if slang.Some? {
      return Some(SlangValue(slang.value.0)), Some(slang.value.1);
    }
    var i := 0;
    while i < |matches|
      invariant 0 <= i <= |matches|
      invariant amount.None? && text.None?
      invariant forall j :: 0 <= j < i ==> !Accepted(matches[j])
    {
      var m := matches[i];
      if m.Some? {
        var v := MatchValue(m.value);
        if v.Some? && LEAST_AMOUNT <= v.value <= GREATEST_AMOUNT {
          ValueOfDigits(v.value);
          return v, Some(Digits(v.value));
        }
      }
      i := i + 1;
    }
  }

  predicate HasDigitsAndMarks(number: string) {
    forall i :: 0 <= i < |number| ==> IsDigit(number[i]) || number[i] == '.' || number[i] == ','
  }

  lemma AllDigitsCons(c: char, s: string)
    ensures AllDigits([c] + s) <==> IsDigit(c) && AllDigits(s)
  {
    assert ([c] + s)[0] == c;
    assert forall i :: 0 <= i < |s| ==> s[i] == ([c] + s)[i + 1];
  }

  lemma HasDigitsAndMarksCons(c: char, s: string)
    ensures HasDigitsAndMarks([c] + s) <==> (IsDigit(c) || c == '.' || c == ',') && HasDigitsAndMarks(s)
  {
    assert ([c] + s)[0] == c;
    assert forall i :: 0 <= i < |s| ==> s[i] == ([c] + s)[i + 1];
  }

  lemma DigitsOfCons(c: char, s: string)
    ensures DigitsOf([c] + s) == (if IsDigit(c) then [c] else "") + DigitsOf(s)
  {
    assert ([c] + s)[1..] == s;
  }

  lemma UnmarkedCons(c: char, s: string)
    ensures
      Without(Without([c] + s, '.'), ',') ==
      (if c == '.' || c == ',' then "" else [c]) + Without(Without(s, '.'), ',')
  {
    WithoutCons(c, s, '.');
    WithoutCons(c, Without(s, '.'), ',');
    assert "" + Without(s, '.') == Without(s, '.');
  }

  lemma {:induction false} UnmarkedIsDigits(number: string)
    ensures
      var u := Without(Without(number, '.'), ',');
      && (AllDigits(u) <==> HasDigitsAndMarks(number))
      && (AllDigits(u) ==> u == DigitsOf(number))
  {
    if number != "" {
      var c, rest := number[0], number[1..];
      UnmarkedIsDigits(rest);
      assert number == [c] + rest;
      UnmarkedCons(c, rest);
      DigitsOfCons(c, rest);
      HasDigitsAndMarksCons(c, rest);
      var u := Without(Without(rest, '.'), ',');
      AllDigitsCons(c, u);
      assert "" + u == u;
    }
  }

  /** A match stands for an amount exactly when it is written with digits, dots and commas: the number that its digits
      spell, a thousand times that for k, a million times for tr, and otherwise the number itself. */
  lemma MatchReadsAs(m: AmountMatch)
    ensures
      MatchValue(m) ==
      if DigitsOf(m.number) == "" || !HasDigitsAndMarks(m.number) then None
      else Some(match m.suffix
                case Thousand => 1000 * Value(DigitsOf(m.number))
                case Million => 1000000 * Value(DigitsOf(m.number))
                case Dong => Value(DigitsOf(m.number))
                case NoSuffix => Value(DigitsOf(m.number)))
  {
    ReplaceChar(m.number, '.');
    ReplaceChar(Without(m.number, '.'), ',');
    UnmarkedIsDigits(m.number);
  }

  // ---- Classification ----

  /** What the keyword patterns find in a message. */
  datatype Signals = Signals(
    length: nat, sensitive: bool, correction: bool, thanks: bool, offTopic: bool, math: bool, greeting: bool,
    accountLock: bool, merchant: bool, train: bool, topup: bool)

  /** Which kinds of fields were extracted. */
  datatype Fields = Fields(directId: bool, alternative: bool)

  datatype Analysis = Analysis(messageType: MessageType, belongs: bool, hint: string, correction: bool)

  /** The names the detector returns, and the placeholder for no workflow. */
  datatype Names = Names(lock: string, merchant: string, train: string, topup: string, unknown: string)

  const NAMES := Names("fraud_account_lock", "merchant_settlement_delay", "train_ticket", "wallet_topup", "unknown")

  function DetectHint(names: Names, g: Signals): Option<string> {
    if g.accountLock then Some(names.lock)
    else if g.merchant then Some(names.merchant)
    else if g.train then Some(names.train)
    else if g.topup then Some(names.topup)
    else None
  }

  function FallbackClassify(g: Signals, f: Fields, hasActive: bool): MessageType {
    if g.sensitive then ProvideSensitiveInfo
    else if hasActive && g.correction then CorrectPreviousInfo
    else if g.thanks && g.length < 60 then ThankYou
    else if !f.directId && !f.alternative && (g.offTopic || g.math) then OutOfScope
    else if !f.directId && !f.alternative && g.greeting && g.length < 40 then Greeting
    else if f.directId then ProvideMissingInfo
    else if f.alternative && hasActive then ProvideMissingInfo
    else if hasActive && g.length < 80 then FollowUp
    else if g.length > 30 then NewComplaint
    else Unknown
  }

  /** The whole fallback; `active` is the workflow of the active case, empty when there is none. */
  function FallbackAnalyze(names: Names, g: Signals, f: Fields, active: string): Analysis {
    var hasActive := active != "";
    var current := if hasActive then active else names.unknown;
    var t := FallbackClassify(g, f, hasActive);
    var detected := DetectHint(names, g);
    if IsNonCase(t) then Analysis(t, false, names.unknown, false)
    else if detected.Some? && detected.value != current && hasActive then
      Analysis(SwitchWorkflow, false, detected.value, false)
    else
      Analysis(t, t != NewComplaint && t != Unknown && hasActive, detected.GetOrElse(current), t == CorrectPreviousInfo)
  }

  /** The detected workflow by signal: a lock before a settlement, a train ticket and a top-up, in that order. */
  lemma DetectedExactlyWhen(g: Signals)
    ensures DetectHint(NAMES, g) == Some("fraud_account_lock") <==> g.accountLock
    ensures DetectHint(NAMES, g) == Some("merchant_settlement_delay") <==> !g.accountLock && g.merchant
    ensures DetectHint(NAMES, g) == Some("train_ticket") <==> !g.accountLock && !g.merchant && g.train
    ensures DetectHint(NAMES, g) == Some("wallet_topup") <==> !g.accountLock && !g.merchant && !g.train && g.topup
    ensures DetectHint(NAMES, g) == None <==> !g.accountLock && !g.merchant && !g.train && !g.topup
  {
    assert NAMES.lock[0] == 'f' && NAMES.merchant[0] == 'm' && NAMES.train[0] == 't' && NAMES.topup[0] == 'w';
  }

  /** The fallback names the detected workflow, or else the active one; within an active case, a message on topic is a
      switch exactly when another workflow is detected, and a correction exactly when it is classified as one. */
  lemma FallbackNames(names: Names, g: Signals, f: Fields, active: string)
    ensures
      var a, t, detected := FallbackAnalyze(names, g, f, active), FallbackClassify(g, f, active != ""), DetectHint(names, g);
      var switches := active != "" && detected.Some? && detected.value != active;
      && a.messageType == (if switches && t !in {Greeting, OutOfScope} then SwitchWorkflow else t)
      && (a.correction <==> t == CorrectPreviousInfo && !switches)
      && a.hint == (if t in {Greeting, OutOfScope} then names.unknown
                    else if detected.Some? then detected.value
                    else if active != "" then active else names.unknown)
  {
  }

  /** How a message is classified, by its signals, fields and length. */
  lemma ClassifiedExactlyWhen(g: Signals, f: Fields, hasActive: bool)
    ensures
      var t := FallbackClassify(g, f, hasActive);
      var plain := !g.sensitive && !(hasActive && g.correction) && !(g.thanks && g.length < 60);
      var given, idle := f.directId || (f.alternative && hasActive), !f.directId && !f.alternative;
      var casual := (g.offTopic || g.math || (g.greeting && g.length < 40));
      && (t == ProvideSensitiveInfo <==> g.sensitive)
      && (t == CorrectPreviousInfo <==> !g.sensitive && hasActive && g.correction)
      && (t == ThankYou <==> !g.sensitive && !(hasActive && g.correction) && g.thanks && g.length < 60)
      && (t == OutOfScope <==> plain && idle && (g.offTopic || g.math))
      && (t == Greeting <==> plain && idle && !g.offTopic && !g.math && g.greeting && g.length < 40)
      && (t == ProvideMissingInfo <==> plain && given)
      && (t == FollowUp <==> plain && idle && !casual && hasActive && g.length < 80)
      && (t == NewComplaint <==>
          plain && !given && !(idle && casual) && (if hasActive then g.length >= 80 else g.length > 30))
      && (t == Unknown <==> plain && !given && !(idle && casual) && !hasActive && g.length <= 30)
  {
  }

  /** The model's result, and whether its confidence is high enough to use it. */
  datatype ModelResult = ModelResult(analysis: Analysis, trusted: bool)

  function Analyze(names: Names, model: Option<ModelResult>, g: Signals, f: Fields, active: string): Analysis {
    var fallback := FallbackAnalyze(names, g, f, active);
    if model.Some? && model.value.trusted then
      var a := model.value.analysis;
      if (a.hint == "" || a.hint == names.unknown) && fallback.hint != "" && fallback.hint != names.unknown
      then a.(hint := fallback.hint) else a
    else fallback
  }

  /** The model's analysis is used exactly when it is trusted, and with its own workflow if it names one; without a
      trusted one the message is analysed by the fallback. */
  lemma AnalyzedBy(names: Names, model: Option<ModelResult>, g: Signals, f: Fields, active: string)
    ensures
      var a := Analyze(names, model, g, f, active);
      && (model == None || !model.value.trusted ==> a == FallbackAnalyze(names, g, f, active))
      && (model.Some? && model.value.trusted ==>
            && a.(hint := "") == model.value.analysis.(hint := "")
            && (model.value.analysis.hint !in {"", names.unknown} ==> a == model.value.analysis))
  {
  }

  function Transit(w: WorkflowNames, a: Analysis, active: ActiveCase): Transition {
    Decide(w, a.messageType, a.hint, active)
  }

  /** A message that the fallback assigns to the active case carries that case's workflow and continues
      the case, whatever its state; and the fallback assigns it exactly when no other workflow is
      detected and the classification names an interaction with a case. */
  lemma BelongingContinues(w: WorkflowNames, names: Names, g: Signals, f: Fields, active: ActiveCase)
    ensures
      var a := FallbackAnalyze(names, g, f, active.workflow);
      var t := FallbackClassify(g, f, active.workflow != "");
      && (a.belongs ==>
          && a.hint == active.workflow
          && Transit(w, a, active) == Transition(SameCase, Norm(w, active.workflow), true))
      && (a.belongs <==>
          && active.workflow != "" && t !in {Greeting, OutOfScope, NewComplaint, Unknown}
          && DetectHint(names, g) in {None, Some(active.workflow)})
  {
  }

  /** With an active case, a detected workflow other than its own always leaves the case, unless the
      message is off topic or, with whitespace removed, one of the two names is not a known workflow. */
  lemma DetectedWorkflowLeaves(w: WorkflowNames, names: Names, g: Signals, f: Fields, active: ActiveCase)
    requires active.workflow != "" && DetectHint(names, g).Some? && DetectHint(names, g).value != active.workflow
    ensures
      var a := FallbackAnalyze(names, g, f, active.workflow);
      var d := Transit(w, a, active);
      if IsNonCase(FallbackClassify(g, f, true)) then d.kind == OffTopic
      else d == Transition(WorkflowSwitch, Norm(w, DetectHint(names, g).value), false)
  {
  }

  lemma NormOfName(name: string)
    requires name != "" && 'a' <= name[0] <= 'z' && 'a' <= name[|name| - 1] <= 'z'
    ensures Norm(WORKFLOW_NAMES, name) == if name in KNOWN_WORKFLOWS then name else ""
  {
    assert forall c :: c in PYTHON_WHITESPACE ==> c < '!' || '~' < c;
    StripOfTrimmed(PYTHON_WHITESPACE, name);
  }

  /** The detector's names are workflows that can be diagnosed, and the placeholder is none of them. */
  lemma DetectorNamesAreKnown(g: Signals)
    ensures
      var detected := DetectHint(NAMES, g);
      detected.Some? ==> detected.value != "" && Norm(WORKFLOW_NAMES, detected.value) == detected.value
    ensures Norm(WORKFLOW_NAMES, NAMES.unknown) == ""
  {
    var detected := DetectHint(NAMES, g);
    if detected.Some? {
      NormOfName(detected.value);
    }
    NormOfName(NAMES.unknown);
  }

  /** So with the names the agent uses, another detected workflow always becomes the target itself. */
  lemma DetectedWorkflowIsTarget(g: Signals, f: Fields, active: ActiveCase)
    requires active.workflow != "" && DetectHint(NAMES, g).Some? && DetectHint(NAMES, g).value != active.workflow
    requires !IsNonCase(FallbackClassify(g, f, true))
    ensures
      var a := FallbackAnalyze(NAMES, g, f, active.workflow);
      Transit(WORKFLOW_NAMES, a, active) == Transition(WorkflowSwitch, DetectHint(NAMES, g).value, false)
  {
    DetectedWorkflowLeaves(WORKFLOW_NAMES, NAMES, g, f, active);
    DetectorNamesAreKnown(g);
  }

  /** Which hint a model result without one ends up with. */
  lemma BackfilledHint(names: Names, g: Signals, f: Fields, active: string, said: Analysis)
    requires said.hint == names.unknown != ""
    ensures
      var a := Analyze(names, Some(ModelResult(said, true)), g, f, active);
      var detected := DetectHint(names, g);
      && a == said.(hint := a.hint)
      && a.hint ==
         if IsNonCase(FallbackClassify(g, f, active != "")) then names.unknown
         else if detected.Some? && detected.value != "" then detected.value
         else if detected.None? && active != "" then active
         else names.unknown
  {
  }

  /** Nothing of the kind holds for the model: a follow-up that it assigns to the active case without
      naming a workflow takes the detected one, and continues the case exactly when that is not a
      different known workflow. */
  lemma BackfillContinuesExactlyWhen(w: WorkflowNames, names: Names, g: Signals, f: Fields,
                                     active: ActiveCase, said: Analysis)
    requires HasActive(active) && said.hint == names.unknown != "" && w.strip(names.unknown) !in w.known
    requires "" !in {names.lock, names.merchant, names.train, names.topup}
    requires said.messageType !in {Greeting, OutOfScope, NewComplaint, SwitchWorkflow}
    requires !IsAck(said.messageType)
    ensures
      var a := Analyze(names, Some(ModelResult(said, true)), g, f, active.workflow);
      var t := FallbackClassify(g, f, active.workflow != "");
      Transit(w, a, active).reuse <==>
        || IsNonCase(t) || DetectHint(names, g).None?
        || !Differ(Norm(w, DetectHint(names, g).value), Norm(w, active.workflow))
  {
    var a := Analyze(names, Some(ModelResult(said, true)), g, f, active.workflow);
    assert Norm(w, names.unknown) == "";
    BackfilledHint(names, g, f, active.workflow, said);
    ReuseExactlyWhen(w, a.messageType, a.hint, active);
  }
}
