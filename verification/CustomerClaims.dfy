/** What a customer said, kept apart from what the system verified: the claim tracker with its
    corrections, and the comparison of claims with evidence. */
module CustomerClaims {
  import opened Options
  import opened Sequences
  import opened Text
  import opened VndAmount

  /** The value of a claim record. */
  datatype Record = Record(field: string, value: Claimed, timestamp: string, superseded: bool, supersededBy: string)

  /** The value of a tracker. */
  datatype Tracker = Tracker(latest: map<string, Claimed>, history: seq<Record>)

  /** One call of `merge_claim` at the time `now`. */
  datatype Merge = Merge(field: string, value: Claimed, correction: bool, now: string)

  const EMPTY_TRACKER := Tracker(map[], [])

  /** The last record of a field that is not superseded. */
  function LastOpen(h: seq<Record>, field: string): (i: Option<nat>)
    ensures i.Some? ==> i.value < |h|
  {
    if h == [] then None
    else if h[|h| - 1].field == field && !h[|h| - 1].superseded then Some(|h| - 1)
    else LastOpen(h[..|h| - 1], field)
  }

  function Supersede(h: seq<Record>, i: Option<nat>, now: string): seq<Record>
    requires i.Some? ==> i.value < |h|
  {
    if i == None then h else h[i.value := h[i.value].(superseded := true, supersededBy := now)]
  }

  /** What one call does to a tracker. */
  function Apply(t: Tracker, m: Merge): Tracker {
    if m.value == Absent then t
    else
      var h := if m.correction then Supersede(t.history, LastOpen(t.history, m.field), m.now) else t.history;
      Tracker(t.latest[m.field := m.value], h + [Record(m.field, m.value, m.now, false, "")])
  }

  function ApplyAll(t: Tracker, ms: seq<Merge>): Tracker
    decreases |ms|
  {
    if ms == [] then t else ApplyAll(Apply(t, ms[0]), ms[1..])
  }

  /** Python's truth value of a field value. */
  predicate Truthy(c: Claimed) {
    match c
    case Absent => false
    case Number(n) => n != 0
    case Words(s) => s != ""
  }

  /** Extracted attributes and the claim fields they fill. */
  const FIELD_MAP: seq<(string, string)> := [
    ("transaction_id", "transaction_id"), ("order_id", "order_id"), ("bill_code", "bill_code"),
    ("merchant_id", "merchant_id"), ("amount", "amount"), ("bank_name", "bank_name"),
    ("bank_reference", "bank_reference"), ("approximate_time_text", "time"),
    ("approximate_date_text", "date"), ("provider_name", "provider_name")]

  /** The calls one extraction makes, from the n-th attribute on. */
  function ExtractedMerges(extracted: map<string, Claimed>, correction: bool, now: string, n: nat): seq<Merge>
    requires n <= |FIELD_MAP|
    decreases |FIELD_MAP| - n
  {
    if n == |FIELD_MAP| then []
    else
      var (attribute, field) := FIELD_MAP[n];
      var rest := ExtractedMerges(extracted, correction, now, n + 1);
      if attribute in extracted && Truthy(extracted[attribute])
      then [Merge(field, extracted[attribute], correction, now)] + rest else rest
  }

  /** An extraction makes exactly one call for each attribute that holds something: not nothing, zero or empty text. */
  lemma {:induction false} MergesExactlyWhen(extracted: map<string, Claimed>, correction: bool, now: string, n: nat,
                                             m: Merge)
    requires n <= |FIELD_MAP|
    ensures
      m in ExtractedMerges(extracted, correction, now, n) <==>
        exists i :: && n <= i < |FIELD_MAP| && FIELD_MAP[i].0 in extracted
                    && extracted[FIELD_MAP[i].0] !in {Absent, Number(0), Words("")}
                    && m == Merge(FIELD_MAP[i].1, extracted[FIELD_MAP[i].0], correction, now)
    decreases |FIELD_MAP| - n
  {
    if n < |FIELD_MAP| {
      MergesExactlyWhen(extracted, correction, now, n + 1, m);
      var rest := ExtractedMerges(extracted, correction, now, n + 1);
      var (attribute, field) := FIELD_MAP[n];
      if attribute in extracted && Truthy(extracted[attribute]) {
        var made := Merge(field, extracted[attribute], correction, now);
        assert m in [made] + rest <==> m == made || m in rest;
        assert FIELD_MAP[n].0 in extracted;
      }
    }
  }

  /** A claim record. Only its superseded marks ever change. */
  class ClaimRecord {
    const field: string
    const value: Claimed
    const timestamp: string
    var superseded: bool
    var supersededBy: string

    constructor (field: string, value: Claimed, timestamp: string)
      ensures View() == Record(field, value, timestamp, false, "")
    {
      this.field, this.value, this.timestamp := field, value, timestamp;
      superseded, supersededBy := false, "";
    }

    function View(): Record
      reads this
    {
      Record(field, value, timestamp, superseded, supersededBy)
    }
  }

  class CustomerClaims {
    var latest: map<string, Claimed>
    var history: seq<ClaimRecord>

    /** No record is listed twice. */
    ghost predicate Valid()
      reads this
    {
      forall i, j :: 0 <= i < j < |history| ==> history[i] != history[j]
    }

    ghost function View(): Tracker
      reads this, history
    {
      Tracker(latest, seq(|history|, i requires 0 <= i < |history| reads this, history => history[i].View()))
    }

    constructor ()
      ensures Valid() && View() == EMPTY_TRACKER
    {
      latest, history := map[], [];
    }

    /** The reverse scan of a correction. */
    method SupersedeLastOpen(field: string, now: string)
      requires Valid()
      modifies history
      ensures View() == old(View()).(history := Supersede(old(View()).history, LastOpen(old(View()).history, field), now))
    {
      ghost var before := View().history;
      var i := |history|;
      assert before[..i] == before;
      while i > 0
        invariant 0 <= i <= |history|
        invariant LastOpen(before, field) == LastOpen(before[..i], field)
      {
        i := i - 1;
        assert before[..i + 1][..i] == before[..i];
        if history[i].field == field && !history[i].superseded {
          history[i].superseded := true;
          history[i].supersededBy := now;
          break;
        }
      }
      assert View().history == Supersede(before, LastOpen(before, field), now);
    }

    method Append(field: string, value: Claimed, now: string)
      requires Valid()
      modifies this
      ensures Valid() && |history| == |old(history)| + 1 && history[..|old(history)|] == old(history)
      ensures fresh(history[|old(history)|])
      ensures View() == Tracker(old(latest)[field := value],
                                old(View()).history + [Record(field, value, now, false, "")])
    {
      ghost var before := View().history;
      var record := new ClaimRecord(field, value, now);
      history := history + [record];
      latest := latest[field := value];
      assert View().history == before + [record.View()];
    }

    method MergeClaim(field: string, value: Claimed, correction: bool, now: string)
      requires Valid()
      modifies this, history
      ensures Valid() && |history| >= |old(history)|
      ensures forall i :: |old(history)| <= i < |history| ==> fresh(history[i])
      ensures forall i :: 0 <= i < |old(history)| ==> history[i] == old(history[i])
      ensures View() == Apply(old(View()), Merge(field, value, correction, now))
    {
      if value == Absent {
        return;
      }
      if correction {
        SupersedeLastOpen(field, now);
      }
      Append(field, value, now);
    }

    /** Merges every non-empty field of an extraction. */
    method MergeExtractedFields(extracted: map<string, Claimed>, correction: bool, now: string)
      requires Valid()
      modifies this, history
      ensures Valid() && |history| >= |old(history)|
      ensures View() == ApplyAll(old(View()), ExtractedMerges(extracted, correction, now, 0))
    {
      ghost var all := ExtractedMerges(extracted, correction, now, 0);
      for n := 0 to |FIELD_MAP|
        invariant Valid() && |history| >= |old(history)|
        invariant forall i :: 0 <= i < |old(history)| ==> history[i] == old(history[i])
        invariant forall i :: |old(history)| <= i < |history| ==> fresh(history[i])
        invariant ApplyAll(View(), ExtractedMerges(extracted, correction, now, n)) == ApplyAll(old(View()), all)
      {
        var (attribute, field) := FIELD_MAP[n];
        if attribute in extracted && Truthy(extracted[attribute]) {
          ghost var m := Merge(field, extracted[attribute], correction, now);
          ghost var rest := ExtractedMerges(extracted, correction, now, n + 1);
          ghost var before := View();
          assert ExtractedMerges(extracted, correction, now, n) == [m] + rest;
          assert ([m] + rest)[1..] == rest;
          assert ApplyAll(before, [m] + rest) == ApplyAll(Apply(before, m), rest);
          MergeClaim(field, extracted[attribute], correction, now);
        }
      }
    }
  }

  /** The tracker after a list of calls, starting empty. */
  function Run(ms: seq<Merge>): Tracker {
    if ms == [] then EMPTY_TRACKER else Apply(Run(ms[..|ms| - 1]), ms[|ms| - 1])
  }

  /** Calls that carry a value; the others change nothing. */
  function Told(ms: seq<Merge>): seq<Merge> {
    if ms == [] then []
    else Told(ms[..|ms| - 1]) + if ms[|ms| - 1].value == Absent then [] else [ms[|ms| - 1]]
  }

  function IsAbout(field: string): Merge -> bool {
    (m: Merge) => m.field == field
  }

  /** The first call at or after `from` about a field. */
  function NextAbout(ms: seq<Merge>, field: string, from: nat): (j: Option<nat>)
    requires from <= |ms|
    ensures j.Some? ==> from <= j.value < |ms| && ms[j.value].field == field
    ensures forall k :: from <= k < (if j.Some? then j.value else |ms|) ==> ms[k].field != field
  {
    FirstFrom(ms, IsAbout(field), from)
  }

  /** The last call about a field. */
  function LastAbout(ms: seq<Merge>, field: string): (j: Option<nat>)
    ensures j.Some? ==> j.value < |ms| && ms[j.value].field == field
    ensures forall k :: (if j.Some? then j.value + 1 else 0) <= k < |ms| ==> ms[k].field != field
  {
    if ms == [] then None
    else if ms[|ms| - 1].field == field then Some(|ms| - 1)
    else LastAbout(ms[..|ms| - 1], field)
  }

  /** The record call i leaves behind: superseded exactly when the next call about the same field
      is a correction, and then by that call. */
  function RecordOf(ms: seq<Merge>, i: nat): Record
    requires i < |ms|
  {
    var m := ms[i];
    var j := NextAbout(ms, m.field, i + 1);
    if j.Some? && ms[j.value].correction then Record(m.field, m.value, m.now, true, ms[j.value].now)
    else Record(m.field, m.value, m.now, false, "")
  }

  function HistoryOf(ms: seq<Merge>): seq<Record> {
    seq(|ms|, i requires 0 <= i < |ms| => RecordOf(ms, i))
  }

  lemma NextAboutSnoc(ms: seq<Merge>, m: Merge, field: string, from: nat)
    requires from <= |ms|
    ensures NextAbout(ms + [m], field, from) ==
            if NextAbout(ms, field, from).Some? then NextAbout(ms, field, from)
            else if m.field == field then Some(|ms|) else None
  {
    var a, b := NextAbout(ms, field, from), NextAbout(ms + [m], field, from);
    assert (ms + [m])[|ms|] == m;
    assert a.Some? ==> (ms + [m])[a.value] == ms[a.value];
    assert b.Some? && b.value < |ms| ==> ms[b.value] == (ms + [m])[b.value];
  }

  /** How one more call changes the record of an earlier one. */
  lemma RecordOfSnoc(ms: seq<Merge>, m: Merge, i: nat)
    requires i < |ms|
    ensures RecordOf(ms + [m], i) ==
            if m.correction && Some(i) == LastAbout(ms, m.field)
            then RecordOf(ms, i).(superseded := true, supersededBy := m.now) else RecordOf(ms, i)
  {
    assert (ms + [m])[i] == ms[i];
    NextAboutSnoc(ms, m, ms[i].field, i + 1);
    var j := NextAbout(ms, ms[i].field, i + 1);
    assert j.Some? ==> (ms + [m])[j.value] == ms[j.value];
    assert (ms + [m])[|ms|] == m;
  }

  /** The reverse scan of a correction stops at the last record of its field: that record is never
      superseded. */
  lemma {:induction false} ScanStopsAtLast(ms: seq<Merge>, n: nat, field: string)
    requires n <= |ms|
    requires forall k :: n <= k < |ms| ==> ms[k].field != field
    ensures LastOpen(HistoryOf(ms)[..n], field) == LastAbout(ms[..n], field)
  {
    if n > 0 {
      var h := HistoryOf(ms)[..n];
      assert h[..n - 1] == HistoryOf(ms)[..n - 1];
      assert ms[..n][..n - 1] == ms[..n - 1];
      assert h[n - 1] == RecordOf(ms, n - 1);
      if ms[n - 1].field != field {
        ScanStopsAtLast(ms, n - 1, field);
      } else {
        assert NextAbout(ms, field, n) == None;
      }
    }
  }

  lemma ScanFindsLast(ms: seq<Merge>, field: string)
    ensures LastOpen(HistoryOf(ms), field) == LastAbout(ms, field)
  {
    ScanStopsAtLast(ms, |ms|, field);
    assert HistoryOf(ms)[..|ms|] == HistoryOf(ms) && ms[..|ms|] == ms;
  }

  /** The whole tracker after any calls, without replaying them: every told claim left a record in
      order, a record is superseded exactly when the next claim about its field corrected it, and
      the latest value of a field is the one told last. */
  lemma {:induction false} RunIsHistory(ms: seq<Merge>)
    ensures var told := Told(ms);
            && Run(ms).history == HistoryOf(told)
            && (forall f :: f in Run(ms).latest <==> LastAbout(told, f).Some?)
            && (forall f :: f in Run(ms).latest ==> Run(ms).latest[f] == told[LastAbout(told, f).value].value)
  {
    if ms != [] {
      var init, m := ms[..|ms| - 1], ms[|ms| - 1];
      RunIsHistory(init);
      var told := Told(init);
      if m.value != Absent {
        assert (told + [m])[..|told|] == told;
        ScanFindsLast(told, m.field);
        RunStepHistory(told, m);
        forall f | LastAbout(told, f).Some?
          ensures (told + [m])[LastAbout(told, f).value] == told[LastAbout(told, f).value]
        {
        }
      } else {
        assert told + [] == told;
      }
    }
  }

  /** The records of earlier calls once m has marked the one it corrects. */
  function Marked(told: seq<Merge>, m: Merge): (h: seq<Record>)
    ensures |h| == |told|
  {
    if m.correction then Supersede(HistoryOf(told), LastAbout(told, m.field), m.now) else HistoryOf(told)
  }

  lemma HistorySnoc(told: seq<Merge>, m: Merge)
    ensures HistoryOf(told + [m]) == Marked(told, m) + [Record(m.field, m.value, m.now, false, "")]
  {
    forall i | 0 <= i < |told| ensures Marked(told, m)[i] == RecordOf(told + [m], i) {
      RecordOfSnoc(told, m, i);
    }
    assert RecordOf(told + [m], |told|) == Record(m.field, m.value, m.now, false, "");
  }

  lemma RunStepHistory(told: seq<Merge>, m: Merge)
    requires m.value != Absent
    ensures Apply(Tracker(map[], HistoryOf(told)), m).history == HistoryOf(told + [m])
  {
    ScanFindsLast(told, m.field);
    HistorySnoc(told, m);
  }

  function SupersededCount(h: seq<Record>): nat {
    if h == [] then 0
    else SupersededCount(h[..|h| - 1]) + if h[|h| - 1].superseded then 1 else 0
  }

  /** How many told corrections were about a field that already had a claim. */
  function Corrections(ms: seq<Merge>): nat {
    if ms == [] then 0
    else
      var init, m := ms[..|ms| - 1], ms[|ms| - 1];
      Corrections(init) + if m.correction && LastAbout(init, m.field).Some? then 1 else 0
  }

  lemma {:induction false} SupersedeCounts(h: seq<Record>, i: nat, now: string)
    requires i < |h| && !h[i].superseded
    ensures SupersededCount(Supersede(h, Some(i), now)) == SupersededCount(h) + 1
  {
    var g := Supersede(h, Some(i), now);
    if i == |h| - 1 {
      assert g[..|h| - 1] == h[..|h| - 1];
    } else {
      SupersedeCounts(h[..|h| - 1], i, now);
      assert g[..|h| - 1] == Supersede(h[..|h| - 1], Some(i), now);
    }
  }

  lemma MarkedCount(told: seq<Merge>, m: Merge)
    ensures SupersededCount(Marked(told, m)) ==
            SupersededCount(HistoryOf(told)) + if m.correction && LastAbout(told, m.field).Some? then 1 else 0
  {
    var last := LastAbout(told, m.field);
    if m.correction && last.Some? {
      assert NextAbout(told, m.field, last.value + 1) == None;
      SupersedeCounts(HistoryOf(told), last.value, m.now);
    }
  }

  /** Each correction of an already claimed field supersedes one record, and nothing else does. */
  lemma {:induction false} CorrectionsSupersede(told: seq<Merge>)
    ensures SupersededCount(HistoryOf(told)) == Corrections(told)
  {
    if told != [] {
      var init, m := told[..|told| - 1], told[|told| - 1];
      CorrectionsSupersede(init);
      assert told == init + [m];
      HistorySnoc(init, m);
      assert HistoryOf(told)[..|init|] == Marked(init, m);
      MarkedCount(init, m);
    }
  }

  /** What the system verified about the customer's record, as far as claims are compared with it. */
  datatype Evidence = Evidence(entityId: string, amount: Option<int>, bank: string)

  datatype Contradiction = Contradiction(field: string, claim: Claimed, verified: Claimed, severity: string)

  /** The Python expression `str(value)`. */
  function Shown(c: Claimed): string {
    match c
    case Absent => "None"
    case Number(n) => if n < 0 then "-" + Digits(-n) else Digits(n)
    case Words(s) => s
  }

  function Get(latest: map<string, Claimed>, field: string): Claimed {
    if field in latest then latest[field] else Absent
  }

  /** The claimed bank name as it is compared, empty when none was claimed. */
  function ClaimedBank(ws: Whitespace, lower: char -> string, latest: map<string, Claimed>): string {
    Lower(lower, Strip(ws, if "bank_name" in latest then Shown(latest["bank_name"]) else ""))
  }

  /** Neither name is part of the other. */
  ghost predicate BanksDiffer(claimed: string, verified: string) {
    && claimed != "" && verified != "" && claimed != verified
    && !Contains(verified, claimed) && !Contains(claimed, verified)
  }

  /** The comparison of claims with evidence. */
  ghost function Contradictions(ws: Whitespace, lower: char -> string, viaFloat: string -> Option<int>,
                                latest: map<string, Claimed>, ev: Evidence): seq<Contradiction>
  {
    var claimed := Normalize(ws, viaFloat, Get(latest, "amount"));
    var bank := Lower(lower, Strip(ws, ev.bank));
    (if claimed.Some? && ev.amount.Some? && claimed != ev.amount
     then [Contradiction("amount", Number(claimed.value), Number(ev.amount.value), "medium")] else []) +
    (if BanksDiffer(ClaimedBank(ws, lower, latest), bank)
     then [Contradiction("bank_name", Get(latest, "bank_name"), Words(ev.bank), "low")] else [])
  }

  /** Claims that no evidence speaks about. */
  function Unverified(latest: map<string, Claimed>, ev: Evidence): map<string, Claimed> {
    map f | f in latest
        && !(f == "amount" && ev.amount.Some?)
        && !(f == "bank_name" && ev.bank != "")
        && !(f == "transaction_id" && ev.entityId != "") :: latest[f]
  }

  /** A claim is unverified exactly when nothing of its kind was verified: amount, bank and transaction id against the
      evidence, and every other claim always. */
  lemma UnverifiedExactlyWhen(latest: map<string, Claimed>, ev: Evidence, field: string)
    ensures
      var u := Unverified(latest, ev);
      && ("amount" in u <==> "amount" in latest && ev.amount == None)
      && ("bank_name" in u <==> "bank_name" in latest && ev.bank == "")
      && ("transaction_id" in u <==> "transaction_id" in latest && ev.entityId == "")
      && (field !in {"amount", "bank_name", "transaction_id"} ==> (field in u <==> field in latest))
      && (field in u ==> field in latest && u[field] == latest[field])
  {
  }

  ghost predicate Contradicts(cs: seq<Contradiction>, field: string) {
    exists k :: 0 <= k < |cs| && cs[k].field == field
  }

  /** An amount is contradicted exactly when the claim reads as another number than the one verified, and then by that
      number. */
  lemma AmountContradictedExactlyWhen(ws: Whitespace, lower: char -> string, viaFloat: string -> Option<int>,
                                      latest: map<string, Claimed>, ev: Evidence)
    ensures
      var cs := Contradictions(ws, lower, viaFloat, latest, ev);
      var read := Normalize(ws, viaFloat, Get(latest, "amount"));
      && (Contradicts(cs, "amount") <==> read.Some? && ev.amount.Some? && read.value != ev.amount.value)
      && (Contradicts(cs, "amount") ==>
            cs[0] == Contradiction("amount", Number(read.value), Number(ev.amount.value), "medium"))
  {
    var cs := Contradictions(ws, lower, viaFloat, latest, ev);
    var read := Normalize(ws, viaFloat, Get(latest, "amount"));
    if read.Some? && ev.amount.Some? && read.value != ev.amount.value {
      assert cs[0].field == "amount";
    }
  }

  /** A bank is contradicted exactly when both names are there and neither is part of the other, and nothing but these
      two ever is. */
  lemma BankContradictedExactlyWhen(ws: Whitespace, lower: char -> string, viaFloat: string -> Option<int>,
                                    latest: map<string, Claimed>, ev: Evidence, field: string)
    ensures
      var cs := Contradictions(ws, lower, viaFloat, latest, ev);
      var claimed, verified := ClaimedBank(ws, lower, latest), Lower(lower, Strip(ws, ev.bank));
      && (Contradicts(cs, "bank_name") <==>
          claimed != "" && verified != "" && !Contains(verified, claimed) && !Contains(claimed, verified))
      && (Contradicts(cs, "bank_name") ==>
            cs[|cs| - 1] == Contradiction("bank_name", Get(latest, "bank_name"), Words(ev.bank), "low"))
      && (Contradicts(cs, field) ==> field == "amount" || field == "bank_name")
      && |cs| == (if Contradicts(cs, "amount") then 1 else 0) + if Contradicts(cs, "bank_name") then 1 else 0
  {
    var cs := Contradictions(ws, lower, viaFloat, latest, ev);
    var claimed := ClaimedBank(ws, lower, latest);
    ContainsSelf(claimed);
    if BanksDiffer(claimed, Lower(lower, Strip(ws, ev.bank))) {
      assert cs[|cs| - 1].field == "bank_name";
    }
    AmountContradictedExactlyWhen(ws, lower, viaFloat, latest, ev);
  }

  lemma ContainsSelf(s: string)
    ensures Contains(s, s)
  {
    assert MatchesAt(s, 0, s);
  }

  /** A claim is never reported both as contradicted and as unverified, and a contradiction is always
      about a claim that was made, against a different verified value. */
  lemma ContradictedIsVerified(ws: Whitespace, lower: char -> string, viaFloat: string -> Option<int>,
                               latest: map<string, Claimed>, ev: Evidence, k: nat)
    requires forall f :: f in latest ==> latest[f] != Absent
    requires k < |Contradictions(ws, lower, viaFloat, latest, ev)|
    ensures var c := Contradictions(ws, lower, viaFloat, latest, ev)[k];
            && c.field in latest && c.field !in Unverified(latest, ev)
            && c.claim != c.verified
            && (c.field == "amount" ==> ev.amount == Some(c.verified.n))
  {
    var c := Contradictions(ws, lower, viaFloat, latest, ev)[k];
    if c.field == "bank_name" {
      StripTrims(ws, ev.bank);
      assert Lower(lower, Strip(ws, "")) == "";
    }
  }

  /** Repeating the verified amount in the form the replies use is never a contradiction, and any
      other amount in that form always is. */
  lemma EchoedAmount(ws: Whitespace, lower: char -> string, viaFloat: string -> Option<int>,
                     latest: map<string, Claimed>, ev: Evidence, said: nat)
    requires 'đ' !in ws && ev.amount.Some? && Get(latest, "amount") == Words(Format(said))
    ensures (exists k :: 0 <= k < |Contradictions(ws, lower, viaFloat, latest, ev)|
                         && Contradictions(ws, lower, viaFloat, latest, ev)[k].field == "amount")
            <==> ev.amount.value != said
  {
    FormatThenNormalize(ws, viaFloat, said);
    var cs := Contradictions(ws, lower, viaFloat, latest, ev);
    if ev.amount.value != said {
      assert cs[0].field == "amount";
    }
  }
}
