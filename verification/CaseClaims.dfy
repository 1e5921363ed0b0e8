/** The claim history of one complaint case. */
module CaseClaims {
  import opened Options
  import opened VndAmount

  type Fields = map<string, Claimed>

  /** The value of a claim record. */
  datatype Record = Record(fields: Fields, claimId: string, superseded: bool, supersededBy: string)

  /** The value of a case's claims: current claims, history, and the superseded records. */
  datatype Claims = Claims(current: Fields, history: seq<Record>, superseded: seq<Record>)

  /** A call of `record_claim` or `supersede_claims`, with the id of the record it makes. */
  datatype Op = Tell(fields: Fields, id: string) | Correct(fields: Fields, id: string)

  const NO_CLAIMS := Claims(map[], [], [])

  /** Values that overwrite the current claim. A zero amount does. */
  predicate Given(c: Claimed) {
    c != Absent && c != Words("")
  }

  function Overlay(current: Fields, fields: Fields): Fields {
    current + map k | k in fields && Given(fields[k]) :: fields[k]
  }

  function MarkLast(h: seq<Record>, id: string): seq<Record>
    requires h != []
  {
    h[|h| - 1 := h[|h| - 1].(superseded := true, supersededBy := id)]
  }

  function Apply(c: Claims, op: Op): Claims {
    var added := Record(op.fields, op.id, false, "");
    if op.Tell? || c.history == [] then Claims(Overlay(c.current, op.fields), c.history + [added], c.superseded)
    else
      var h := MarkLast(c.history, op.id);
      Claims(Overlay(c.current, op.fields), h + [added], c.superseded + [h[|h| - 1]])
  }

  class ClaimRecord {
    const fields: Fields
    const claimId: string
    var superseded: bool
    var supersededBy: string

    constructor (fields: Fields, claimId: string)
      ensures View() == Record(fields, claimId, false, "")
    {
      this.fields, this.claimId, superseded, supersededBy := fields, claimId, false, "";
    }

    function View(): Record
      reads this
    {
      Record(fields, claimId, superseded, supersededBy)
    }
  }

  /** The claims part of a case. The superseded list shares its records with the history. */
  class CaseState {
    var customerClaims: Fields
    var claimHistory: seq<ClaimRecord>
    var supersededClaims: seq<ClaimRecord>

    ghost predicate Valid()
      reads this, claimHistory, supersededClaims
    {
      && (forall i, j :: 0 <= i < j < |claimHistory| ==> claimHistory[i] != claimHistory[j])
      && (forall r :: r in supersededClaims ==> r.superseded)
      && (claimHistory != [] ==> !claimHistory[|claimHistory| - 1].superseded)
    }

    ghost function View(): Claims
      reads this, claimHistory, supersededClaims
    {
      Claims(customerClaims,
             seq(|claimHistory|, i requires 0 <= i < |claimHistory| reads this, claimHistory => claimHistory[i].View()),
             seq(|supersededClaims|, i requires 0 <= i < |supersededClaims| reads this, supersededClaims =>
               supersededClaims[i].View()))
    }

    constructor ()
      ensures Valid() && View() == NO_CLAIMS
    {
      customerClaims, claimHistory, supersededClaims := map[], [], [];
    }

    method RecordClaim(fields: Fields, id: string) returns (record: ClaimRecord)
      requires Valid()
      modifies this
      ensures Valid() && fresh(record) && claimHistory != [] && record == claimHistory[|claimHistory| - 1]
      ensures View() == Apply(old(View()), Tell(fields, id))
    {
      ghost var before := View();
      record := new ClaimRecord(fields, id);
      claimHistory := claimHistory + [record];
      customerClaims := Overlay(customerClaims, fields);
      assert View().history == before.history + [record.View()];
      assert View().superseded == before.superseded;
    }

    method SupersedeClaims(fields: Fields, id: string) returns (record: ClaimRecord)
      requires Valid()
      modifies this, claimHistory
      ensures Valid() && fresh(record) && claimHistory != [] && record == claimHistory[|claimHistory| - 1]
      ensures View() == Apply(old(View()), Correct(fields, id))
    {
      ghost var before := View();
      if claimHistory != [] {
        var last := claimHistory[|claimHistory| - 1];
        last.superseded := true;
        supersededClaims := supersededClaims + [last];
      }
      record := new ClaimRecord(fields, id);
      if claimHistory != [] {
        claimHistory[|claimHistory| - 1].supersededBy := record.claimId;
        assert View().history == MarkLast(before.history, id);
        assert View().superseded == before.superseded + [MarkLast(before.history, id)[|before.history| - 1]];
      } else {
        assert View().superseded == before.superseded;
      }
      ghost var marked := View().history;
      ghost var dropped := View().superseded;
      claimHistory := claimHistory + [record];
      customerClaims := Overlay(customerClaims, fields);
      assert View().history == marked + [record.View()];
      assert View().superseded == dropped;
    }
  }

  /** The claims after a list of calls. */
  function Run(ops: seq<Op>): Claims {
    if ops == [] then NO_CLAIMS else Apply(Run(ops[..|ops| - 1]), ops[|ops| - 1])
  }

  /** The record call i leaves behind: superseded exactly when the very next call is a correction,
      and then linked to that call's record. */
  function RecordOf(ops: seq<Op>, i: nat): Record
    requires i < |ops|
  {
    if i + 1 < |ops| && ops[i + 1].Correct? then Record(ops[i].fields, ops[i].id, true, ops[i + 1].id)
    else Record(ops[i].fields, ops[i].id, false, "")
  }

  function HistoryOf(ops: seq<Op>): seq<Record> {
    seq(|ops|, i requires 0 <= i < |ops| => RecordOf(ops, i))
  }

  function SupersededIn(h: seq<Record>): seq<Record> {
    if h == [] then []
    else SupersededIn(h[..|h| - 1]) + if h[|h| - 1].superseded then [h[|h| - 1]] else []
  }

  /** The last call that gave a value for a field. */
  function LastGiven(ops: seq<Op>, field: string): (i: Option<nat>)
    ensures i.Some? ==> i.value < |ops| && field in ops[i.value].fields && Given(ops[i.value].fields[field])
    ensures forall k :: (if i.Some? then i.value + 1 else 0) <= k < |ops| ==>
                          field !in ops[k].fields || !Given(ops[k].fields[field])
  {
    if ops == [] then None
    else
      var op := ops[|ops| - 1];
      if field in op.fields && Given(op.fields[field]) then Some(|ops| - 1) else LastGiven(ops[..|ops| - 1], field)
  }

  lemma HistorySnoc(ops: seq<Op>, op: Op)
    ensures HistoryOf(ops + [op]) ==
            (if ops != [] && op.Correct? then MarkLast(HistoryOf(ops), op.id) else HistoryOf(ops))
            + [Record(op.fields, op.id, false, "")]
  {
    forall i | 0 <= i < |ops|
      ensures RecordOf(ops + [op], i) ==
              if i == |ops| - 1 && op.Correct? then RecordOf(ops, i).(superseded := true, supersededBy := op.id)
              else RecordOf(ops, i)
    {
    }
  }

  lemma SupersededSnoc(ops: seq<Op>, op: Op)
    ensures var h := HistoryOf(ops);
            SupersededIn(HistoryOf(ops + [op])) ==
            SupersededIn(h) + if ops != [] && op.Correct? then [MarkLast(h, op.id)[|h| - 1]] else []
  {
    HistorySnoc(ops, op);
    var h := HistoryOf(ops);
    var g := HistoryOf(ops + [op]);
    assert g[..|g| - 1] == if ops != [] && op.Correct? then MarkLast(h, op.id) else h;
    if ops != [] {
      assert MarkLast(h, op.id)[..|h| - 1] == h[..|h| - 1];
    }
  }

  lemma {:induction false} RunLists(ops: seq<Op>)
    ensures Run(ops).history == HistoryOf(ops) && Run(ops).superseded == SupersededIn(HistoryOf(ops))
  {
    if ops != [] {
      var init, op := ops[..|ops| - 1], ops[|ops| - 1];
      RunLists(init);
      assert ops == init + [op];
      HistorySnoc(init, op);
      SupersededSnoc(init, op);
    }
  }

  /** The current claims are the fold of the non-empty fields of all calls. */
  lemma {:induction false} RunCurrent(ops: seq<Op>)
    ensures var c := Run(ops).current;
            && (forall k :: k in c <==> LastGiven(ops, k).Some?)
            && (forall k :: k in c ==> c[k] == ops[LastGiven(ops, k).value].fields[k])
  {
    if ops != [] {
      RunCurrent(ops[..|ops| - 1]);
      assert Run(ops).current == Overlay(Run(ops[..|ops| - 1]).current, ops[|ops| - 1].fields);
    }
  }

  /** The whole claim state after any calls: the history says which record was corrected by the
      next call, the superseded list is the history's superseded records in order, and the current
      value of a field is the last one given. */
  lemma RunIsHistory(ops: seq<Op>)
    ensures var c := Run(ops);
            && c.history == HistoryOf(ops)
            && c.superseded == SupersededIn(c.history)
            && (forall k :: k in c.current <==> LastGiven(ops, k).Some?)
            && (forall k :: k in c.current ==> c.current[k] == ops[LastGiven(ops, k).value].fields[k])
  {
    RunLists(ops);
    RunCurrent(ops);
  }

  /** The call gives a value for the field: a zero is one, nothing and empty text are not. */
  predicate Gives(op: Op, field: string) {
    field in op.fields && op.fields[field] != Absent && op.fields[field] != Words("")
  }

  /** Call i gives the field this value, and no later call gives it any. */
  ghost predicate GivesLast(ops: seq<Op>, field: string, value: Claimed, i: int) {
    && 0 <= i < |ops| && Gives(ops[i], field) && ops[i].fields[field] == value
    && forall k :: i < k < |ops| ==> !Gives(ops[k], field)
  }

  lemma LastGivenGivesLast(ops: seq<Op>, field: string, value: Claimed, i: int)
    ensures
      var last := LastGiven(ops, field);
      GivesLast(ops, field, value, i) <==> last == Some(i) && ops[i].fields[field] == value
  {
    var last := LastGiven(ops, field);
    if last.Some? {
      assert Gives(ops[last.value], field);
      assert forall k :: last.value < k < |ops| ==> !Gives(ops[k], field);
    }
  }

  /** A field's current claim is a value exactly when some call gave that value and no later call gave any. */
  lemma CurrentExactlyWhen(ops: seq<Op>, field: string, value: Claimed)
    ensures
      var c := Run(ops).current;
      field in c && c[field] == value <==> exists i :: GivesLast(ops, field, value, i)
  {
    RunCurrent(ops);
    var last := LastGiven(ops, field);
    if last.Some? {
      LastGivenGivesLast(ops, field, value, last.value);
    }
    if i :| GivesLast(ops, field, value, i) {
      LastGivenGivesLast(ops, field, value, i);
    }
  }

  /** The last record is never superseded, and every superseded record names its successor. */
  lemma LinksAreNext(ops: seq<Op>, i: nat)
    requires i < |ops|
    ensures var h := Run(ops).history;
            && |h| == |ops|
            && (h[i].superseded ==> i + 1 < |h| && h[i].supersededBy == h[i + 1].claimId)
  {
    RunIsHistory(ops);
  }
}
