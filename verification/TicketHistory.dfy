/** What every run of finalize, hand-off, decide and open calls keeps of the ticket store. */
module TicketHistory {
  import opened Options
  import opened TicketStore
  import CustomerClaims

  function Run(sv: Services, ops: seq<Op>): Store {
    if ops == [] then EMPTY_STORE else Apply(sv, Run(sv, ops[..|ops| - 1]), ops[|ops| - 1])
  }

  lemma RunSnoc(sv: Services, ops: seq<Op>, op: Op)
    ensures Run(sv, ops + [op]) == Apply(sv, Run(sv, ops), op)
  {
    assert (ops + [op])[..|ops|] == ops;
  }

  predicate FreshOp(s: Store, op: Op) {
    op.Finalize? ==> op.freshId !in s.tickets
  }

  /** Every id offered for a new ticket is unused at that moment. */
  predicate FreshIds(sv: Services, ops: seq<Op>) {
    ops != [] ==>
      FreshIds(sv, ops[..|ops| - 1]) && FreshOp(Run(sv, ops[..|ops| - 1]), ops[|ops| - 1])
  }

  /** The deduplication keys that the finalize calls of a run used. */
  function Keys(ops: seq<Op>): set<string> {
    if ops == [] then {}
    else
      var last := ops[|ops| - 1];
      Keys(ops[..|ops| - 1]) + if last.Finalize? then {KeyOf(last.chat)} else {}
  }

  /** The id offered by the first finalize call with this key. */
  function FirstId(ops: seq<Op>, key: string): string
    requires key in Keys(ops)
  {
    var before := ops[..|ops| - 1];
    if key in Keys(before) then FirstId(before, key) else ops[|ops| - 1].freshId
  }

  // ---- One ticket per key ----

  /** The key map is a bijection from keys onto stored tickets. */
  ghost predicate Bijective(s: Store) {
    && s.byCase.Values == s.tickets.Keys
    && forall j, k :: j in s.byCase && k in s.byCase && s.byCase[j] == s.byCase[k] ==> j == k
  }

  lemma BijectiveUpsert(s: Store, key: string, id: string, t: TicketData)
    requires Bijective(s)
    requires if key in s.byCase then s.byCase[key] == id else id !in s.tickets
    ensures Bijective(Upsert(s, key, id, t))
  {
    var s' := Upsert(s, key, id, t);
    forall i | i in s'.tickets.Keys
      ensures i in s'.byCase.Values
    {
      if i == id {
        assert s'.byCase[key] == i;
      } else {
        var k :| k in s.byCase && s.byCase[k] == i;
        assert s'.byCase[k] == i;
      }
    }
    forall i | i in s'.byCase.Values
      ensures i in s'.tickets.Keys
    {
      var k :| k in s'.byCase && s'.byCase[k] == i;
      assert k != key ==> s.byCase[k] in s.byCase.Values;
    }
    forall j, k | j in s'.byCase && k in s'.byCase && s'.byCase[j] == s'.byCase[k]
      ensures j == k
    {
      assert j != key ==> s.byCase[j] in s.byCase.Values;
      assert k != key ==> s.byCase[k] in s.byCase.Values;
    }
  }

  lemma KnownKey(s: Store, key: string)
    requires Bijective(s)
    ensures ByKey(s, key) == if key in s.byCase then Some(s.byCase[key]) else None
  {
    assert key in s.byCase ==> s.byCase[key] in s.byCase.Values;
  }

  lemma ApplyKeepsBijective(sv: Services, s: Store, op: Op)
    requires Bijective(s) && FreshOp(s, op)
    ensures Bijective(Apply(sv, s, op))
  {
    match op
    case Finalize(chat, freshId) =>
      KnownKey(s, KeyOf(chat));
      var existing := ByKey(s, KeyOf(chat));
      var id := existing.GetOrElse(freshId);
      BijectiveUpsert(s, KeyOf(chat), id, Finalized(if existing.Some? then s.tickets[id] else BLANK, chat));
    case HandoffWithoutContext(sessionId, reason) =>
      KnownKey(s, SessionKey(sessionId));
      var existing := ByKey(s, SessionKey(sessionId));
      if existing.Some? {
        BijectiveUpsert(s, SessionKey(sessionId), existing.value, s.tickets[existing.value].(reason := reason));
      }
    case Decide(id, decision) =>
      assert id in s.tickets ==> Apply(sv, s, op).tickets.Keys == s.tickets.Keys;
    case Open(id) =>
      assert id in s.tickets ==> Apply(sv, s, op).tickets.Keys == s.tickets.Keys;
  }

  lemma ApplyKeys(sv: Services, s: Store, op: Op)
    requires Bijective(s)
    ensures Apply(sv, s, op).byCase ==
            if op.Finalize? && KeyOf(op.chat) !in s.byCase then s.byCase[KeyOf(op.chat) := op.freshId] else s.byCase
  {
    if op.Finalize? {
      KnownKey(s, KeyOf(op.chat));
    }
    if op.HandoffWithoutContext? {
      KnownKey(s, SessionKey(op.sessionId));
    }
  }

  /** The map is a bijection from the keys used onto the tickets, and a key keeps the ticket that its
      first finalize call made. */
  lemma {:induction false} OneTicketPerKey(sv: Services, ops: seq<Op>)
    requires FreshIds(sv, ops)
    ensures Bijective(Run(sv, ops)) && Run(sv, ops).byCase.Keys == Keys(ops)
    ensures forall key :: key in Keys(ops) ==> Run(sv, ops).byCase[key] == FirstId(ops, key)
  {
    if ops != [] {
      var before := ops[..|ops| - 1];
      OneTicketPerKey(sv, before);
      ApplyKeys(sv, Run(sv, before), ops[|ops| - 1]);
      ApplyKeepsBijective(sv, Run(sv, before), ops[|ops| - 1]);
    }
  }

  lemma {:induction false} PrefixKeys(ops: seq<Op>, n: nat)
    requires n <= |ops|
    ensures Keys(ops[..n]) <= Keys(ops)
    ensures forall key :: key in Keys(ops[..n]) ==> FirstId(ops[..n], key) == FirstId(ops, key)
  {
    if n == |ops| {
      assert ops[..n] == ops;
    } else {
      var before := ops[..|ops| - 1];
      PrefixKeys(before, n);
      assert before[..n] == ops[..n];
    }
  }

  lemma {:induction false} PrefixFresh(sv: Services, ops: seq<Op>, n: nat)
    requires n <= |ops| && FreshIds(sv, ops)
    ensures FreshIds(sv, ops[..n])
  {
    if n == |ops| {
      assert ops[..n] == ops;
    } else {
      PrefixFresh(sv, ops[..|ops| - 1], n);
      assert ops[..|ops| - 1][..n] == ops[..n];
    }
  }

  /** Finalizing a known key again, or anything else later, never moves the key to another ticket. */
  lemma KeyKeepsItsTicket(sv: Services, ops: seq<Op>, n: nat, key: string)
    requires n <= |ops| && FreshIds(sv, ops) && key in Run(sv, ops[..n]).byCase
    ensures key in Run(sv, ops).byCase && Run(sv, ops).byCase[key] == Run(sv, ops[..n]).byCase[key]
  {
    PrefixFresh(sv, ops, n);
    PrefixKeys(ops, n);
    OneTicketPerKey(sv, ops);
    OneTicketPerKey(sv, ops[..n]);
  }

  lemma {:induction false} ImageOfInjection(m: map<string, string>)
    requires forall j, k :: j in m && k in m && m[j] == m[k] ==> j == k
    ensures |m.Values| == |m.Keys|
    decreases |m.Keys|
  {
    if m == map[] {
      assert m.Values == {};
    } else {
      var k :| k in m;
      var rest := m - {k};
      ImageOfInjection(rest);
      assert m.Keys == rest.Keys + {k};
      forall v | v in m.Values
        ensures v in rest.Values + {m[k]}
      {
        var j :| j in m && m[j] == v;
        assert j != k ==> rest[j] == v;
      }
      assert m[k] !in rest.Values;
      assert m.Values == rest.Values + {m[k]};
    }
  }

  /** There are as many tickets as distinct keys, not as chats. */
  lemma TicketCount(sv: Services, ops: seq<Op>)
    requires FreshIds(sv, ops)
    ensures |Run(sv, ops).tickets| == |Keys(ops)|
  {
    OneTicketPerKey(sv, ops);
    ImageOfInjection(Run(sv, ops).byCase);
    assert |Run(sv, ops).tickets| == |Run(sv, ops).tickets.Keys|;
  }

  /** Two finalize calls share a ticket exactly when they name the same case, or neither names a case
      and they name the same session, or a case id spells out the other's session key. */
  lemma SharedTicketExactlyWhen(sv: Services, ops: seq<Op>, a: Chat, b: Chat)
    requires FreshIds(sv, ops) && KeyOf(a) in Keys(ops) && KeyOf(b) in Keys(ops)
    ensures
      var s := Run(sv, ops);
      && KeyOf(a) in s.byCase && KeyOf(b) in s.byCase
      && (s.byCase[KeyOf(a)] == s.byCase[KeyOf(b)] <==>
          || (a.caseId != "" && a.caseId == b.caseId)
          || (a.caseId == "" && b.caseId == "" && a.sessionId == b.sessionId)
          || (a.caseId != "" && b.caseId == "" && a.caseId == SessionKey(b.sessionId))
          || (b.caseId != "" && a.caseId == "" && b.caseId == SessionKey(a.sessionId)))
  {
    OneTicketPerKey(sv, ops);
    SessionKeyInjective(a.sessionId, b.sessionId);
  }

  lemma SessionKeyInjective(a: string, b: string)
    ensures SessionKey(a) == SessionKey(b) <==> a == b
  {
    assert SessionKey(a)[5..] == a && SessionKey(b)[5..] == b;
  }

  /** The promise of one ticket per chat fails: a chat finalized before and after its case exists has two. */
  lemma TwoTicketsForOneChat(sv: Services, chat: Chat, caseId: string, id: string, id': string)
    requires chat.caseId == "" && caseId != "" && caseId != SessionKey(chat.sessionId) && id != id'
    ensures
      var ops := [Finalize(chat, id), Finalize(chat.(caseId := caseId), id')];
      FreshIds(sv, ops) && |Run(sv, ops).tickets| == 2
  {
    var first := Finalize(chat, id);
    var second := Finalize(chat.(caseId := caseId), id');
    RunSnoc(sv, [], first);
    assert [] + [first] == [first];
    RunSnoc(sv, [first], second);
    assert [first] + [second] == [first, second];
    assert [first, second][..1] == [first] && [first][..0] == [];
    var s := Run(sv, [first, second]);
    assert s.tickets.Keys == {id, id'};
    assert |s.tickets| == |s.tickets.Keys|;
  }

  // ---- Decisions and status ----

  /** The status of the key's ticket: that of the last finalize with the key or decision on the ticket. */
  function LatestStatus(ops: seq<Op>, key: string, id: string): Status {
    if ops == [] then PendingReview
    else
      var last := ops[|ops| - 1];
      if last.Finalize? && KeyOf(last.chat) == key then StatusOf(last.chat)
      else if last.Decide? && last.ticketId == id then StatusAfter(last.decision.verdict)
      else LatestStatus(ops[..|ops| - 1], key, id)
  }

  /** The contradictions of the last finalize with the key that found any. */
  function LatestContradictions(ops: seq<Op>, key: string): seq<CustomerClaims.Contradiction> {
    if ops == [] then []
    else
      var last := ops[|ops| - 1];
      if last.Finalize? && KeyOf(last.chat) == key && last.chat.contradictions != [] then last.chat.contradictions
      else LatestContradictions(ops[..|ops| - 1], key)
  }

  /** One entry for each decision on the ticket since it exists, in order. */
  function DecisionLog(sv: Services, ops: seq<Op>, id: string): seq<Entry> {
    if ops == [] then []
    else
      var before, last := ops[..|ops| - 1], ops[|ops| - 1];
      var s := Run(sv, before);
      DecisionLog(sv, before, id) +
      if last.Decide? && last.ticketId == id && id in s.tickets
      then [EntryOf(sv.contractOf, s.tickets[id].advice.action, last.decision)] else []
  }

  /** Which ticket a step rewrites, in a store whose key map is a bijection. */
  lemma StepOn(sv: Services, s: Store, op: Op, key: string)
    requires Bijective(s) && FreshOp(s, op) && key in s.byCase
    ensures
      var s' := Apply(sv, s, op);
      var id := s.byCase[key];
      && id in s.tickets && id in s'.tickets
      && s'.tickets[id] ==
         match op {
           case Finalize(chat, _) => if KeyOf(chat) == key then Finalized(s.tickets[id], chat) else s.tickets[id]
           case HandoffWithoutContext(session, reason) =>
             if SessionKey(session) == key then s.tickets[id].(reason := reason) else s.tickets[id]
           case Decide(i, d) => if i == id then Decided(sv.contractOf, s.tickets[id], d) else s.tickets[id]
           case Open(i) => if i == id then Seen(sv.investigate, s.tickets[id]) else s.tickets[id]
         }
  {
    KnownKey(s, key);
    assert s.byCase[key] in s.byCase.Values;
    if op.Finalize? {
      KnownKey(s, KeyOf(op.chat));
    }
    if op.HandoffWithoutContext? {
      KnownKey(s, SessionKey(op.sessionId));
    }
  }

  /** A key used for the first time makes a blank ticket and fills it. */
  lemma FirstStepOn(sv: Services, s: Store, chat: Chat, freshId: string)
    requires Bijective(s) && KeyOf(chat) !in s.byCase
    ensures
      var s' := Apply(sv, s, Finalize(chat, freshId));
      s'.byCase[KeyOf(chat)] == freshId && s'.tickets == s.tickets[freshId := Finalized(BLANK, chat)]
  {
    KnownKey(s, KeyOf(chat));
  }

  lemma {:induction false} NoDecisionBeforeTicket(sv: Services, ops: seq<Op>, id: string)
    requires FreshIds(sv, ops) && id !in Run(sv, ops).tickets
    ensures DecisionLog(sv, ops, id) == []
  {
    if ops != [] {
      var before, last := ops[..|ops| - 1], ops[|ops| - 1];
      assert id !in Run(sv, before).tickets;
      NoDecisionBeforeTicket(sv, before, id);
    }
  }

  lemma {:induction false} NoContradictionsBeforeKey(ops: seq<Op>, key: string)
    requires key !in Keys(ops)
    ensures LatestContradictions(ops, key) == []
  {
    if ops != [] {
      NoContradictionsBeforeKey(ops[..|ops| - 1], key);
    }
  }

  /** The ticket of a key is what its decisions and finalize calls say: a later finalize overwrites the
      status that staff decided, and contradictions are never cleared. */
  lemma {:induction false} TicketIsItsHistory(sv: Services, ops: seq<Op>, key: string)
    requires FreshIds(sv, ops) && key in Keys(ops)
    ensures
      var s, id := Run(sv, ops), FirstId(ops, key);
      && id in s.tickets
      && s.tickets[id].status == LatestStatus(ops, key, id)
      && s.tickets[id].log == DecisionLog(sv, ops, id)
      && s.tickets[id].contradictions == LatestContradictions(ops, key)
  {
    var before, last := ops[..|ops| - 1], ops[|ops| - 1];
    var s := Run(sv, before);
    OneTicketPerKey(sv, before);
    if key in Keys(before) {
      TicketIsItsHistory(sv, before, key);
      StepOn(sv, s, last, key);
    } else {
      FirstStepOn(sv, s, last.chat, last.freshId);
      NoDecisionBeforeTicket(sv, before, last.freshId);
      NoContradictionsBeforeKey(before, key);
    }
  }

  lemma {:induction false} LogGrows(sv: Services, ops: seq<Op>, n: nat, id: string)
    requires n <= |ops|
    ensures DecisionLog(sv, ops[..n], id) <= DecisionLog(sv, ops, id)
  {
    if n == |ops| {
      assert ops[..n] == ops;
    } else {
      LogGrows(sv, ops[..|ops| - 1], n, id);
      assert ops[..|ops| - 1][..n] == ops[..n];
    }
  }

  /** No step shortens or rewrites a ticket's audit log. */
  lemma AuditLogOnlyGrows(sv: Services, ops: seq<Op>, n: nat, key: string)
    requires n <= |ops| && FreshIds(sv, ops) && key in Keys(ops[..n])
    ensures
      var id := FirstId(ops[..n], key);
      && id in Run(sv, ops[..n]).tickets && id in Run(sv, ops).tickets
      && Run(sv, ops[..n]).tickets[id].log <= Run(sv, ops).tickets[id].log
  {
    PrefixFresh(sv, ops, n);
    PrefixKeys(ops, n);
    TicketIsItsHistory(sv, ops, key);
    TicketIsItsHistory(sv, ops[..n], key);
    LogGrows(sv, ops, n, FirstId(ops, key));
  }

  // ---- Team and reason ----

  /** The team of the key's ticket: the contract's, for the action advised at that moment, of the last approval
      whose contract names one. */
  function LatestTeam(sv: Services, ops: seq<Op>, id: string): string {
    if ops == [] then ""
    else
      var before, last := ops[..|ops| - 1], ops[|ops| - 1];
      var s := Run(sv, before);
      if last.Decide? && last.ticketId == id && id in s.tickets && last.decision.verdict == Approve
         && sv.contractOf(s.tickets[id].advice.action).team != ""
      then sv.contractOf(s.tickets[id].advice.action).team
      else LatestTeam(sv, before, id)
  }

  /** The hand-off reason: that of the last finalize with the key, or of the last hand-off of a chat whose context
      was lost and whose session is the key's. */
  function LatestReason(ops: seq<Op>, key: string): string
    requires key in Keys(ops)
  {
    var before, last := ops[..|ops| - 1], ops[|ops| - 1];
    if last.Finalize? && KeyOf(last.chat) == key then last.chat.reason
    else if last.HandoffWithoutContext? && SessionKey(last.sessionId) == key then last.reason
    else LatestReason(before, key)
  }

  lemma {:induction false} NoTeamBeforeTicket(sv: Services, ops: seq<Op>, id: string)
    requires FreshIds(sv, ops) && id !in Run(sv, ops).tickets
    ensures LatestTeam(sv, ops, id) == ""
  {
    if ops != [] {
      var before := ops[..|ops| - 1];
      assert id !in Run(sv, before).tickets;
      NoTeamBeforeTicket(sv, before, id);
    }
  }

  /** In every run a ticket is assigned as the last approval with a contract's team said, which no later finalize,
      hand-off, rejection or opening changes; and it was handed off for the reason given last under its key. */
  lemma {:induction false} AssignmentIsItsHistory(sv: Services, ops: seq<Op>, key: string)
    requires FreshIds(sv, ops) && key in Keys(ops)
    ensures
      var s, id := Run(sv, ops), FirstId(ops, key);
      id in s.tickets && s.tickets[id].team == LatestTeam(sv, ops, id) && s.tickets[id].reason == LatestReason(ops, key)
  {
    var before, last := ops[..|ops| - 1], ops[|ops| - 1];
    OneTicketPerKey(sv, before);
    if key in Keys(before) {
      AssignmentIsItsHistory(sv, before, key);
      StepOn(sv, Run(sv, before), last, key);
    } else {
      FirstStepOn(sv, Run(sv, before), last.chat, last.freshId);
      NoTeamBeforeTicket(sv, before, last.freshId);
    }
  }

  // ---- The investigation overlay ----

  /** What the findings say under a key of the staff evidence, if anything. */
  function Finding(inv: Investigation, key: Key): Option<Info> {
    match key
    case EvidenceSummary => Some(Checklist(inv.checklist))
    case MissingEvidence => Some(Labels(inv.missing))
    case ResolvedEntity => Some(Entity(inv.entityType, inv.entityId))
    case WhatWasChecked => if inv.checked != [] then Some(Labels(inv.checked)) else None
    case ConfirmedFacts => if inv.facts != [] then Some(Labels(inv.facts)) else None
    case LikelyIssue => if inv.issue != "" then Some(Note(inv.issue)) else None
    case MoneyLocation => if inv.location != "" then Some(Note(inv.location)) else None
    case LikelyBottleneck => if inv.bottleneck != "" then Some(Note(inv.bottleneck)) else None
    case RuleDiagnosis => if inv.why != "" then Some(Note(inv.why)) else None
    case _ => None
  }

  function At(facts: Facts, key: Key): Option<Info> {
    if key in facts then Some(facts[key]) else None
  }

  lemma PutAt(facts: Facts, at: Key, value: Info, when: bool, key: Key)
    ensures At(Put(facts, at, value, when), key) == if when && key == at then Some(value) else At(facts, key)
  {
  }

  lemma SameFacts(a: Facts, b: Facts)
    requires forall key :: At(a, key) == At(b, key)
    ensures a == b
  {
    forall key
      ensures (key in a <==> key in b) && (key in a ==> a[key] == b[key])
    {
      assert At(a, key) == At(b, key);
    }
  }

  lemma EvidenceAt(ev: Facts, inv: Investigation, key: Key)
    ensures
      var found := Finding(inv, key);
      At(OverlaidEvidence(ev, inv), key) == if found.Some? then found else At(ev, key)
  {
    var a := ev[EvidenceSummary := Checklist(inv.checklist)][MissingEvidence := Labels(inv.missing)]
               [ResolvedEntity := Entity(inv.entityType, inv.entityId)];
    var b := Put(a, WhatWasChecked, Labels(inv.checked), inv.checked != []);
    var c := Put(b, ConfirmedFacts, Labels(inv.facts), inv.facts != []);
    var d := Put(c, LikelyIssue, Note(inv.issue), inv.issue != "");
    var e := Put(d, MoneyLocation, Note(inv.location), inv.location != "");
    var f := Put(e, LikelyBottleneck, Note(inv.bottleneck), inv.bottleneck != "");
    PutAt(a, WhatWasChecked, Labels(inv.checked), inv.checked != [], key);
    PutAt(b, ConfirmedFacts, Labels(inv.facts), inv.facts != [], key);
    PutAt(c, LikelyIssue, Note(inv.issue), inv.issue != "", key);
    PutAt(d, MoneyLocation, Note(inv.location), inv.location != "", key);
    PutAt(e, LikelyBottleneck, Note(inv.bottleneck), inv.bottleneck != "", key);
    PutAt(f, RuleDiagnosis, Note(inv.why), inv.why != "", key);
  }

  /** What of the findings the customer's diagnosis takes over. */
  function Told(inv: Investigation, key: Key): Option<Info> {
    if key == LikelyIssue || (inv.resolved && key in {ConfirmedFacts, WhatWasChecked}) then Finding(inv, key) else None
  }

  lemma DiagnosisAt(diag: Facts, inv: Investigation, key: Key)
    ensures
      var told := Told(inv, key);
      At(OverlaidDiagnosis(diag, inv), key) == if told.Some? then told else At(diag, key)
  {
  }

  /** Staff see each finding under its own key, and what the chat left under the others; an unresolved
      investigation changes nothing of the customer's diagnosis but the likely issue. */
  lemma StaffSees(t: TicketData, inv: Investigation, key: Key)
    ensures
      var o := Overlaid(t, inv);
      var found := Finding(inv, key);
      && (key in o.evidence <==> found.Some? || key in t.evidence)
      && (key in o.evidence ==> o.evidence[key] == if found.Some? then found.value else t.evidence[key])
      && (key in o.diagnosis ==>
            if key in {ConfirmedFacts, WhatWasChecked, LikelyIssue} && (inv.resolved || key == LikelyIssue) && found.Some?
            then o.diagnosis[key] == found.value else key in t.diagnosis && o.diagnosis[key] == t.diagnosis[key])
      && (key in t.diagnosis ==> key in o.diagnosis)
  {
    EvidenceAt(t.evidence, inv, key);
    DiagnosisAt(t.diagnosis, inv, key);
  }

  /** Folding the same findings on twice changes nothing more, and never the status, team, reason,
      log or contradictions. */
  lemma OverlayIdempotent(t: TicketData, inv: Investigation)
    ensures Overlaid(Overlaid(t, inv), inv) == Overlaid(t, inv)
    ensures
      var o := Overlaid(t, inv);
      && o.intake == t.intake && o.status == t.status && o.team == t.team && o.reason == t.reason
      && o.log == t.log && o.contradictions == t.contradictions
  {
    EvidenceIdempotent(t.evidence, inv);
    DiagnosisIdempotent(t.diagnosis, inv);
  }

  lemma EvidenceIdempotent(ev: Facts, inv: Investigation)
    ensures OverlaidEvidence(OverlaidEvidence(ev, inv), inv) == OverlaidEvidence(ev, inv)
  {
    var once := OverlaidEvidence(ev, inv);
    forall key
      ensures At(OverlaidEvidence(once, inv), key) == At(once, key)
    {
      EvidenceAt(ev, inv, key);
      EvidenceAt(once, inv, key);
    }
    SameFacts(OverlaidEvidence(once, inv), once);
  }

  lemma DiagnosisIdempotent(diag: Facts, inv: Investigation)
    ensures OverlaidDiagnosis(OverlaidDiagnosis(diag, inv), inv) == OverlaidDiagnosis(diag, inv)
  {
    var once := OverlaidDiagnosis(diag, inv);
    forall key
      ensures At(OverlaidDiagnosis(once, inv), key) == At(once, key)
    {
      DiagnosisAt(diag, inv, key);
      DiagnosisAt(once, inv, key);
    }
    SameFacts(OverlaidDiagnosis(once, inv), once);
  }

  /** Whether the key's ticket asks for approval: as the last finalize with the key, or the last opening of
      the ticket that found something to investigate, decided. */
  function LatestApproval(sv: Services, ops: seq<Op>, key: string, id: string): bool {
    if ops == [] then false
    else
      var before, last := ops[..|ops| - 1], ops[|ops| - 1];
      var s := Run(sv, before);
      if last.Finalize? && KeyOf(last.chat) == key then Approval(last.chat)
      else if last.Open? && last.ticketId == id && id in s.tickets && sv.investigate(s.tickets[id]).Some? then
        var found := sv.investigate(s.tickets[id]).value;
        found.resolved && found.approvalRequired
      else LatestApproval(sv, before, key, id)
  }

  /** In every run a ticket asks for approval exactly as the latest of these asked: no decision and no
      hand-off changes it. */
  lemma {:induction false} ApprovalIsItsHistory(sv: Services, ops: seq<Op>, key: string)
    requires FreshIds(sv, ops) && key in Keys(ops)
    ensures
      var s, id := Run(sv, ops), FirstId(ops, key);
      id in s.tickets && (s.tickets[id].advice.approvalRequired <==> LatestApproval(sv, ops, key, id))
  {
    var before, last := ops[..|ops| - 1], ops[|ops| - 1];
    OneTicketPerKey(sv, before);
    if key in Keys(before) {
      ApprovalIsItsHistory(sv, before, key);
      StepOn(sv, Run(sv, before), last, key);
    } else {
      FirstStepOn(sv, Run(sv, before), last.chat, last.freshId);
    }
  }

  /** Status and approval flag agree on a ticket. */
  predicate InStep(t: TicketData) {
    t.status == PendingApproval <==> t.advice.approvalRequired
  }

  /** A finalize call leaves them in step; opening the ticket writes only the flag, and keeps them in
      step exactly when the findings confirm it. */
  lemma OpeningKeepsApprovalInStepExactlyWhen(
    investigate: TicketData -> Option<Investigation>, t: TicketData, chat: Chat)
    ensures
      var f := Finalized(t, chat);
      var inv := investigate(f);
      && InStep(f)
      && (InStep(Seen(investigate, f)) <==>
          inv.None? || (inv.value.resolved && inv.value.approvalRequired) == Approval(chat))
  {
  }

  predicate Approval(chat: Chat) {
    chat.caseState.Some? && chat.caseState.value.approvalRequired
  }
}
